/** The archive as the store it is: objects, records and locks updated step by step, each call proved to do
    what ArchiveModel says. */
module Archive {
  import opened Wrappers
  import opened ArchiveModel
  import Model = ArchiveModel

  lemma LockDoesNotMatter(s: Store, h: Hasher, q: Request, locks: set<string>)
    ensures Admitted(s.(locks := locks), h, q) == (Admitted(s, h, q).0.(locks := locks), Admitted(s, h, q).1)
    ensures Admitted(s, h, q).0.locks == s.locks
  {
    hide Model.Content, ValidRecord;
  }

  class Archive {
    const hasher: Hasher
    var objects: map<string, Bytes>
    var metadata: map<string, Record>
    var locks: set<string>
    ghost var written: seq<string>

    ghost function View(): Store
      reads this
    {
      Store(objects, metadata, locks, written)
    }

    constructor (h: Hasher)
      ensures hasher == h && View() == EMPTY
    {
      hasher, objects, metadata, locks, written := h, map[], map[], {}, [];
    }

    /** `hashes_for`: the chunks that were copied, up to the first empty one. */
    method HashesFor(stream: seq<Chunk>, maxBytes: int) returns (r: Result<Bytes>)
      ensures r == Received(stream, [], maxBytes)
    {
      var destination: Bytes := [];
      var i := 0;
      while i < |stream|
        invariant i <= |stream| && Received(stream, [], maxBytes) == Received(stream[i..], destination, maxBytes)
      {
        assert stream[i..][0] == stream[i] && stream[i..][1..] == stream[i + 1..];
        if stream[i].Broken? {
          return Err(ReadFailed);
        }
        var chunk := stream[i].bytes;
        if chunk == [] {
          return Ok(destination);
        }
        if |destination| + |chunk| > maxBytes {
          return Err(TooLarge);
        }
        destination := destination + chunk;
        i := i + 1;
      }
      assert stream[i..] == [];
      return Ok(destination);
    }

    /** What fills the quarantine and is checked there. */
    method Quarantine(q: Request) returns (r: Result<Bytes>)
      ensures r == Model.Content(hasher, q)
    {
      r := HashesFor(q.stream, q.maxBytes);
      if r.Err? {
        return r;
      }
      if q.expectedSize.Some? && q.expectedSize.value != |r.value| {
        return Err(Incomplete);
      }
      var unexpected := CheckExpected(hasher, r.value, q);
      if unexpected.Some? {
        return Err(unexpected.value);
      }
      if !HexDigest(hasher.sha256(r.value), 64) {
        return Err(InvalidDigest);
      }
    }

    /** The object under its digest, unless it is there already. */
    method Shelve(content: Bytes) returns (ok: bool)
      modifies this`objects
      ensures !ok ==> Model.Shelved(old(View()), hasher, content) == Err(ImpossibleSize)
      ensures ok ==> Model.Shelved(old(View()), hasher, content) == Ok(View())
      ensures !ok ==> View() == old(View())
    {
      var digest := Lower(hasher.sha256(content));
      if digest in objects {
        return |objects[digest]| == |content|;
      }
      objects := objects[digest := content];
      return true;
    }

    /** What `preserve_stream` does between taking its lock and giving it back. */
    method Fill(q: Request) returns (r: Result<Record>)
      requires q.id in locks
      modifies this`objects, this`metadata, this`written
      ensures (View(), r) == Model.Admitted(old(View()), hasher, q)
    {
      hide Model.Content, Model.Shelved, ValidRecord;
      var content := Quarantine(q);
      if content.Err? {
        return Err(content.error);
      }
      var shelved := Shelve(content.value);
      if !shelved {
        return Err(ImpossibleSize);
      }
      var digest := hasher.sha256(content.value);
      var previous := if q.url == "" then {} else Predecessors(metadata, q.url, digest);
      var record := Record(q.id, digest, hasher.sha1(content.value), hasher.md5(content.value), |content.value|,
                           q.filename.GetOr(""), q.role, q.kind, q.acquired, q.source, q.url, previous, q.rights,
                           q.lineage, ParentIds(q.lineage));
      assert record == NewRecord(View(), hasher, q, content.value);
      if !ValidRecord(record) {
        return Err(InvalidMetadata);
      }
      metadata, written := metadata[q.id := record], written + [q.id];
      return Ok(record);
    }

    /** `preserve_stream`: whatever happens, the lock is given back. */
    method Preserve(q: Request) returns (r: Result<Record>)
      modifies this
      ensures (View(), r) == Model.Preserve(old(View()), hasher, q)
    {
      if !ValidId(q.id) {
        return Err(InvalidId);
      }
      if q.filename.None? {
        return Err(UnsafeFilename);
      }
      if q.id in metadata {
        return Err(Duplicate);
      }
      if q.id in locks {
        return Err(BeingWritten);
      }
      LockDoesNotMatter(View(), hasher, q, locks + {q.id});
      hide Admitted;
      locks := locks + {q.id};
      r := Fill(q);
      locks := locks - {q.id};
    }

    /** `derive`: every parent is loaded before anything else. */
    method Derive(q: Request, d: Derivation) returns (r: Result<Record>)
      modifies this
      ensures (View(), r) == Model.Derive(old(View()), hasher, q, d)
    {
      var parents: seq<Parent> := [];
      for i := 0 to |d.parents|
        invariant View() == old(View()) && |parents| == i
        invariant forall k | 0 <= k < i :: d.parents[k] in metadata && parents[k] == ParentOf(metadata[d.parents[k]])
      {
        if d.parents[i] !in metadata {
          return Err(UnknownArtifact);
        }
        parents := parents + [ParentOf(metadata[d.parents[i]])];
      }
      assert parents == AsDerived(metadata, q, d).lineage.value.parents;
      hide Model.Preserve;
      r := Preserve(q.(source := "derived in archive", url := "",
                       kind := if q.role == "reconstructed" then "reconstructed" else "derived",
                       lineage := Some(Lineage(parents, d.action, d.at))));
    }

    /** `verify_one`, reading the object piece by piece. */
    method VerifyOne(id: string) returns (r: Result<Record>)
      ensures r == Model.VerifyOne(View(), hasher, id)
    {
      if id !in metadata {
        return Err(UnknownArtifact);
      }
      var record := metadata[id];
      if !ValidRecord(record) {
        return Err(InvalidMetadata);
      }
      if Lower(record.sha256) !in objects {
        return Err(ObjectMissing);
      }
      var object_ := objects[Lower(record.sha256)];
      var seen: Bytes, size := [], 0;
      while size < |object_|
        invariant size == |seen| <= |object_| && seen == object_[..size]
      {
        var next := if size + PIECE <= |object_| then size + PIECE else |object_|;
        seen := seen + object_[size..next];
        size := next;
      }
      assert seen == object_;
      return if hasher.sha256(seen) == record.sha256 && size == record.size then Ok(record) else Err(Mismatch);
    }
  }

  const PIECE := 1024 * 1024
}
