/** The archive only grows, always verifies, and its lineage has no cycles, whatever fails or is killed. */
module ArchiveIntegrity {
  import opened Wrappers
  import opened ArchiveModel
  import Inventory

  // ---------------------------------------------------------------- streams

  /** What is received is exactly what the stream held before its first empty chunk. */
  lemma ReceivedIsContent(stream: seq<Chunk>, maxBytes: int, content: Bytes)
    ensures Received(stream, [], maxBytes) == Ok(content) <==>
            exists n: nat :: EndsAt(stream, n) && content == Joined(stream[..n]) && (n == 0 || |content| <= maxBytes)
  {
    hide Joined, Received;
    if Received(stream, [], maxBytes) == Ok(content) {
      var n := ReceivedEnds(stream, [], maxBytes);
      assert content == [] + Joined(stream[..n]) == Joined(stream[..n]);
    }
    if n: nat :| EndsAt(stream, n) && content == Joined(stream[..n]) && (n == 0 || |content| <= maxBytes) {
      assert [] + Joined(stream[..n]) == content;
      EndIsReceived(stream, [], maxBytes, n);
    }
  }

  lemma {:induction false} ReceivedEnds(stream: seq<Chunk>, soFar: Bytes, maxBytes: int) returns (n: nat)
    requires Received(stream, soFar, maxBytes).Ok?
    ensures EndsAt(stream, n) && Received(stream, soFar, maxBytes) == Ok(soFar + Joined(stream[..n]))
    ensures n == 0 || |soFar + Joined(stream[..n])| <= maxBytes
  {
    if stream == [] || stream[0].bytes == [] {
      n := 0;
      assert stream[..0] == [] && soFar + [] == soFar;
      assert stream != [] ==> stream[0] == Data([]);
    } else {
      var b := stream[0].bytes;
      var m := ReceivedEnds(stream[1..], soFar + b, maxBytes);
      hide Joined, EndsAt;
      n := m + 1;
      EndsShorter(stream[1..], m);
      OneMore(stream, m);
      assert soFar + b + Joined(stream[1..][..m]) == soFar + Joined(stream[..n]);
      if m == 0 {
        NoneJoined(stream[1..]);
      }
    }
  }

  lemma EndsShorter(stream: seq<Chunk>, n: nat)
    requires EndsAt(stream, n)
    ensures n <= |stream|
  {
  }

  lemma NoneJoined(stream: seq<Chunk>)
    ensures Joined(stream[..0]) == []
  {
  }

  lemma {:induction false} EndIsReceived(stream: seq<Chunk>, soFar: Bytes, maxBytes: int, n: nat)
    requires EndsAt(stream, n) && (n == 0 || |soFar + Joined(stream[..n])| <= maxBytes)
    ensures Received(stream, soFar, maxBytes) == Ok(soFar + Joined(stream[..n]))
  {
    if n == 0 {
      NoneJoined(stream);
      assert soFar + [] == soFar;
    } else {
      var b := stream[0].bytes;
      OneMore(stream, n - 1);
      var last := Joined(stream[1..][..n - 1]);
      assert soFar + b + last == soFar + Joined(stream[..n]);
      EndIsReceived(stream[1..], soFar + b, maxBytes, n - 1);
    }
  }

  lemma OneMore(stream: seq<Chunk>, m: nat)
    requires stream != [] && stream[0].Data? && stream[0].bytes != [] && m < |stream|
    ensures EndsAt(stream, m + 1) <==> EndsAt(stream[1..], m)
    ensures Joined(stream[..m + 1]) == stream[0].bytes + Joined(stream[1..][..m])
  {
    assert stream[..m + 1][1..] == stream[1..][..m];
    if EndsAt(stream[1..], m) {
      forall i | 0 <= i < m + 1 ensures stream[i].Data? && stream[i].bytes != [] {
        assert i > 0 ==> stream[i] == stream[1..][i - 1];
      }
    }
  }

  // ---------------------------------------------------------------- soundness

  ghost predicate ObjectFits(s: Store, h: Hasher, d: string) {
    d in s.objects ==> h.sha256(s.objects[d]) == d
  }

  /** A record is that of its artifact and names an object of its size; its digests of parents are those
      the parents' records hold, and its predecessors are other versions from its source. */
  ghost predicate RecordFits(s: Store, id: string) {
    id in s.metadata ==>
      s.metadata[id].id == id && Named(s, s.metadata[id]) && Related(s.metadata, s.metadata[id])
  }

  ghost predicate Named(s: Store, r: Record) {
    && ValidRecord(r) && Lower(r.sha256) == r.sha256 && r.derivedFrom == ParentIds(r.lineage)
    && r.sha256 in s.objects && |s.objects[r.sha256]| == r.size
  }

  ghost predicate Related(m: map<string, Record>, r: Record) {
    && ParentsKnown(m, r.lineage)
    && forall p | p in r.previous :: p in m && m[p].url == r.url && m[p].sha256 != r.sha256
  }

  ghost predicate ParentsKnown(m: map<string, Record>, l: Option<Lineage>) {
    l.Some? ==> forall i | 0 <= i < |l.value.parents| ::
      l.value.parents[i].id in m && m[l.value.parents[i].id].sha256 == l.value.parents[i].sha256
  }

  function Graph(m: map<string, Record>): Inventory.Dependencies {
    map id | id in m :: ParentIds(m[id].lineage)
  }

  ghost predicate Dated(s: Store) {
    Inventory.Finished(Graph(s.metadata), s.written) && forall n | n in s.metadata :: n in s.written
  }

  ghost predicate Sound(s: Store, h: Hasher) {
    (forall d :: ObjectFits(s, h, d)) && (forall id :: RecordFits(s, id)) && Dated(s)
  }

  /** Nothing that is there goes away or changes. */
  ghost predicate Grows(s: Store, t: Store) {
    && (forall d | d in s.objects :: d in t.objects && t.objects[d] == s.objects[d])
    && (forall id | id in s.metadata :: id in t.metadata && t.metadata[id] == s.metadata[id])
    && s.locks <= t.locks && s.written <= t.written
  }

  lemma GrowsOn(s: Store, t: Store, u: Store)
    requires Grows(s, t) && Grows(t, u)
    ensures Grows(s, u)
  {
  }

  // ---------------------------------------------------------------- each step keeps it

  lemma ShelvedKeepsObjects(s: Store, h: Hasher, content: Bytes)
    requires HexHasher(h) && forall d :: ObjectFits(s, h, d)
    ensures Shelved(s, h, content).Ok? ==>
              var t := Shelved(s, h, content).value;
              && (forall d :: ObjectFits(t, h, d)) && t == s.(objects := t.objects)
              && (forall d | d in s.objects :: d in t.objects && t.objects[d] == s.objects[d])
              && h.sha256(content) in t.objects && |t.objects[h.sha256(content)]| == |content|
  {
    if Shelved(s, h, content).Ok? {
      forall d ensures ObjectFits(Shelved(s, h, content).value, h, d) {
        assert ObjectFits(s, h, d);
      }
    }
  }

  lemma ShelvedIsSound(s: Store, h: Hasher, content: Bytes)
    requires HexHasher(h) && Sound(s, h)
    ensures Shelved(s, h, content).Ok? ==>
              var t := Shelved(s, h, content).value;
              && Sound(t, h) && Grows(s, t) && t.metadata == s.metadata && t.locks == s.locks && t.written == s.written
              && h.sha256(content) in t.objects && |t.objects[h.sha256(content)]| == |content|
  {
    hide Inventory.Finished, ValidRecord, HexHasher;
    if Shelved(s, h, content).Ok? {
      ShelvedKeepsObjects(s, h, content);
      hide Shelved;
      forall id ensures RecordFits(Shelved(s, h, content).value, id) {
        assert RecordFits(s, id);
      }
    }
  }

  /** A record joins the others: nothing had named it as a parent before. */
  lemma RegisteredIsSound(s: Store, h: Hasher, r: Record)
    requires Sound(s, h) && r.id !in s.metadata
    requires RecordFits(s.(metadata := s.metadata[r.id := r]), r.id) && ParentsKnown(s.metadata, r.lineage)
    ensures Sound(Registered(s, r), h) && Grows(s, Registered(s, r))
  {
    hide Inventory.Finished, ValidRecord, Dated;
    var t := Registered(s, r);
    forall d ensures ObjectFits(t, h, d) {
      assert ObjectFits(s, h, d);
    }
    forall id ensures RecordFits(t, id) {
      OthersFit(s, r, id);
    }
    RegisteredIsDated(s, r);
  }

  lemma OthersFit(s: Store, r: Record, id: string)
    requires r.id !in s.metadata && RecordFits(s, id)
    requires RecordFits(s.(metadata := s.metadata[r.id := r]), r.id)
    ensures RecordFits(Registered(s, r), id)
  {
    hide ValidRecord, ParentIds;
  }

  lemma RegisteredIsDated(s: Store, r: Record)
    requires Dated(s) && r.id !in s.metadata && ParentsKnown(s.metadata, r.lineage)
    requires forall id :: RecordFits(s, id)
    ensures Dated(Registered(s, r))
  {
    hide ValidRecord, ParentIds, RecordFits, ParentsKnown;
    var t := Registered(s, r);
    var g, g' := Graph(s.metadata), Graph(t.metadata);
    assert g.Keys == s.metadata.Keys && g'.Keys == t.metadata.Keys && r.id !in s.written;
    assert t.written == s.written + [r.id];
    forall b | Inventory.Edge(g', r.id, b) ensures b in s.written {
      NewEdge(s, r, b);
    }
    forall a, b | a in s.metadata && Inventory.Edge(g', a, b) ensures Inventory.Edge(g, a, b) {
      OldEdge(s, r, a, b);
    }
    hide Graph, Registered, Inventory.Edge;
    Appended(g, g', s.written, r.id);
  }

  lemma Appended(g: Inventory.Dependencies, g': Inventory.Dependencies, order: seq<string>, last: string)
    requires Inventory.Finished(g, order) && last !in order && last in g' && forall a | a in g :: a in g'
    requires forall b | Inventory.Edge(g', last, b) :: b in order
    requires forall a, b | a in g && Inventory.Edge(g', a, b) :: Inventory.Edge(g, a, b)
    ensures Inventory.Finished(g', order + [last])
  {
    hide Inventory.Edge;
    var longer := order + [last];
    forall i, b | 0 <= i < |longer| && Inventory.Edge(g', longer[i], b) ensures b in longer[..i] {
      assert i < |order| ==> longer[i] == order[i];
      assert longer[..i] == order[..i];
    }
  }

  lemma OldEdge(s: Store, r: Record, a: string, b: string)
    requires a in s.metadata && r.id !in s.metadata && RecordFits(s, a)
    requires Inventory.Edge(Graph(Registered(s, r).metadata), a, b)
    ensures Inventory.Edge(Graph(s.metadata), a, b)
  {
    hide ValidRecord;
    assert b in ParentIds(s.metadata[a].lineage);
  }

  lemma NewEdge(s: Store, r: Record, b: string)
    requires r.id !in s.metadata && ParentsKnown(s.metadata, r.lineage)
    requires Inventory.Edge(Graph(Registered(s, r).metadata), r.id, b)
    ensures b in s.metadata
  {
    hide ValidRecord;
    assert b in ParentIds(r.lineage);
  }

  lemma NewRecordFits(s: Store, h: Hasher, q: Request, content: Bytes)
    requires HexHasher(h) && Sound(s, h) && ParentsKnown(s.metadata, q.lineage) && q.id !in s.metadata
    requires h.sha256(content) in s.objects && |s.objects[h.sha256(content)]| == |content|
    requires ValidRecord(NewRecord(s, h, q, content))
    ensures RecordFits(s.(metadata := s.metadata[q.id := NewRecord(s, h, q, content)]), q.id)
  {
    hide ValidRecord, ParentIds;
    var r := NewRecord(s, h, q, content);
    var m := s.metadata;
    forall p | p in r.previous ensures p in m && m[p].url == r.url && m[p].sha256 != r.sha256 {
      var id :| id in m && m[id].url == q.url && m[id].sha256 != r.sha256 && m[id].id == p;
      assert RecordFits(s, id);
    }
  }

  lemma PreserveIsSound(s: Store, h: Hasher, q: Request)
    requires HexHasher(h) && Sound(s, h) && ParentsKnown(s.metadata, q.lineage)
    ensures Sound(Preserve(s, h, q).0, h) && Grows(s, Preserve(s, h, q).0)
  {
    hide Sound, Content, ValidRecord, Shelved, NewRecord, Registered, HexHasher;
    assert Grows(s, s);
    if Refusal(s, q).None? && Content(h, q).Ok? {
      var content := Content(h, q).value;
      ShelvedIsSound(s, h, content);
      if Shelved(s, h, content).Ok? {
        var s1 := Shelved(s, h, content).value;
        var r := NewRecord(s1, h, q, content);
        if ValidRecord(r) {
          NewRecordFits(s1, h, q, content);
          NewRecordKeeps(s1, h, q, content);
          RegisteredIsSound(s1, h, r);
          GrowsOn(s, s1, Registered(s1, r));
        }
      }
    }
  }

  lemma NewRecordKeeps(s: Store, h: Hasher, q: Request, content: Bytes)
    ensures NewRecord(s, h, q, content).id == q.id && NewRecord(s, h, q, content).lineage == q.lineage
  {
  }

  lemma DerivedParents(s: Store, h: Hasher, q: Request, d: Derivation)
    requires Sound(s, h) && forall i | 0 <= i < |d.parents| :: d.parents[i] in s.metadata
    ensures ParentsKnown(s.metadata, AsDerived(s.metadata, q, d).lineage)
  {
    forall i | 0 <= i < |d.parents| ensures s.metadata[d.parents[i]].id == d.parents[i] {
      assert RecordFits(s, d.parents[i]);
    }
  }

  lemma LockedIsSound(s: Store, h: Hasher, id: string)
    requires Sound(s, h)
    ensures Sound(s.(locks := s.locks + {id}), h) && Grows(s, s.(locks := s.locks + {id}))
  {
    hide Inventory.Finished, ValidRecord;
    var t := s.(locks := s.locks + {id});
    forall d ensures ObjectFits(t, h, d) {
      assert ObjectFits(s, h, d);
    }
    forall x ensures RecordFits(t, x) {
      assert RecordFits(s, x);
    }
  }

  lemma KilledIsSound(s: Store, h: Hasher, q: Request, progress: Progress)
    requires HexHasher(h) && Sound(s, h) && ParentsKnown(s.metadata, q.lineage)
    ensures Sound(Killed(s, h, q, progress), h) && Grows(s, Killed(s, h, q, progress))
  {
    hide Sound, Content, Shelved, HexHasher, Preserve;
    assert Grows(s, s);
    var s1 := s.(locks := s.locks + {q.id});
    LockedIsSound(s, h, q.id);
    match progress
    case Locked =>
    case Recorded =>
      PreserveIsSound(s, h, q);
      PreserveKeepsLocks(s, h, q);
      LockedIsSound(Preserve(s, h, q).0, h, q.id);
    case Linked =>
      if Content(h, q).Ok? {
        ShelvedIsSound(s1, h, Content(h, q).value);
        if Shelved(s1, h, Content(h, q).value).Ok? {
          GrowsOn(s, s1, Shelved(s1, h, Content(h, q).value).value);
        }
      }
  }

  lemma PreserveKeepsLocks(s: Store, h: Hasher, q: Request)
    ensures Preserve(s, h, q).0.locks == s.locks
  {
  }

  lemma PerformIsSound(s: Store, h: Hasher, op: Op)
    requires HexHasher(h) && Sound(s, h)
    ensures Sound(Perform(s, h, op), h) && Grows(s, Perform(s, h, op))
  {
    hide Sound, HexHasher, Preserve, Killed;
    match op
    case Import(q) => PreserveIsSound(s, h, AsImport(q));
    case Deriving(q, d) =>
      if forall i | 0 <= i < |d.parents| :: d.parents[i] in s.metadata {
        DerivedParents(s, h, q, d);
        PreserveIsSound(s, h, AsDerived(s.metadata, q, d));
      }
    case Interrupted(call, progress) =>
      match call {
        case Import(q) => KilledIsSound(s, h, AsImport(q), progress);
        case Deriving(q, d) =>
          if forall i | 0 <= i < |d.parents| :: d.parents[i] in s.metadata {
            DerivedParents(s, h, q, d);
            KilledIsSound(s, h, AsDerived(s.metadata, q, d), progress);
          }
        case Interrupted(_, _) =>
      }
  }

  lemma {:induction false} RunIsSound(s: Store, h: Hasher, ops: seq<Op>)
    requires HexHasher(h) && Sound(s, h)
    ensures Sound(Run(s, h, ops), h) && Grows(s, Run(s, h, ops))
    decreases |ops|
  {
    hide Sound, HexHasher, Perform, Grows;
    if ops == [] {
      GrowsItself(s);
    } else {
      var t := Perform(s, h, ops[0]);
      PerformIsSound(s, h, ops[0]);
      RunIsSound(t, h, ops[1..]);
      GrowsOn(s, t, Run(t, h, ops[1..]));
    }
  }

  lemma GrowsItself(s: Store)
    ensures Grows(s, s)
  {
  }

  lemma EmptyIsSound(h: Hasher)
    ensures Sound(EMPTY, h)
  {
  }

  // ---------------------------------------------------------------- the theorems

  /** At every moment of every serialized run, with failed and killed calls in it, each record there is
      verifies, now and after any further run, and stays the same record. */
  lemma EverythingVerifiesForever(h: Hasher, ops: seq<Op>, more: seq<Op>, id: string)
    requires HexHasher(h) && id in Run(EMPTY, h, ops).metadata
    ensures var s, t := Run(EMPTY, h, ops), Run(Run(EMPTY, h, ops), h, more);
            VerifyOne(s, h, id) == VerifyOne(t, h, id) == Ok(s.metadata[id]) && Grows(s, t)
  {
    hide Run, Sound, HexHasher, VerifyOne;
    EmptyIsSound(h);
    RunIsSound(EMPTY, h, ops);
    RunIsSound(Run(EMPTY, h, ops), h, more);
    Verifies(Run(EMPTY, h, ops), h, id);
    Verifies(Run(Run(EMPTY, h, ops), h, more), h, id);
  }

  lemma Verifies(s: Store, h: Hasher, id: string)
    requires Sound(s, h) && id in s.metadata
    ensures VerifyOne(s, h, id) == Ok(s.metadata[id])
  {
    assert RecordFits(s, id) && ObjectFits(s, h, s.metadata[id].sha256);
  }

  /** No artifact descends from itself, and every recorded parent digest is the one in the parent's record. */
  lemma LineageIsAcyclic(h: Hasher, ops: seq<Op>, path: seq<string>, id: string)
    requires HexHasher(h)
    ensures var s := Run(EMPTY, h, ops);
            && !Inventory.Cycle(Graph(s.metadata), path)
            && (id in s.metadata ==> ParentsKnown(s.metadata, s.metadata[id].lineage)
                                     && s.metadata[id].derivedFrom == ParentIds(s.metadata[id].lineage))
  {
    EmptyIsSound(h);
    RunIsSound(EMPTY, h, ops);
    hide Run;
    var s := Run(EMPTY, h, ops);
    Inventory.OrderExcludesCycle(Graph(s.metadata), s.written, path);
    assert RecordFits(s, id);
  }

  /** A call that raises changes no record and leaves no lock; the one thing it can leave behind is an
      object, and only if the record it would have written was not valid. */
  lemma FailureLeavesAtMostAnObject(s: Store, h: Hasher, q: Request)
    requires Preserve(s, h, q).1.Err?
    ensures var (t, r) := Preserve(s, h, q);
            && t.metadata == s.metadata && t.locks == s.locks && t.written == s.written
            && (t != s ==> r == Err(InvalidMetadata) && Content(h, q).Ok?
                           && t.objects == s.objects[Lower(h.sha256(Content(h, q).value)) := Content(h, q).value])
  {
    hide Content, ValidRecord, NewRecord, Refusal;
  }

  /** A call that returns stored what it received: the object has the digest of the content, and is the
      content unless an object with that digest was there before. */
  lemma StoredIsReceived(s: Store, h: Hasher, q: Request)
    requires HexHasher(h) && Sound(s, h) && Preserve(s, h, q).1.Ok?
    ensures var (t, r) := Preserve(s, h, q);
            && q.id !in s.metadata && t.metadata == s.metadata[q.id := r.value] && q.id !in s.locks
            && exists content: Bytes ::
                 && Received(q.stream, [], q.maxBytes) == Ok(content) && |content| == r.value.size
                 && r.value.sha256 == h.sha256(content) && r.value.sha1 == h.sha1(content)
                 && r.value.md5 == h.md5(content)
                 && (q.sha256 != "" ==> Lower(q.sha256) == r.value.sha256)
                 && t.objects == (if r.value.sha256 in s.objects then s.objects
                                  else s.objects[r.value.sha256 := content])
  {
    hide Received, ValidRecord;
    var content := Content(h, q).value;
    assert Received(q.stream, [], q.maxBytes) == Ok(content);
  }

  /** What a kill leaves, exactly: the lock always, and the record only if it came after a call that
      would have returned. */
  lemma KilledLeavesLock(s: Store, h: Hasher, q: Request, progress: Progress)
    requires Refusal(s, q).None?
    ensures var t := Killed(s, h, q, progress);
            && q.id in t.locks && (q.id !in t.metadata <==> progress != Recorded || Preserve(s, h, q).1.Err?)
  {
    hide Content, ValidRecord;
  }

  /** Killed calls block their artifact id, exactly: whatever runs afterwards, any well-formed call for the
      id is refused, as being written if no record was reached and as a duplicate if one was. */
  lemma KilledBlocksIff(s: Store, h: Hasher, q: Request, progress: Progress, ops: seq<Op>, later: Request)
    requires Refusal(s, q).None? && later.id == q.id && later.filename.Some?
    ensures Refusal(Run(Killed(s, h, q, progress), h, ops), later)
         == Some(if progress != Recorded || Preserve(s, h, q).1.Err? then BeingWritten else Duplicate)
  {
    hide Run, Killed, Preserve;
    KilledLeavesLock(s, h, q, progress);
    var t := Killed(s, h, q, progress);
    if q.id in t.metadata {
      RecordStays(t, h, ops, q.id);
    } else {
      LeftLockRefuses(t, h, ops, later);
    }
  }

  /** A lock without a record refuses every later call for its artifact id, for good. */
  lemma {:induction false} LeftLockRefuses(s: Store, h: Hasher, ops: seq<Op>, q: Request)
    requires q.id in s.locks && q.id !in s.metadata && ValidId(q.id) && q.filename.Some?
    ensures q.id in Run(s, h, ops).locks && q.id !in Run(s, h, ops).metadata
    ensures Refusal(Run(s, h, ops), q) == Some(BeingWritten)
    decreases |ops|
  {
    hide Perform, ValidId;
    if ops != [] {
      PerformLeaves(s, h, ops[0], q.id);
      LeftLockRefuses(Perform(s, h, ops[0]), h, ops[1..], q);
    }
  }

  lemma {:induction false} RecordStays(s: Store, h: Hasher, ops: seq<Op>, id: string)
    requires id in s.metadata
    ensures id in Run(s, h, ops).metadata
    decreases |ops|
  {
    hide Perform;
    if ops != [] {
      PerformLeaves(s, h, ops[0], id);
      RecordStays(Perform(s, h, ops[0]), h, ops[1..], id);
    }
  }

  /** A record stays, and so does a lock without one. */
  ghost predicate Leaves(s: Store, t: Store, id: string) {
    && (id in s.metadata ==> id in t.metadata)
    && (id in s.locks && id !in s.metadata ==> id in t.locks && id !in t.metadata)
  }

  lemma PreserveLeaves(s: Store, h: Hasher, q: Request, id: string)
    ensures Leaves(s, Preserve(s, h, q).0, id)
  {
    hide Content, ValidRecord;
  }

  lemma KilledLeaves(s: Store, h: Hasher, q: Request, progress: Progress, id: string)
    ensures Leaves(s, Killed(s, h, q, progress), id)
  {
    PreserveLeaves(s, h, q, id);
    PreserveKeepsLocks(s, h, q);
    hide Preserve, Content;
  }

  lemma PerformLeaves(s: Store, h: Hasher, op: Op, id: string)
    ensures Leaves(s, Perform(s, h, op), id)
  {
    hide Preserve, Killed, AsImport, AsDerived, Leaves;
    assert Leaves(s, s, id) by {
      LeavesItself(s, id);
    }
    forall q ensures Leaves(s, Preserve(s, h, q).0, id) {
      PreserveLeaves(s, h, q, id);
    }
    forall q, progress ensures Leaves(s, Killed(s, h, q, progress), id) {
      KilledLeaves(s, h, q, progress, id);
    }
  }

  lemma LeavesItself(s: Store, id: string)
    ensures Leaves(s, s, id)
  {
  }
}
