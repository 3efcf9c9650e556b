/** What the calls of the archive come to, exactly: which are accepted, and what an accepted one records. */
module ArchiveOutcomes {
  import opened Wrappers
  import opened ArchiveModel
  import opened ArchiveIntegrity

  // ---------------------------------------------------------------- verifying

  /** The object of a record is there, with the digest and the size the record gives. */
  predicate Matches(s: Store, h: Hasher, r: Record) {
    var d := Lower(r.sha256);
    d in s.objects && h.sha256(s.objects[d]) == r.sha256 && |s.objects[d]| == r.size
  }

  /** A valid record verifies if and only if its object matches it; and what is wrong otherwise. */
  lemma VerifiesIff(s: Store, h: Hasher, id: string)
    ensures var v := VerifyOne(s, h, id);
            && (id !in s.metadata <==> v == Err(UnknownArtifact))
            && (id in s.metadata ==>
                  var r := s.metadata[id];
                  && (v == Ok(r) <==> ValidRecord(r) && Matches(s, h, r)) && (v.Ok? ==> v.value == r)
                  && (v == Err(InvalidMetadata) <==> !ValidRecord(r))
                  && (v == Err(ObjectMissing) <==> ValidRecord(r) && Lower(r.sha256) !in s.objects)
                  && (v == Err(Mismatch) <==> ValidRecord(r) && Lower(r.sha256) in s.objects && !Matches(s, h, r)))
  {
    hide ValidRecord, Lower;
  }

  // ---------------------------------------------------------------- receiving

  /** The stream holds this content before its end or its first empty chunk, within the limit. */
  ghost predicate Holds(stream: seq<Chunk>, maxBytes: int, content: Bytes) {
    exists n: nat :: EndsAt(stream, n) && content == Joined(stream[..n]) && (n == 0 || |content| <= maxBytes)
  }

  /** An expectation that is not set, or is a digest that agrees but for the case of its letters. */
  predicate Meets(actual: string, wanted: string, digits: nat) {
    wanted == "" || (HexDigest(wanted, digits) && Lower(wanted) == Lower(actual))
  }

  /** The content is what was asked for. */
  predicate AsExpected(h: Hasher, q: Request, content: Bytes) {
    && (q.expectedSize.Some? ==> q.expectedSize.value == |content|)
    && Meets(h.sha256(content), q.sha256, 64) && Meets(h.sha1(content), q.sha1, 40) && Meets(h.md5(content), q.md5, 32)
  }

  lemma ContentIff(h: Hasher, q: Request, content: Bytes)
    requires HexHasher(h)
    ensures Content(h, q) == Ok(content) <==> Holds(q.stream, q.maxBytes, content) && AsExpected(h, q, content)
  {
    ReceivedIsContent(q.stream, q.maxBytes, content);
    ExpectedIff(h, q, content);
    hide Received, CheckExpected, AsExpected, Lower, Holds;
    assert Holds(q.stream, q.maxBytes, content) <==> Received(q.stream, [], q.maxBytes) == Ok(content) by {
      HoldsIs(q.stream, q.maxBytes, content);
    }
    ExpectedSize(h, q, content);
  }

  lemma HoldsIs(stream: seq<Chunk>, maxBytes: int, content: Bytes)
    ensures Holds(stream, maxBytes, content) <==> Received(stream, [], maxBytes) == Ok(content)
  {
    ReceivedIsContent(stream, maxBytes, content);
    hide Received, Joined, EndsAt;
  }

  lemma ExpectedIff(h: Hasher, q: Request, content: Bytes)
    ensures CheckExpected(h, content, q) == None <==>
              && Meets(h.sha256(content), q.sha256, 64) && Meets(h.sha1(content), q.sha1, 40)
              && Meets(h.md5(content), q.md5, 32)
  {
    hide HexDigest, Lower;
  }

  lemma ExpectedSize(h: Hasher, q: Request, content: Bytes)
    ensures AsExpected(h, q, content) <==>
              (q.expectedSize.Some? ==> q.expectedSize.value == |content|) && CheckExpected(h, content, q) == None
  {
    ExpectedIff(h, q, content);
    hide CheckExpected, Meets;
  }

  // ---------------------------------------------------------------- preserving

  /** The request is for an artifact that is neither there nor being written, under a name that can be used. */
  predicate Free(s: Store, q: Request) {
    ValidId(q.id) && q.filename.Some? && q.id !in s.metadata && q.id !in s.locks
  }

  /** What a record needs besides digests: known words, and a time and source that are not empty. */
  predicate Describes(q: Request) {
    && q.role in {"preservation_original", "source_code", "documentation", "install_source", "derived_install_media",
                  "bbs_distribution", "reconstructed", "derived"}
    && q.rights in {"unknown", "public_domain", "open_source", "freeware", "shareware", "freeware_redistributable",
                    "shareware_redistributable", "commercial", "licensed", "licensed_private", "preservation_only",
                    "restricted"}
    && q.kind in {"original", "reconstructed", "derived", "private_preservation"}
    && q.acquired != "" && q.source != ""
    && (q.lineage.Some? ==>
          var l := q.lineage.value;
          && l.parents != [] && l.action != "" && l.derivedAt != ""
          && forall i | 0 <= i < |l.parents| :: ValidId(l.parents[i].id) && HexDigest(l.parents[i].sha256, 64))
  }

  /** Every digest is hexadecimal, of its length. */
  ghost predicate FullHasher(h: Hasher) {
    HexHasher(h) && forall b: Bytes :: HexDigest(h.sha1(b), 40) && HexDigest(h.md5(b), 32)
  }

  /** The record of this content: its digests and size, what the request says of it, the artifacts that came from
      the same address with other content, and its parents. */
  ghost predicate RecordOf(s: Store, h: Hasher, q: Request, content: Bytes, r: Record) {
    && r.id == q.id && r.sha256 == h.sha256(content) && r.sha1 == h.sha1(content) && r.md5 == h.md5(content)
    && r.size == |content| && q.filename == Some(r.filename) && r.role == q.role && r.kind == q.kind
    && r.acquired == q.acquired && r.source == q.source && r.url == q.url && r.rights == q.rights
    && r.lineage == q.lineage
    && (forall p :: p in r.previous <==> q.url != "" && p in s.metadata && s.metadata[p].url == q.url
                                         && s.metadata[p].sha256 != r.sha256)
    && |r.derivedFrom| == (if q.lineage.Some? then |q.lineage.value.parents| else 0)
    && forall i | 0 <= i < |r.derivedFrom| :: r.derivedFrom[i] == q.lineage.value.parents[i].id
  }

  /** There is such content, and nothing else of another size has its digest. */
  ghost predicate Storable(s: Store, h: Hasher, q: Request, content: Bytes) {
    && Holds(q.stream, q.maxBytes, content) && AsExpected(h, q, content)
    && (h.sha256(content) in s.objects ==> |s.objects[h.sha256(content)]| == |content|)
  }

  ghost predicate NamesAreIds(s: Store) { forall id | id in s.metadata :: s.metadata[id].id == id }

  /** `preserve_stream`, exactly: it returns if and only if the artifact is free, what arrives can be stored, and the
      record is described; it then records just that, under the artifact's id and the content's digest. */
  lemma PreserveIff(s: Store, h: Hasher, q: Request)
    requires FullHasher(h) && NamesAreIds(s)
    ensures var (t, r) := Preserve(s, h, q);
            && (r.Ok? <==> Free(s, q) && Describes(q) && exists content: Bytes :: Storable(s, h, q, content))
            && (r.Ok? ==> exists content: Bytes ::
                  && Storable(s, h, q, content) && RecordOf(s, h, q, content, r.value)
                  && t.metadata == s.metadata[q.id := r.value] && t.locks == s.locks
                  && t.objects == (if r.value.sha256 in s.objects then s.objects
                                   else s.objects[r.value.sha256 := content]))
  {
    hide *;
    FullIsHex(h);
    PreserveUnfolds(s, h, q);
    FreeIff(s, q);
    forall content: Bytes
      ensures Content(h, q) == Ok(content) <==> Holds(q.stream, q.maxBytes, content) && AsExpected(h, q, content)
    {
      ContentIff(h, q, content);
    }
    forall content: Bytes
      ensures Storable(s, h, q, content) <==> Content(h, q) == Ok(content) && Shelved(s, h, content).Ok?
    {
      StorableIff(s, h, q, content);
    }
    FreeIs(s, q);
    if Free(s, q) && Content(h, q).Ok? && Shelved(s, h, Content(h, q).value).Ok? {
      var content := Content(h, q).value;
      var s1 := Shelved(s, h, content).value;
      ShelvedIs(s, h, content);
      NamesStay(s, s1);
      RecordIs(s1, h, q, content);
      RecordElsewhere(s, s1, h, q, content, NewRecord(s1, h, q, content));
      DescribedIsValid(s1, h, q, content);
    }
  }

  lemma FullIsHex(h: Hasher)
    requires FullHasher(h)
    ensures HexHasher(h)
  {
    hide HexHasher;
  }

  lemma PreserveUnfolds(s: Store, h: Hasher, q: Request)
    ensures var (t, r) := Preserve(s, h, q); var content := Content(h, q);
            if Refusal(s, q).Some? || content.Err? || Shelved(s, h, content.value).Err? then r.Err?
            else
              var s1 := Shelved(s, h, content.value).value; var rec := NewRecord(s1, h, q, content.value);
              && (r.Ok? <==> ValidRecord(rec))
              && (r.Ok? ==> r == Ok(rec) && t.metadata == s1.metadata[rec.id := rec] && t.objects == s1.objects
                            && t.locks == s1.locks)
  {
    hide Refusal, Content, Shelved, NewRecord, ValidRecord;
  }

  lemma FreeIff(s: Store, q: Request)
    ensures Refusal(s, q) == None <==> Free(s, q)
  {
    hide ValidId;
  }

  lemma FreeIs(s: Store, q: Request)
    ensures Free(s, q) ==> ValidId(q.id) && q.filename.Some?
  {
    hide ValidId;
  }

  lemma StorableIff(s: Store, h: Hasher, q: Request, content: Bytes)
    requires HexHasher(h)
    ensures Storable(s, h, q, content) <==> Content(h, q) == Ok(content) && Shelved(s, h, content).Ok?
  {
    ContentIff(h, q, content);
    hide Content, Holds, AsExpected, HexDigest, Lower;
    assert Lower(h.sha256(content)) == h.sha256(content);
  }

  lemma ShelvedIs(s: Store, h: Hasher, content: Bytes)
    requires HexHasher(h) && Shelved(s, h, content).Ok?
    ensures var t := Shelved(s, h, content).value; var d := h.sha256(content);
            && t == s.(objects := t.objects)
            && t.objects == (if d in s.objects then s.objects else s.objects[d := content])
  {
    hide HexDigest, Lower;
    assert Lower(h.sha256(content)) == h.sha256(content);
  }

  lemma NamesStay(s: Store, t: Store)
    requires NamesAreIds(s) && t.metadata == s.metadata
    ensures NamesAreIds(t)
  {
  }

  lemma RecordIs(s: Store, h: Hasher, q: Request, content: Bytes)
    requires NamesAreIds(s) && q.filename.Some?
    ensures RecordOf(s, h, q, content, NewRecord(s, h, q, content))
  {
    var r := NewRecord(s, h, q, content);
    forall p ensures p in r.previous <==> q.url != "" && p in s.metadata && s.metadata[p].url == q.url
                                          && s.metadata[p].sha256 != r.sha256
    {
      if q.url != "" && p in s.metadata && s.metadata[p].url == q.url && s.metadata[p].sha256 != r.sha256 {
        assert s.metadata[p].id == p;
      }
    }
  }

  lemma RecordElsewhere(s: Store, s1: Store, h: Hasher, q: Request, content: Bytes, r: Record)
    requires s1.metadata == s.metadata && RecordOf(s1, h, q, content, r)
    ensures RecordOf(s, h, q, content, r) && r.id == q.id && r.sha256 == h.sha256(content)
  {
  }

  lemma DescribedIsValid(s: Store, h: Hasher, q: Request, content: Bytes)
    requires FullHasher(h) && ValidId(q.id)
    ensures ValidRecord(NewRecord(s, h, q, content)) <==> Describes(q)
  {
    hide ValidId, HexDigest;
  }

  /** Which refusals come before anything is read, and in which order. */
  lemma RefusedWith(s: Store, h: Hasher, q: Request)
    ensures var r := Preserve(s, h, q).1;
            && (r == Err(InvalidId) <==> !ValidId(q.id))
            && (r == Err(UnsafeFilename) <==> ValidId(q.id) && q.filename == None)
            && (r == Err(Duplicate) <==> ValidId(q.id) && q.filename.Some? && q.id in s.metadata)
            && (r == Err(BeingWritten) <==>
                  ValidId(q.id) && q.filename.Some? && q.id !in s.metadata && q.id in s.locks)
  {
    ReceivedErrors(q.stream, [], q.maxBytes);
    hide ValidId, Received, NewRecord, ValidRecord, Lower, HexDigest;
  }

  lemma {:induction false} ReceivedErrors(stream: seq<Chunk>, soFar: Bytes, maxBytes: int)
    ensures var r := Received(stream, soFar, maxBytes); r.Err? ==> r.error == ReadFailed || r.error == TooLarge
  {
    if stream != [] && stream[0].Data? {
      ReceivedErrors(stream[1..], soFar + stream[0].bytes, maxBytes);
    }
  }

  // ---------------------------------------------------------------- imports and derivations

  /** What an import records of itself: an original without parents. */
  lemma ImportRecords(s: Store, h: Hasher, q: Request)
    requires FullHasher(h) && NamesAreIds(s)
    ensures var r := Preserve(s, h, AsImport(q)).1;
            r.Ok? ==> && r.value.role == "preservation_original" && r.value.kind == "original"
                      && r.value.lineage == None && r.value.derivedFrom == []
                      && r.value.source == q.source && r.value.url == q.url
  {
    PreserveIff(s, h, AsImport(q));
    hide Preserve, Storable, FullHasher, NamesAreIds;
  }

  /** `derive`, exactly: an unknown parent raises and changes nothing; with known ones the result is that of
      preserving an artifact made in the archive, whose lineage names each parent with the digest of its record. */
  lemma DeriveOutcome(s: Store, h: Hasher, q: Request, d: Derivation)
    requires FullHasher(h) && NamesAreIds(s)
    ensures var (t, r) := Derive(s, h, q, d);
            var known := forall i | 0 <= i < |d.parents| :: d.parents[i] in s.metadata;
            && (!known ==> r == Err(UnknownArtifact) && t == s)
            && (known && r.Ok? ==>
                  && r.value.role == q.role && r.value.source == "derived in archive" && r.value.url == ""
                  && r.value.kind == (if q.role == "reconstructed" then "reconstructed" else "derived")
                  && r.value.previous == {} && r.value.derivedFrom == d.parents
                  && r.value.lineage.Some? && r.value.lineage.value.action == d.action
                  && r.value.lineage.value.derivedAt == d.at && |r.value.lineage.value.parents| == |d.parents|
                  && forall i | 0 <= i < |d.parents| ::
                       r.value.lineage.value.parents[i] == Parent(d.parents[i], s.metadata[d.parents[i]].sha256))
  {
    if forall i | 0 <= i < |d.parents| :: d.parents[i] in s.metadata {
      PreserveIff(s, h, AsDerived(s.metadata, q, d));
    }
    hide Preserve, Storable, FullHasher;
  }

  // ---------------------------------------------------------------- the alphabets

  predicate Letter(c: char) {
    c in {'a', 'b', 'c', 'd', 'e', 'f', 'g', 'h', 'i', 'j', 'k', 'l', 'm', 'n', 'o', 'p', 'q', 'r', 's', 't', 'u', 'v',
          'w', 'x', 'y', 'z'}
  }

  predicate DecimalDigit(c: char) { c in {'0', '1', '2', '3', '4', '5', '6', '7', '8', '9'} }

  predicate HexLetter(c: char) { c in {'a', 'b', 'c', 'd', 'e', 'f', 'A', 'B', 'C', 'D', 'E', 'F'} }

  predicate Mark(c: char) { c in {'.', '_', '-'} }

  /** An artifact id is a letter or digit, followed by letters, digits, dots, underscores and dashes; a digest has
      hexadecimal digits only. */
  lemma Alphabets(s: string, digits: nat)
    ensures ValidId(s) <==>
              && s != "" && (Letter(s[0]) || DecimalDigit(s[0]))
              && forall i | 0 <= i < |s| :: Letter(s[i]) || DecimalDigit(s[i]) || Mark(s[i])
    ensures HexDigest(s, digits) <==>
              |s| == digits && forall i | 0 <= i < |s| :: DecimalDigit(s[i]) || HexLetter(s[i])
  {
    hide IdChar, HexChar, Letter, DecimalDigit, HexLetter, Mark;
    forall c: char
      ensures IdChar(c) <==> Letter(c) || DecimalDigit(c) || Mark(c)
      ensures c in "._-" <==> Mark(c)
      ensures Mark(c) ==> !Letter(c) && !DecimalDigit(c)
      ensures HexChar(c) <==> DecimalDigit(c) || HexLetter(c)
    {
      Characters(c);
    }
  }

  lemma Characters(c: char)
    ensures IdChar(c) <==> Letter(c) || DecimalDigit(c) || Mark(c)
    ensures c in "._-" <==> Mark(c)
    ensures Mark(c) ==> !Letter(c) && !DecimalDigit(c)
    ensures HexChar(c) <==> DecimalDigit(c) || HexLetter(c)
  {
    hide Letter, DecimalDigit, HexLetter;
    LetterIs(c);
    DigitIs(c);
    HexLetterIs(c);
    assert c in "._-" <==> c == '.' || c == '_' || c == '-';
  }

  lemma LetterIs(c: char)
    ensures Letter(c) <==> 'a' <= c <= 'z'
  {
  }

  lemma DigitIs(c: char)
    ensures DecimalDigit(c) <==> '0' <= c <= '9'
  {
  }

  lemma HexLetterIs(c: char)
    ensures HexLetter(c) <==> 'a' <= c <= 'f' || 'A' <= c <= 'F'
  {
  }
}
