/** The preservation archive (scripts/ubb_archive.py): a store of objects named by their hash, and of
    records that name objects and their parents. Hashing is any function from bytes to digests. */
module ArchiveModel {
  import opened Wrappers
  import opened Text

  type Byte = b: nat | b < 256
  type Bytes = seq<Byte>

  datatype Hasher = Hasher(sha256: Bytes -> string, sha1: Bytes -> string, md5: Bytes -> string)

  datatype Error =
    | InvalidId | UnsafeFilename | Duplicate | BeingWritten | ReadFailed | TooLarge | Incomplete
    | InvalidExpected | UnexpectedHash | InvalidDigest | ImpossibleSize | InvalidMetadata
    | UnknownArtifact | ObjectMissing | Mismatch

  datatype Result<T> = Ok(value: T) | Err(error: Error)

  // ---------------------------------------------------------------- texts

  predicate IdChar(c: char) { 'a' <= c <= 'z' || '0' <= c <= '9' || c == '.' || c == '_' || c == '-' }

  /** `ID_RE` */
  predicate ValidId(id: string) {
    id != [] && IdChar(id[0]) && id[0] !in "._-" && forall i | 0 <= i < |id| :: IdChar(id[i])
  }

  predicate HexChar(c: char) { '0' <= c <= '9' || 'a' <= c <= 'f' || 'A' <= c <= 'F' }

  /** `HASH_RE` */
  predicate HexDigest(s: string, digits: nat) { |s| == digits && forall i | 0 <= i < |s| :: HexChar(s[i]) }

  function Lower(s: string): string { seq(|s|, i requires 0 <= i < |s| => LowerChar(s[i])) }

  /** What is known of the hashes: hexadecimal digits in lower case. */
  ghost predicate HexHasher(h: Hasher) {
    forall b: Bytes :: HexDigest(h.sha256(b), 64) && Lower(h.sha256(b)) == h.sha256(b)
  }

  // ---------------------------------------------------------------- streams

  datatype Chunk = Data(bytes: Bytes) | Broken

  /** `hashes_for`: chunks up to the first empty one, as long as they fit. */
  function Received(stream: seq<Chunk>, soFar: Bytes, maxBytes: int): Result<Bytes> {
    if stream == [] then Ok(soFar)
    else match stream[0]
      case Broken => Err(ReadFailed)
      case Data(b) =>
        if b == [] then Ok(soFar)
        else if |soFar| + |b| > maxBytes then Err(TooLarge)
        else Received(stream[1..], soFar + b, maxBytes)
  }

  function Joined(stream: seq<Chunk>): Bytes {
    if stream == [] then []
    else (match stream[0] case Data(b) => b case Broken => []) + Joined(stream[1..])
  }

  /** The first `n` chunks are all there is. */
  predicate EndsAt(stream: seq<Chunk>, n: nat) {
    && n <= |stream| && (n < |stream| ==> stream[n] == Data([]))
    && forall i | 0 <= i < n :: stream[i].Data? && stream[i].bytes != []
  }

  // ---------------------------------------------------------------- records

  datatype Parent = Parent(id: string, sha256: string)
  datatype Lineage = Lineage(parents: seq<Parent>, action: string, derivedAt: string)

  datatype Record = Record(
    id: string, sha256: string, sha1: string, md5: string, size: nat, filename: string, role: string, kind: string,
    acquired: string, source: string, url: string, previous: set<string>, rights: string,
    lineage: Option<Lineage>, derivedFrom: seq<string>)

  const ROLES := {"preservation_original", "source_code", "documentation", "install_source", "derived_install_media",
                  "bbs_distribution", "reconstructed", "derived"}
  const RIGHTS := {"unknown", "public_domain", "open_source", "freeware", "shareware", "freeware_redistributable",
                   "shareware_redistributable", "commercial", "licensed", "licensed_private", "preservation_only",
                   "restricted"}
  const KINDS := {"original", "reconstructed", "derived", "private_preservation"}

  /** `validate_metadata` */
  predicate ValidRecord(r: Record) {
    && ValidId(r.id) && HexDigest(r.sha256, 64) && HexDigest(r.sha1, 40) && HexDigest(r.md5, 32)
    && r.role in ROLES && r.acquired != "" && r.source != "" && r.rights in RIGHTS && r.kind in KINDS
    && (r.lineage.Some? ==>
          var l := r.lineage.value;
          && l.parents != [] && l.action != "" && l.derivedAt != ""
          && forall i | 0 <= i < |l.parents| :: ValidId(l.parents[i].id) && HexDigest(l.parents[i].sha256, 64))
  }

  /** What `preserve_stream` is called with; an unset expectation is the empty text. */
  datatype Request = Request(
    id: string, filename: Option<string>, stream: seq<Chunk>, maxBytes: int, expectedSize: Option<nat>,
    sha256: string, sha1: string, md5: string, acquired: string, source: string, url: string, rights: string,
    role: string, kind: string, lineage: Option<Lineage>)

  /** `written` is a history: the artifacts in the order their records were written. */
  datatype Store = Store(objects: map<string, Bytes>, metadata: map<string, Record>, locks: set<string>,
                         written: seq<string>)

  // ---------------------------------------------------------------- preserving

  /** The checks made before the lock is taken, and the lock. */
  function Refusal(s: Store, q: Request): Option<Error> {
    if !ValidId(q.id) then Some(InvalidId)
    else if q.filename.None? then Some(UnsafeFilename)
    else if q.id in s.metadata then Some(Duplicate)
    else if q.id in s.locks then Some(BeingWritten)
    else None
  }

  function CheckOne(actual: string, wanted: string, digits: nat): Option<Error> {
    if wanted == "" then None
    else if !HexDigest(wanted, digits) then Some(InvalidExpected)
    else if Lower(actual) != Lower(wanted) then Some(UnexpectedHash)
    else None
  }

  /** `check_expected`, in the order in which the expectations are listed. */
  function CheckExpected(h: Hasher, content: Bytes, q: Request): Option<Error> {
    var first := CheckOne(h.sha256(content), q.sha256, 64);
    var second := CheckOne(h.sha1(content), q.sha1, 40);
    if first.Some? then first
    else if second.Some? then second
    else CheckOne(h.md5(content), q.md5, 32)
  }

  /** The content that reached the quarantine, if it is complete and as expected. */
  function Content(h: Hasher, q: Request): Result<Bytes> {
    match Received(q.stream, [], q.maxBytes)
    case Err(e) => Err(e)
    case Ok(content) =>
      if q.expectedSize.Some? && q.expectedSize.value != |content| then Err(Incomplete)
      else match CheckExpected(h, content, q)
        case Some(e) => Err(e)
        case None => if HexDigest(h.sha256(content), 64) then Ok(content) else Err(InvalidDigest)
  }

  /** The object under its digest. One that is there already is kept, if the size agrees. */
  function Shelved(s: Store, h: Hasher, content: Bytes): Result<Store> {
    var d := Lower(h.sha256(content));
    if d !in s.objects then Ok(s.(objects := s.objects[d := content]))
    else if |s.objects[d]| != |content| then Err(ImpossibleSize)
    else Ok(s)
  }

  /** `source_predecessors` */
  function Predecessors(m: map<string, Record>, url: string, digest: string): set<string> {
    set id | id in m && m[id].url == url && m[id].sha256 != digest :: m[id].id
  }

  function ParentIds(l: Option<Lineage>): seq<string> {
    if l.None? then [] else seq(|l.value.parents|, i requires 0 <= i < |l.value.parents| => l.value.parents[i].id)
  }

  function NewRecord(s: Store, h: Hasher, q: Request, content: Bytes): Record {
    var digest := h.sha256(content);
    Record(q.id, digest, h.sha1(content), h.md5(content), |content|, q.filename.GetOr(""), q.role, q.kind,
           q.acquired, q.source, q.url, if q.url == "" then {} else Predecessors(s.metadata, q.url, digest),
           q.rights, q.lineage, ParentIds(q.lineage))
  }

  function Registered(s: Store, r: Record): Store {
    s.(metadata := s.metadata[r.id := r], written := s.written + [r.id])
  }

  /** `preserve_stream`. Whatever happens, its lock and its quarantined file are gone afterwards. */
  function Preserve(s: Store, h: Hasher, q: Request): (Store, Result<Record>) {
    if Refusal(s, q).Some? then (s, Err(Refusal(s, q).value)) else Admitted(s, h, q)
  }

  /** What `preserve_stream` does once it holds the lock. */
  function Admitted(s: Store, h: Hasher, q: Request): (Store, Result<Record>) {
    match Content(h, q)
    case Err(e) => (s, Err(e))
    case Ok(content) =>
      match Shelved(s, h, content)
      case Err(e) => (s, Err(e))
      case Ok(s1) =>
        var r := NewRecord(s1, h, q, content);
        if ValidRecord(r) then (Registered(s1, r), Ok(r)) else (s1, Err(InvalidMetadata))
  }

  /** `import_artifact` and `acquire_http`. */
  function AsImport(q: Request): Request { q.(role := "preservation_original", kind := "original", lineage := None) }

  datatype Derivation = Derivation(parents: seq<string>, action: string, at: string)

  function ParentOf(r: Record): Parent { Parent(r.id, r.sha256) }

  function AsDerived(m: map<string, Record>, q: Request, d: Derivation): Request
    requires forall i | 0 <= i < |d.parents| :: d.parents[i] in m
  {
    var parents := seq(|d.parents|, i requires 0 <= i < |d.parents| => ParentOf(m[d.parents[i]]));
    q.(source := "derived in archive", url := "",
       kind := if q.role == "reconstructed" then "reconstructed" else "derived",
       lineage := Some(Lineage(parents, d.action, d.at)))
  }

  /** `derive` */
  function Derive(s: Store, h: Hasher, q: Request, d: Derivation): (Store, Result<Record>) {
    if forall i | 0 <= i < |d.parents| :: d.parents[i] in s.metadata
    then Preserve(s, h, AsDerived(s.metadata, q, d))
    else (s, Err(UnknownArtifact))
  }

  /** `verify_one` */
  function VerifyOne(s: Store, h: Hasher, id: string): Result<Record> {
    if id !in s.metadata then Err(UnknownArtifact)
    else if !ValidRecord(s.metadata[id]) then Err(InvalidMetadata)
    else
      var r := s.metadata[id];
      if Lower(r.sha256) !in s.objects then Err(ObjectMissing)
      else
        var content := s.objects[Lower(r.sha256)];
        if h.sha256(content) == r.sha256 && |content| == r.size then Ok(r) else Err(Mismatch)
  }

  // ---------------------------------------------------------------- runs

  /** How far an interrupted call got; its lock stays. */
  datatype Progress = Locked | Linked | Recorded

  datatype Op =
    | Import(q: Request)
    | Deriving(q: Request, d: Derivation)
    | Interrupted(call: Op, progress: Progress)

  function Perform(s: Store, h: Hasher, op: Op): Store {
    match op
    case Import(q) => Preserve(s, h, AsImport(q)).0
    case Deriving(q, d) => Derive(s, h, q, d).0
    case Interrupted(call, progress) =>
      match call
      case Import(q) => Killed(s, h, AsImport(q), progress)
      case Deriving(q, d) =>
        if forall i | 0 <= i < |d.parents| :: d.parents[i] in s.metadata
        then Killed(s, h, AsDerived(s.metadata, q, d), progress) else s
      case Interrupted(_, _) => s
  }

  /** The process dies inside `preserve_stream`. */
  function Killed(s: Store, h: Hasher, q: Request, progress: Progress): Store {
    if Refusal(s, q).Some? then s
    else
      var s1 := s.(locks := s.locks + {q.id});
      match progress
      case Locked => s1
      case Recorded => Preserve(s, h, q).0.(locks := s.locks + {q.id})
      case Linked =>
        match Content(h, q)
        case Err(_) => s1
        case Ok(content) =>
          match Shelved(s1, h, content)
          case Err(_) => s1
          case Ok(s2) => s2
  }

  function Run(s: Store, h: Hasher, ops: seq<Op>): Store
    decreases |ops|
  {
    if ops == [] then s else Run(Perform(s, h, ops[0]), h, ops[1..])
  }

  const EMPTY := Store(map[], map[], {}, [])
}
