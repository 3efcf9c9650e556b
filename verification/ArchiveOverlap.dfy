/** Calls of the archive that overlap in any way: what they cannot break, and exactly when they replace a record. */
module ArchiveOverlap {
  import opened Wrappers
  import opened ArchiveModel
  import opened ArchiveCalls
  import opened ArchiveIntegrity
  import Inventory

  // ---------------------------------------------------------------- what no overlap breaks

  /** Each of `ids` came before `id`, or `id` has not come yet. */
  ghost predicate Precede(written: seq<string>, ids: seq<string>, id: string) {
    forall p | p in ids :: p in written && forall i | 0 <= i < |written| && written[i] == id :: p in written[..i]
  }

  ghost predicate Ordered(s: Store) {
    && (forall i, j | 0 <= i < j < |s.written| :: s.written[i] != s.written[j])
    && (forall id :: id in s.metadata <==> id in s.written)
    && (forall id | id in s.metadata :: Precede(s.written, ParentIds(s.metadata[id].lineage), id))
  }

  ghost predicate StoreFits(s: Store, h: Hasher) {
    && (forall d :: ObjectFits(s, h, d))
    && (forall id | id in s.metadata :: s.metadata[id].id == id && Named(s, s.metadata[id]))
    && Ordered(s)
  }

  /** The parents of a derived artifact were there when it was asked for, and so before its own first record. */
  ghost predicate CallFits(s: Store, h: Hasher, c: Call) {
    && (forall p | p in ParentIds(c.q.lineage) :: p in s.written)
    && (c.stage.Asked? || c.stage.Over? || Precede(s.written, ParentIds(c.q.lineage), c.q.id))
    && (c.stage.Filled? ==>
          var d := h.sha256(c.stage.content); d in s.objects && |s.objects[d]| == |c.stage.content|)
    && (c.stage.Composed? ==>
          var r := c.stage.record; r.id == c.q.id && r.lineage == c.q.lineage && Named(s, r))
  }

  /** Objects stay, and at most one artifact is new. */
  ghost predicate Advances(s: Store, t: Store) {
    && (forall d | d in s.objects :: d in t.objects && t.objects[d] == s.objects[d])
    && (t.written == s.written || exists last :: last !in s.written && t.written == s.written + [last])
  }

  lemma PrecedeStays(s: Store, t: Store, ids: seq<string>, id: string)
    requires Advances(s, t) && Precede(s.written, ids, id)
    ensures Precede(t.written, ids, id)
  {
    if t.written != s.written {
      forall p, i | p in ids && 0 <= i < |t.written| && t.written[i] == id ensures p in t.written[..i] {
        assert t.written[..i] == s.written[..i];
      }
    }
  }

  lemma CallStays(s: Store, t: Store, h: Hasher, c: Call)
    requires Advances(s, t) && CallFits(s, h, c)
    ensures CallFits(t, h, c)
  {
    if !c.stage.Asked? && !c.stage.Over? {
      PrecedeStays(s, t, ParentIds(c.q.lineage), c.q.id);
    }
    hide Precede, ParentIds, ValidRecord;
  }

  lemma ProceedFits(s: Store, h: Hasher, c: Call)
    requires HexHasher(h) && StoreFits(s, h) && CallFits(s, h, c)
    ensures var (t, stage) := Proceed(s, h, c);
            StoreFits(t, h) && CallFits(t, h, Call(c.q, stage)) && Advances(s, t)
  {
    hide StoreFits, HexHasher, Content, NewRecord, Written, Fill, CallFits;
    match c.stage
    case Asked => CheckedFits(s, h, c);
    case Checked => LockingFits(s, h, c, s.locks + {c.q.id}, Entered);
    case Entered => FillFits(s, h, c);
    case Filled(content) => ComposeFits(s, h, c, content);
    case Composed(r) => WriteFits(s, h, c, r);
    case Leaving => LockingFits(s, h, c, s.locks - {c.q.id}, Over);
    case Over =>
  }

  lemma CheckedFits(s: Store, h: Hasher, c: Call)
    requires StoreFits(s, h) && CallFits(s, h, c)
    ensures CallFits(s, h, Call(c.q, Over)) && (c.q.id !in s.metadata ==> CallFits(s, h, Call(c.q, Checked)))
  {
  }

  lemma LockingFits(s: Store, h: Hasher, c: Call, locks: set<string>, stage: Stage)
    requires StoreFits(s, h) && CallFits(s, h, c) && !c.stage.Asked? && !c.stage.Over?
    requires stage == Entered || stage == Over
    ensures StoreFits(s.(locks := locks), h) && CallFits(s.(locks := locks), h, Call(c.q, stage))
    ensures Advances(s, s.(locks := locks)) && CallFits(s, h, Call(c.q, Over))
  {
    hide Precede, ParentIds, ValidRecord;
    forall d ensures ObjectFits(s.(locks := locks), h, d) {
      assert ObjectFits(s, h, d);
    }
  }

  lemma FillFits(s: Store, h: Hasher, c: Call)
    requires HexHasher(h) && StoreFits(s, h) && CallFits(s, h, c) && c.stage == Entered
    ensures var (t, stage) := Fill(s, h, c.q);
            StoreFits(t, h) && CallFits(t, h, Call(c.q, stage)) && Advances(s, t)
  {
    hide Content, Precede, ParentIds, ValidRecord, HexHasher;
    if Content(h, c.q).Ok? {
      var content := Content(h, c.q).value;
      ShelvedKeepsObjects(s, h, content);
      hide Shelved;
    }
  }

  lemma ComposeFits(s: Store, h: Hasher, c: Call, content: Bytes)
    requires HexHasher(h) && StoreFits(s, h) && CallFits(s, h, c) && c.stage == Filled(content)
    ensures var r := NewRecord(s, h, c.q, content);
            CallFits(s, h, Call(c.q, if ValidRecord(r) then Composed(r) else Leaving))
  {
    hide Precede, ParentIds, ValidRecord, StoreFits;
  }

  lemma WriteFits(s: Store, h: Hasher, c: Call, r: Record)
    requires StoreFits(s, h) && CallFits(s, h, c) && c.stage == Composed(r)
    ensures StoreFits(Written(s, r), h) && CallFits(Written(s, r), h, Call(c.q, Leaving)) && Advances(s, Written(s, r))
  {
    var t := Written(s, r);
    CallLeaves(s, h, c);
    assert Ordered(s);
    WrittenIsOrdered(s, r);
    CallStays(s, t, h, c);
    CallLeaves(t, h, c);
    WrittenIsNamed(s, h, r);
    hide *;
  }

  lemma WrittenIsNamed(s: Store, h: Hasher, r: Record)
    requires StoreFits(s, h) && Named(s, r) && Ordered(Written(s, r))
    ensures StoreFits(Written(s, r), h)
  {
    var t := Written(s, r);
    hide Precede, ParentIds, ValidRecord, Ordered;
    assert t.objects == s.objects && t.metadata == s.metadata[r.id := r];
    hide Written;
    forall id | id in t.metadata ensures t.metadata[id].id == id && Named(t, t.metadata[id]) {
      assert t.metadata[id] == r || t.metadata[id] == s.metadata[id];
    }
    forall d ensures ObjectFits(t, h, d) {
      assert ObjectFits(s, h, d);
    }
  }

  lemma CallLeaves(s: Store, h: Hasher, c: Call)
    requires CallFits(s, h, c) && c.stage.Composed?
    ensures var r := c.stage.record;
            && CallFits(s, h, Call(c.q, Leaving)) && Precede(s.written, ParentIds(r.lineage), r.id) && Named(s, r)
  {
  }

  lemma WrittenIsOrdered(s: Store, r: Record)
    requires Ordered(s) && Precede(s.written, ParentIds(r.lineage), r.id)
    ensures Ordered(Written(s, r)) && Advances(s, Written(s, r))
  {
    hide ParentIds, Precede;
    var t := Written(s, r);
    forall id | id in t.metadata ensures Precede(t.written, ParentIds(t.metadata[id].lineage), id) {
      if id == r.id {
        PrecedeStays(s, t, ParentIds(r.lineage), id);
      } else {
        PrecedeStays(s, t, ParentIds(s.metadata[id].lineage), id);
      }
    }
  }

  /** The store is sound but for what records say of each other, and every call can go on. */
  ghost predicate Fits(t: State, h: Hasher) {
    StoreFits(t.store, h) && forall c | c in t.calls :: CallFits(t.store, h, t.calls[c])
  }

  lemma DoFits(t: State, h: Hasher, x: Region)
    requires HexHasher(h) && Fits(t, h)
    ensures Fits(Do(t, h, x), h)
  {
    hide StoreFits, CallFits, HexHasher, Proceed, AsImport, AsDerived;
    match x
    case Ask(call, q) => NewCallFits(t.store, h, AsImport(q));
      ImportHasNoParents(q);
    case AskDerived(call, q, d) =>
      if forall i | 0 <= i < |d.parents| :: d.parents[i] in t.store.metadata {
        DerivedFromThere(t.store, h, q, d);
        NewCallFits(t.store, h, AsDerived(t.store.metadata, q, d));
      }
    case Next(call) =>
      if call in t.calls {
        ProceedFits(t.store, h, t.calls[call]);
        var s := Proceed(t.store, h, t.calls[call]).0;
        forall c | c in t.calls ensures CallFits(s, h, t.calls[c]) {
          CallStays(t.store, s, h, t.calls[c]);
        }
      }
  }

  lemma NewCallFits(s: Store, h: Hasher, q: Request)
    ensures (forall p | p in ParentIds(q.lineage) :: p in s.written) ==> CallFits(s, h, Call(q, Asked))
  {
  }

  lemma ImportHasNoParents(q: Request)
    ensures ParentIds(AsImport(q).lineage) == []
  {
  }

  lemma DerivedFromThere(s: Store, h: Hasher, q: Request, d: Derivation)
    requires StoreFits(s, h) && forall i | 0 <= i < |d.parents| :: d.parents[i] in s.metadata
    ensures forall p | p in ParentIds(AsDerived(s.metadata, q, d).lineage) :: p in s.written
  {
    hide Named, Precede;
    var ids := ParentIds(AsDerived(s.metadata, q, d).lineage);
    assert |ids| == |d.parents| && forall i | 0 <= i < |ids| :: ids[i] == d.parents[i];
  }

  lemma {:induction false} ReachFits(h: Hasher, xs: seq<Region>)
    requires HexHasher(h)
    ensures Fits(Reach(h, xs), h)
  {
    hide HexHasher, Do;
    if xs == [] {
      assert StoreFits(EMPTY, h);
    } else {
      ReachFits(h, xs[..|xs| - 1]);
      DoFits(Reach(h, xs[..|xs| - 1]), h, xs[|xs| - 1]);
    }
    hide StoreFits;
  }

  /** Over every interleaving of calls, killed ones included, every record there is verifies. */
  lemma RecordsVerify(h: Hasher, xs: seq<Region>, id: string)
    requires HexHasher(h) && id in Reach(h, xs).store.metadata
    ensures VerifyOne(Reach(h, xs).store, h, id) == Ok(Reach(h, xs).store.metadata[id])
  {
    ReachFits(h, xs);
    hide HexHasher, Reach, Ordered, ValidRecord;
    var s := Reach(h, xs).store;
    assert ObjectFits(s, h, s.metadata[id].sha256);
  }

  /** Over every interleaving no artifact descends from itself, whatever records were replaced. */
  lemma LineageStaysAcyclic(h: Hasher, xs: seq<Region>, path: seq<string>)
    requires HexHasher(h)
    ensures !Inventory.Cycle(Graph(Reach(h, xs).store.metadata), path)
  {
    ReachFits(h, xs);
    hide HexHasher, Reach, Named;
    var s := Reach(h, xs).store;
    OrderedIsFinished(s);
    Inventory.OrderExcludesCycle(Graph(s.metadata), s.written, path);
  }

  lemma OrderedIsFinished(s: Store)
    requires Ordered(s)
    ensures Inventory.Finished(Graph(s.metadata), s.written)
  {
    hide ParentIds;
    forall i, b | 0 <= i < |s.written| && Inventory.Edge(Graph(s.metadata), s.written[i], b)
      ensures b in s.written[..i]
    {
      assert Precede(s.written, ParentIds(s.metadata[s.written[i]].lineage), s.written[i]);
    }
  }

  // ---------------------------------------------------------------- locks

  predicate Holds(c: Call) { !c.stage.Asked? && !c.stage.Checked? && !c.stage.Over? }

  /** A lock has one holder, and what a holder writes is for the artifact it locked. */
  ghost predicate Locking(t: State) {
    && (forall c | c in t.calls && Holds(t.calls[c]) :: t.calls[c].q.id in t.store.locks)
    && (forall c, d | c in t.calls && d in t.calls && Holds(t.calls[c]) && Holds(t.calls[d]) && c != d ::
          t.calls[c].q.id != t.calls[d].q.id)
    && (forall c | c in t.calls && t.calls[c].stage.Composed? :: t.calls[c].stage.record.id == t.calls[c].q.id)
  }

  /** What a region does to locks and records. */
  lemma ProceedLocks(s: Store, h: Hasher, c: Call)
    ensures var (t, stage) := Proceed(s, h, c);
            && t.locks == (if c.stage.Checked? && c.q.id !in s.locks then s.locks + {c.q.id}
                           else if c.stage.Leaving? then s.locks - {c.q.id} else s.locks)
            && t.metadata == (if c.stage.Composed? then s.metadata[c.stage.record.id := c.stage.record] else s.metadata)
            && (Holds(Call(c.q, stage)) ==> Holds(c) || (c.stage.Checked? && c.q.id !in s.locks))
            && (c.stage.Leaving? ==> stage == Over)
            && (stage.Composed? ==> stage.record.id == c.q.id)
  {
    hide Content, ValidRecord;
  }

  lemma DoLocks(t: State, h: Hasher, x: Region)
    requires Locking(t)
    ensures Locking(Do(t, h, x))
  {
    hide Proceed, AsImport, AsDerived;
    if x.Next? && x.call in t.calls {
      ProceedLocks(t.store, h, t.calls[x.call]);
    }
  }

  lemma {:induction false} ReachLocks(h: Hasher, xs: seq<Region>)
    ensures Locking(Reach(h, xs))
  {
    hide Do;
    if xs != [] {
      ReachLocks(h, xs[..|xs| - 1]);
      DoLocks(Reach(h, xs[..|xs| - 1]), h, xs[|xs| - 1]);
    }
  }

  // ---------------------------------------------------------------- moments of a run

  /** The state before the region at `i`. */
  function At(h: Hasher, xs: seq<Region>, i: nat): State
    requires i <= |xs|
  {
    Reach(h, xs[..i])
  }

  lemma AtNext(h: Hasher, xs: seq<Region>, i: nat)
    requires i < |xs|
    ensures At(h, xs, i + 1) == Do(At(h, xs, i), h, xs[i])
  {
    hide Do;
    assert xs[..i + 1][..i] == xs[..i];
  }

  /** The record of `id` before the region at `i`, if there is one. */
  function RecordAt(h: Hasher, xs: seq<Region>, i: nat, id: string): Option<Record>
    requires i <= |xs|
  {
    Lookup(At(h, xs, i).store.metadata, id)
  }

  function Rank(stage: Stage): nat {
    match stage
    case Asked => 1
    case Checked => 2
    case Entered => 3
    case Filled(_) => 4
    case Composed(_) => 5
    case Leaving => 6
    case Over => 7
  }

  /** How far call `c` is before the region at `i`. */
  function RankAt(h: Hasher, xs: seq<Region>, i: nat, c: nat): nat
    requires i <= |xs|
  {
    if c in At(h, xs, i).calls then Rank(At(h, xs, i).calls[c].stage) else 0
  }

  lemma DoRanks(t: State, h: Hasher, x: Region, c: nat)
    ensures c in t.calls ==>
              && c in Do(t, h, x).calls && Do(t, h, x).calls[c].q == t.calls[c].q
              && Rank(t.calls[c].stage) <= Rank(Do(t, h, x).calls[c].stage)
              && (x != Next(c) ==> Do(t, h, x).calls[c] == t.calls[c])
              && (x == Next(c) ==> Rank(Do(t, h, x).calls[c].stage) > Rank(t.calls[c].stage) || t.calls[c].stage.Over?)
    ensures c !in t.calls && c in Do(t, h, x).calls ==> Do(t, h, x).calls[c].stage == Asked
  {
    hide Content, ValidRecord, NewRecord, AsImport, AsDerived, Written;
  }

  lemma {:induction false} RanksGrow(h: Hasher, xs: seq<Region>, a: nat, b: nat, c: nat)
    requires a <= b <= |xs|
    ensures RankAt(h, xs, a, c) <= RankAt(h, xs, b, c)
    ensures c in At(h, xs, a).calls ==> c in At(h, xs, b).calls && At(h, xs, a).calls[c].q == At(h, xs, b).calls[c].q
    decreases b - a
  {
    hide Do, At;
    if a < b {
      RanksGrow(h, xs, a, b - 1, c);
      AtNext(h, xs, b - 1);
      DoRanks(At(h, xs, b - 1), h, xs[b - 1], c);
    }
  }

  // ---------------------------------------------------------------- replacing a record

  /** The region at `i` changes the record of `id`. */
  ghost predicate Replaced(h: Hasher, xs: seq<Region>, i: nat, id: string) {
    i < |xs| && RecordAt(h, xs, i, id).Some? && RecordAt(h, xs, i + 1, id) != RecordAt(h, xs, i, id)
  }

  /** Call `c` finds its lock free at `i` and takes it. */
  ghost predicate Enters(h: Hasher, xs: seq<Region>, i: nat, c: nat) {
    && i < |xs| && xs[i] == Next(c) && c in At(h, xs, i).calls && At(h, xs, i).calls[c].stage == Checked
    && At(h, xs, i).calls[c].q.id !in At(h, xs, i).store.locks
  }

  /** Call `c` writes its record at `j`. */
  ghost predicate Writes(h: Hasher, xs: seq<Region>, j: nat, c: nat) {
    j < |xs| && xs[j] == Next(c) && c in At(h, xs, j).calls && At(h, xs, j).calls[c].stage.Composed?
  }

  /** Call `c` takes its lock at `i`, finds a record of its artifact there, and writes another one at `j`. */
  ghost predicate Overwrites(h: Hasher, xs: seq<Region>, i: nat, j: nat, c: nat) {
    && Enters(h, xs, i, c) && Writes(h, xs, j, c)
    && var r := At(h, xs, j).calls[c].stage.record;
       var found := RecordAt(h, xs, i, r.id);
       found.Some? && found.value != r
  }

  /** Between taking its lock and writing its record, a call finds the record of its artifact unchanged. */
  lemma {:induction false} EntryFound(h: Hasher, xs: seq<Region>, j: nat, c: nat) returns (i: nat)
    requires j <= |xs| && c in At(h, xs, j).calls && 3 <= RankAt(h, xs, j, c) <= 5
    ensures i < j && Enters(h, xs, i, c)
    ensures var id := At(h, xs, j).calls[c].q.id; RecordAt(h, xs, i, id) == RecordAt(h, xs, j, id)
    decreases j
  {
    assert At(h, xs, 0).calls == map[];
    AtNext(h, xs, j - 1);
    var t := At(h, xs, j - 1);
    DoRanks(t, h, xs[j - 1], c);
    ReachLocks(h, xs[..j - 1]);
    hide At, Do, Locking;
    StepFinds(t, h, xs[j - 1], c);
    if 3 <= RankAt(h, xs, j - 1, c) {
      i := EntryFound(h, xs, j - 1, c);
    } else {
      i := j - 1;
    }
  }

  /** A step that leaves a call between its lock and its record leaves the record of its artifact alone. */
  lemma StepFinds(t: State, h: Hasher, x: Region, c: nat)
    requires Locking(t) && c in t.calls
    requires c in Do(t, h, x).calls && 3 <= Rank(Do(t, h, x).calls[c].stage) <= 5
    ensures var id := t.calls[c].q.id; Lookup(Do(t, h, x).store.metadata, id) == Lookup(t.store.metadata, id)
    ensures Rank(t.calls[c].stage) < 3 ==>
              x == Next(c) && t.calls[c].stage == Checked && t.calls[c].q.id !in t.store.locks
  {
    hide Proceed, AsImport, AsDerived;
    if x.Next? && x.call in t.calls {
      ProceedLocks(t.store, h, t.calls[x.call]);
      if x.call == c {
        EntersByLock(t.store, h, t.calls[c]);
      }
    }
  }

  lemma EntersByLock(s: Store, h: Hasher, c: Call)
    ensures 3 <= Rank(Proceed(s, h, c).1) <= 5 ==>
              !c.stage.Composed? && (Rank(c.stage) < 3 ==> c.stage == Checked && c.q.id !in s.locks)
  {
    hide Content, ValidRecord, NewRecord;
  }

  /** Records change only when they are written. */
  lemma ReplacedIsWritten(h: Hasher, xs: seq<Region>, j: nat, id: string)
    requires Replaced(h, xs, j, id)
    ensures var c := xs[j].call; Writes(h, xs, j, c) && At(h, xs, j).calls[c].stage.record.id == id
    ensures RecordAt(h, xs, j + 1, id) == Some(At(h, xs, j).calls[xs[j].call].stage.record)
  {
    AtNext(h, xs, j);
    hide At, Proceed, AsImport, AsDerived;
    var t := At(h, xs, j);
    if xs[j].Next? && xs[j].call in t.calls {
      ProceedLocks(t.store, h, t.calls[xs[j].call]);
    }
  }

  /** Over every interleaving: some record is replaced if and only if some call takes its lock for an artifact
      whose record is already there, and goes on to write a different one. */
  lemma ReplacedIffOverwritten(h: Hasher, xs: seq<Region>)
    ensures (exists j: nat, id :: Replaced(h, xs, j, id))
            <==> (exists i: nat, j: nat, c: nat :: Overwrites(h, xs, i, j, c))
  {
    if j: nat, id :| Replaced(h, xs, j, id) {
      var i := ReplacedIsOverwritten(h, xs, j, id);
      assert Overwrites(h, xs, i, j, xs[j].call);
    }
    if i: nat, j: nat, c: nat :| Overwrites(h, xs, i, j, c) {
      OverwrittenIsReplaced(h, xs, i, j, c);
    }
  }

  lemma ReplacedIsOverwritten(h: Hasher, xs: seq<Region>, j: nat, id: string) returns (i: nat)
    requires Replaced(h, xs, j, id)
    ensures Overwrites(h, xs, i, j, xs[j].call)
  {
    hide At, Enters;
    ReplacedIsWritten(h, xs, j, id);
    i := EntryFound(h, xs, j, xs[j].call);
    ComposedForItsId(h, xs, j, xs[j].call);
  }

  lemma ComposedForItsId(h: Hasher, xs: seq<Region>, j: nat, c: nat)
    requires Writes(h, xs, j, c)
    ensures At(h, xs, j).calls[c].stage.record.id == At(h, xs, j).calls[c].q.id
  {
    ReachLocks(h, xs[..j]);
    hide Reach;
  }

  lemma OverwrittenIsReplaced(h: Hasher, xs: seq<Region>, i: nat, j: nat, c: nat)
    requires Overwrites(h, xs, i, j, c)
    ensures Replaced(h, xs, j, At(h, xs, j).calls[c].stage.record.id)
  {
    hide At;
    ComposedForItsId(h, xs, j, c);
    var first := EntryFound(h, xs, j, c);
    EntryIsUnique(h, xs, i, first, c);
    AtNext(h, xs, j);
    ProceedLocks(At(h, xs, j).store, h, At(h, xs, j).calls[c]);
    hide Proceed;
  }

  lemma EntryIsUnique(h: Hasher, xs: seq<Region>, a: nat, b: nat, c: nat)
    requires Enters(h, xs, a, c) && Enters(h, xs, b, c)
    ensures a == b
  {
    hide At;
    EntryRanks(h, xs, a, c);
    EntryRanks(h, xs, b, c);
    hide Enters, RankAt;
    if a < b {
      RanksGrow(h, xs, a + 1, b, c);
    } else if b < a {
      RanksGrow(h, xs, b + 1, a, c);
    }
  }

  lemma EntryRanks(h: Hasher, xs: seq<Region>, i: nat, c: nat)
    requires Enters(h, xs, i, c)
    ensures RankAt(h, xs, i, c) == 2 && RankAt(h, xs, i + 1, c) == 3
  {
    AtNext(h, xs, i);
    hide At;
  }

  // ---------------------------------------------------------------- overlap is needed

  lemma {:induction false} CheckedAt(h: Hasher, xs: seq<Region>, i: nat, c: nat) returns (a: nat)
    requires i <= |xs| && c in At(h, xs, i).calls && At(h, xs, i).calls[c].stage == Checked
    ensures a < i && xs[a] == Next(c) && c in At(h, xs, a).calls && At(h, xs, a).calls[c].stage == Asked
    ensures RecordAt(h, xs, a, At(h, xs, i).calls[c].q.id) == None
    decreases i
  {
    assert At(h, xs, 0).calls == map[];
    AtNext(h, xs, i - 1);
    var t := At(h, xs, i - 1);
    DoRanks(t, h, xs[i - 1], c);
    hide At, Do;
    if t.calls[c].stage == Checked {
      a := CheckedAt(h, xs, i - 1, c);
    } else {
      a := i - 1;
      CheckPasses(t, h, xs[a], c);
    }
  }

  lemma CheckPasses(t: State, h: Hasher, x: Region, c: nat)
    requires c in t.calls && t.calls[c].stage != Checked
    requires c in Do(t, h, x).calls && Do(t, h, x).calls[c].stage == Checked
    ensures x == Next(c) && t.calls[c].stage == Asked && t.calls[c].q.id !in t.store.metadata
    ensures Do(t, h, x).store == t.store
  {
    hide Content, ValidRecord, NewRecord, AsImport, AsDerived;
  }

  /** Call `c` passes its check at `a`, and at `b` another call writes a record of the same artifact. */
  ghost predicate Overlaps(h: Hasher, xs: seq<Region>, a: nat, b: nat, c: nat, id: string) {
    && a < b < |xs| && xs[a] == Next(c) && c in At(h, xs, a).calls && At(h, xs, a).calls[c].stage == Asked
    && xs[b].Next? && xs[b].call != c && Writes(h, xs, b, xs[b].call)
    && At(h, xs, b).calls[xs[b].call].stage.record.id == id
  }

  /** Finding a record there takes an overlap: after this call passed its check, another one wrote the first
      record of the artifact. */
  lemma {:induction false} FindingOverlaps(h: Hasher, xs: seq<Region>, i: nat, c: nat) returns (a: nat, b: nat)
    requires i <= |xs| && c in At(h, xs, i).calls && At(h, xs, i).calls[c].stage == Checked
    requires RecordAt(h, xs, i, At(h, xs, i).calls[c].q.id).Some?
    ensures b < i && Overlaps(h, xs, a, b, c, At(h, xs, i).calls[c].q.id)
    decreases i
  {
    assert At(h, xs, 0).calls == map[];
    AtNext(h, xs, i - 1);
    var t := At(h, xs, i - 1);
    DoRanks(t, h, xs[i - 1], c);
    hide At, Do, Overlaps;
    if t.calls[c].stage != Checked {
      CheckPasses(t, h, xs[i - 1], c);
    } else if RecordAt(h, xs, i - 1, t.calls[c].q.id).Some? {
      a, b := FindingOverlaps(h, xs, i - 1, c);
    } else {
      b := i - 1;
      a := FirstOverlaps(h, xs, b, c);
    }
  }

  lemma FirstOverlaps(h: Hasher, xs: seq<Region>, b: nat, c: nat) returns (a: nat)
    requires b < |xs| && c in At(h, xs, b).calls && At(h, xs, b).calls[c].stage == Checked
    requires var id := At(h, xs, b).calls[c].q.id; RecordAt(h, xs, b, id).None? && RecordAt(h, xs, b + 1, id).Some?
    ensures Overlaps(h, xs, a, b, c, At(h, xs, b).calls[c].q.id)
  {
    AtNext(h, xs, b);
    hide At, Do;
    var t := At(h, xs, b);
    a := CheckedAt(h, xs, b, c);
    FirstIsWritten(t, h, xs[b], t.calls[c].q.id);
    assert t.calls[xs[b].call].stage != t.calls[c].stage;
  }

  lemma FirstIsWritten(t: State, h: Hasher, x: Region, id: string)
    requires id !in t.store.metadata && id in Do(t, h, x).store.metadata
    ensures x.Next? && x.call in t.calls && t.calls[x.call].stage.Composed? && t.calls[x.call].stage.record.id == id
  {
    hide Proceed, AsImport, AsDerived;
    if x.Next? && x.call in t.calls {
      ProceedLocks(t.store, h, t.calls[x.call]);
    }
  }

  // ---------------------------------------------------------------- what records say of each other

  /** Every record, written or composed, says of others what their records say. */
  ghost predicate Agreeing(t: State) {
    && (forall id | id in t.store.metadata :: Related(t.store.metadata, t.store.metadata[id]))
    && (forall c | c in t.calls :: CallAgrees(t.store.metadata, t.calls[c]))
  }

  ghost predicate CallAgrees(m: map<string, Record>, c: Call) {
    && ParentsKnown(m, c.q.lineage)
    && (c.stage.Composed? ==> Related(m, c.stage.record))
  }

  /** Records stay, though others may join them. */
  ghost predicate Stays(m: map<string, Record>, m': map<string, Record>) {
    forall id | id in m :: id in m' && m'[id] == m[id]
  }

  lemma RelatedStays(m: map<string, Record>, m': map<string, Record>, r: Record)
    requires Stays(m, m') && Related(m, r)
    ensures Related(m', r)
  {
  }

  lemma CallAgreesStays(m: map<string, Record>, m': map<string, Record>, c: Call)
    requires Stays(m, m') && CallAgrees(m, c)
    ensures CallAgrees(m', c)
  {
  }

  lemma ComposedAgrees(s: Store, h: Hasher, c: Call)
    requires CallAgrees(s.metadata, c) && forall id | id in s.metadata :: s.metadata[id].id == id
    ensures CallAgrees(s.metadata, Call(c.q, Proceed(s, h, c).1))
  {
    hide Content, Shelved, ValidRecord, ParentIds, ParentsKnown;
  }

  lemma DoAgrees(t: State, h: Hasher, x: Region)
    requires Fits(t, h) && Agreeing(t) && Stays(t.store.metadata, Do(t, h, x).store.metadata)
    ensures Agreeing(Do(t, h, x))
  {
    var m := t.store.metadata;
    NamesAreIds(t, h);
    hide Agreeing, Fits, Proceed, AsImport, AsDerived, CallAgrees, Stays;
    match x
    case Ask(call, q) =>
      ImportAgrees(m, q);
      AskedAgrees(t, call, AsImport(q));
    case AskDerived(call, q, d) =>
      if forall i | 0 <= i < |d.parents| :: d.parents[i] in m {
        DerivedAgrees(m, q, d);
        AskedAgrees(t, call, AsDerived(m, q, d));
      }
    case Next(call) =>
      if call in t.calls {
        ProceedLocks(t.store, h, t.calls[call]);
        CallsAgree(t, call);
        ComposedAgrees(t.store, h, t.calls[call]);
        NextAgrees(t, Do(t, h, x), call);
      }
  }

  lemma NamesAreIds(t: State, h: Hasher)
    requires Fits(t, h)
    ensures forall id | id in t.store.metadata :: t.store.metadata[id].id == id
  {
  }

  lemma CallsAgree(t: State, call: nat)
    requires Agreeing(t) && call in t.calls
    ensures CallAgrees(t.store.metadata, t.calls[call])
  {
  }

  lemma AskedAgrees(t: State, call: nat, q: Request)
    requires Agreeing(t) && CallAgrees(t.store.metadata, Call(q, Asked))
    ensures Agreeing(t.(calls := t.calls[call := Call(q, Asked)]))
  {
    hide CallAgrees, Related;
  }

  lemma ImportAgrees(m: map<string, Record>, q: Request)
    ensures CallAgrees(m, Call(AsImport(q), Asked))
  {
  }

  lemma DerivedAgrees(m: map<string, Record>, q: Request, d: Derivation)
    requires forall i | 0 <= i < |d.parents| :: d.parents[i] in m
    requires forall id | id in m :: m[id].id == id
    ensures CallAgrees(m, Call(AsDerived(m, q, d), Asked))
  {
  }

  lemma NextAgrees(t: State, t': State, call: nat)
    requires Agreeing(t) && Stays(t.store.metadata, t'.store.metadata) && call in t.calls && call in t'.calls
    requires t'.calls == t.calls[call := t'.calls[call]] && CallAgrees(t.store.metadata, t'.calls[call])
    requires t'.store.metadata == (if t.calls[call].stage.Composed?
                                   then var r := t.calls[call].stage.record; t.store.metadata[r.id := r]
                                   else t.store.metadata)
    ensures Agreeing(t')
  {
    var m, m' := t.store.metadata, t'.store.metadata;
    hide Related, ParentsKnown, Stays;
    forall c | c in t'.calls ensures CallAgrees(m', t'.calls[c]) {
      CallAgreesStays(m, m', t'.calls[c]);
    }
    forall id | id in m' ensures Related(m', m'[id]) {
      RelatedStays(m, m', m'[id]);
    }
  }

  /** Records that are never replaced go on agreeing with each other. */
  lemma {:induction false} AtAgrees(h: Hasher, xs: seq<Region>, i: nat)
    requires HexHasher(h) && i <= |xs| && forall j: nat, id :: !Replaced(h, xs, j, id)
    ensures Agreeing(At(h, xs, i)) && Fits(At(h, xs, i), h)
    decreases i
  {
    if i == 0 {
      assert Agreeing(At(h, xs, 0));
      ReachFits(h, xs[..0]);
    } else {
      ReachFits(h, xs[..i]);
      AtAgrees(h, xs, i - 1);
      AtNext(h, xs, i - 1);
      hide At, Fits, Agreeing, HexHasher, Do;
      forall id | id in At(h, xs, i - 1).store.metadata
        ensures id in At(h, xs, i).store.metadata
                && At(h, xs, i).store.metadata[id] == At(h, xs, i - 1).store.metadata[id]
      {
        assert !Replaced(h, xs, i - 1, id);
      }
      DoAgrees(At(h, xs, i - 1), h, xs[i - 1]);
    }
  }

  lemma {:induction false} RecordStaysPut(h: Hasher, xs: seq<Region>, a: nat, b: nat, id: string)
    requires a <= b <= |xs| && (forall j: nat, x :: !Replaced(h, xs, j, x)) && RecordAt(h, xs, a, id).Some?
    ensures RecordAt(h, xs, b, id) == RecordAt(h, xs, a, id)
    decreases b - a
  {
    hide RecordAt;
    if a < b {
      RecordStaysPut(h, xs, a, b - 1, id);
      assert !Replaced(h, xs, b - 1, id);
    }
  }

  /** Over every interleaving in which no call writes over a record that it found when it took its lock: each
      record stays the same for good, verifies at any later moment, and agrees with its parents' records. */
  lemma RecordsAreKept(h: Hasher, xs: seq<Region>, a: nat, b: nat, id: string)
    requires HexHasher(h) && forall i: nat, j: nat, c: nat :: !Overwrites(h, xs, i, j, c)
    requires a <= b <= |xs| && RecordAt(h, xs, a, id).Some?
    ensures var r, s := RecordAt(h, xs, a, id).value, At(h, xs, b).store;
            && RecordAt(h, xs, b, id) == Some(r) && VerifyOne(s, h, id) == Ok(r)
            && ParentsKnown(s.metadata, r.lineage) && r.derivedFrom == ParentIds(r.lineage)
  {
    hide Overwrites, Replaced, HexHasher;
    ReplacedIffOverwritten(h, xs);
    RecordStaysPut(h, xs, a, b, id);
    AtAgrees(h, xs, b);
    RecordsVerify(h, xs[..b], id);
    hide VerifyOne, Reach, ParentsKnown, ParentIds, Ordered;
  }

  // ---------------------------------------------------------------- an interleaving that replaces a record

  /** Two imports for one artifact pass their checks before either takes the lock. */
  function Race(early: Request, late: Request): seq<Region> {
    [Ask(0, early), Ask(1, late), Next(0), Next(1)] + Nexts(0, 5) + Nexts(1, 5)
  }

  lemma {:induction false} NextsLength(call: nat, n: nat)
    ensures |Nexts(call, n)| == n
  {
    if n > 0 {
      NextsLength(call, n - 1);
    }
  }

  /** What the first call of a race leaves, and the second then writes. */
  lemma SecondWrites(s: Store, h: Hasher, q: Request)
    requires q.id !in s.locks && Content(h, q).Ok? && Shelved(s, h, Content(h, q).value).Ok?
    requires ValidRecord(NewRecord(s, h, q, Content(h, q).value))
    ensures var t := Proceeds(s, h, Call(q, Checked), 5).0;
            q.id in t.metadata && t.metadata[q.id].source == q.source
  {
    var content := Content(h, q).value;
    var s1 := s.(locks := s.locks + {q.id});
    var s2 := Shelved(s1, h, content).value;
    assert Fill(s1, h, q) == (s2, Filled(content));
    var r := NewRecord(s2, h, q, content);
    assert r == NewRecord(s, h, q, content) && r.id == q.id && r.source == q.source;
    hide Proceeds, Fill, NewRecord, Content, Shelved, ValidRecord;
    OneRegion(s, h, Call(q, Checked), 5);
    FillsAlone(s1, h, q, 4);
    ComposesAlone(s2, h, q, content, 3);
    LeavesAlone(Written(s2, r), h, q, 1);
  }

  /** After nine regions the first record of the artifact is there; after fourteen it is another one. */
  lemma RaceReplacesRecord(h: Hasher, q: Request, source: string)
    requires Preserve(EMPTY, h, AsImport(q)).1.Ok? && source != "" && source != q.source
    ensures var xs := Race(q, q.(source := source));
            && |xs| == 14 && RecordAt(h, xs, 9, q.id).Some? && RecordAt(h, xs, 9, q.id).value.source == q.source
            && RecordAt(h, xs, 14, q.id).Some? && RecordAt(h, xs, 14, q.id).value.source == source
  {
    var first, second := AsImport(q), AsImport(q.(source := source));
    var xs := Race(q, q.(source := source));
    var start := [Ask(0, q), Ask(1, q.(source := source)), Next(0), Next(1)];
    NextsLength(0, 5);
    NextsLength(1, 5);
    assert xs[..9] == start + Nexts(0, 5) && xs[..14] == xs == start + Nexts(0, 5) + Nexts(1, 5);
    var t := Reach(h, start);
    RaceStarts(h, q, q.(source := source));
    ReachOn(h, start, Nexts(0, 5));
    ReachOn(h, start + Nexts(0, 5), Nexts(1, 5));
    NextsProceed(t, h, 0, 5);
    var t1 := Reach(h, start + Nexts(0, 5));
    NextsProceed(t1, h, 1, 5);
    hide Reach, DoAll, Nexts, Proceeds, Race;
    FirstAlone(h, first);
    AsGoodAsFirst(h, first, second);
    SecondWrites(t1.store, h, second);
  }

  lemma RaceStarts(h: Hasher, early: Request, late: Request)
    requires Refusal(EMPTY, AsImport(early)).None? && Refusal(EMPTY, AsImport(late)).None?
    ensures Reach(h, [Ask(0, early), Ask(1, late), Next(0), Next(1)])
         == State(EMPTY, map[0 := Call(AsImport(early), Checked), 1 := Call(AsImport(late), Checked)])
  {
    hide AsImport, ValidId;
    var a, b, c, d := Ask(0, early), Ask(1, late), Next(0), Next(1);
    var e, l := AsImport(early), AsImport(late);
    var t2 := State(EMPTY, map[0 := Call(e, Asked), 1 := Call(l, Asked)]);
    var t3 := State(EMPTY, map[0 := Call(e, Checked), 1 := Call(l, Asked)]);
    assert Reach(h, []) == State(EMPTY, map[]);
    assert Do(Do(Reach(h, []), h, a), h, b) == t2;
    assert Do(t2, h, c) == t3;
    assert Do(t3, h, d) == State(EMPTY, map[0 := Call(e, Checked), 1 := Call(l, Checked)]);
    hide Do, Reach;
    ReachOne(h, [], a);
    ReachOne(h, [a], b);
    ReachOne(h, [a, b], c);
    ReachOne(h, [a, b, c], d);
    assert [] + [a] == [a] && [a] + [b] == [a, b] && [a, b] + [c] == [a, b, c] && [a, b, c] + [d] == [a, b, c, d];
  }

  lemma FirstAlone(h: Hasher, q: Request)
    requires Preserve(EMPTY, h, q).1.Ok?
    ensures Proceeds(EMPTY, h, Call(q, Checked), 5).0 == Preserve(EMPTY, h, q).0
    ensures var t := Preserve(EMPTY, h, q).0;
            q.id in t.metadata && t.metadata[q.id].source == q.source && q.id !in t.locks
  {
    AloneIsPreserve(EMPTY, h, q);
    OneRegion(EMPTY, h, Call(q, Asked), 6);
    hide Proceeds, Content, ValidRecord;
  }

  /** A second import of the same content from another source is as good as the first. */
  lemma AsGoodAsFirst(h: Hasher, q: Request, second: Request)
    requires Preserve(EMPTY, h, q).1.Ok? && second == q.(source := second.source) && second.source != ""
    ensures var t := Preserve(EMPTY, h, q).0;
            && Content(h, second).Ok? && Shelved(t, h, Content(h, second).value).Ok?
            && ValidRecord(NewRecord(t, h, second, Content(h, second).value))
  {
    SameContent(h, q, second);
  }

  lemma SameContent(h: Hasher, q: Request, second: Request)
    requires second == q.(source := second.source)
    ensures Content(h, second) == Content(h, q)
  {
  }

  function Zeros(n: nat): string { seq(n, i requires 0 <= i < n => '0') }

  /** A hash function that is of no use otherwise. */
  const FLAT := Hasher((b: Bytes) => Zeros(64), (b: Bytes) => Zeros(40), (b: Bytes) => Zeros(32))

  const SAMPLE := Request("game", Some("game.zip"), [], 1, None, "", "", "", "today", "disk", "", "unknown", "", "",
                          None)

  /** So records can be replaced. */
  lemma OverlapReplacesRecord() returns (h: Hasher, xs: seq<Region>)
    ensures HexHasher(h) && |xs| == 14
    ensures RecordAt(h, xs, 9, "game").Some? && RecordAt(h, xs, 14, "game").Some?
    ensures RecordAt(h, xs, 9, "game") != RecordAt(h, xs, 14, "game")
  {
    h, xs := FLAT, Race(SAMPLE, SAMPLE.(source := "tape"));
    FlatIsHex();
    SampleIsGood();
    assert SAMPLE.id == "game" && SAMPLE.source == "disk" && "disk"[0] != "tape"[0];
    hide HexHasher, Race, Preserve, RecordAt;
    RaceReplacesRecord(FLAT, SAMPLE, "tape");
  }

  lemma ZerosAreHex(n: nat)
    ensures HexDigest(Zeros(n), n) && Lower(Zeros(n)) == Zeros(n)
  {
  }

  lemma FlatIsHex()
    ensures HexHasher(FLAT)
  {
    ZerosAreHex(64);
  }

  lemma SampleIsGood()
    ensures Preserve(EMPTY, FLAT, AsImport(SAMPLE)).1.Ok?
  {
    ZerosAreHex(64);
    ZerosAreHex(40);
    ZerosAreHex(32);
    assert ValidId("game");
    hide HexDigest, Lower, Zeros;
    var q := AsImport(SAMPLE);
    assert Received([], [], 1) == Ok([]);
    assert Content(FLAT, q) == Ok([]);
    assert Refusal(EMPTY, q).None?;
    hide Content;
    assert ValidRecord(NewRecord(Shelved(EMPTY, FLAT, []).value, FLAT, q, []));
  }
}
