/** Calls of the archive that overlap: `preserve_stream` as the regions between which other calls may come. A call
    that dies is one that takes no further region, and so keeps its lock. */
module ArchiveCalls {
  import opened Wrappers
  import opened ArchiveModel

  /** How far a call is: asked for, past the check for a record, holding its lock, past linking its object, past
      composing its record, about to give its lock back, over. */
  datatype Stage = Asked | Checked | Entered | Filled(content: Bytes) | Composed(record: Record) | Leaving | Over

  datatype Call = Call(q: Request, stage: Stage)

  datatype State = State(store: Store, calls: map<nat, Call>)

  /** Calls are numbered; `derive` loads the records of the parents when it is asked for. */
  datatype Region =
    | Ask(call: nat, q: Request)
    | AskDerived(call: nat, q: Request, d: Derivation)
    | Next(call: nat)

  /** The record is written; `written` lists the artifacts by their first record. */
  function Written(s: Store, r: Record): Store {
    s.(metadata := s.metadata[r.id := r], written := if r.id in s.metadata then s.written else s.written + [r.id])
  }

  /** The next region of a call: the store it leaves, and how far the call is then. */
  function Proceed(s: Store, h: Hasher, c: Call): (Store, Stage) {
    match c.stage
    case Asked => (s, if ValidId(c.q.id) && c.q.filename.Some? && c.q.id !in s.metadata then Checked else Over)
    case Checked => if c.q.id in s.locks then (s, Over) else (s.(locks := s.locks + {c.q.id}), Entered)
    case Entered => Fill(s, h, c.q)
    case Filled(content) =>
      var r := NewRecord(s, h, c.q, content);
      (s, if ValidRecord(r) then Composed(r) else Leaving)
    case Composed(r) => (Written(s, r), Leaving)
    case Leaving => (s.(locks := s.locks - {c.q.id}), Over)
    case Over => (s, Over)
  }

  /** The content is received, checked and linked under its digest. */
  function Fill(s: Store, h: Hasher, q: Request): (Store, Stage) {
    match Content(h, q)
    case Err(_) => (s, Leaving)
    case Ok(content) =>
      match Shelved(s, h, content)
      case Err(_) => (s, Leaving)
      case Ok(s1) => (s1, Filled(content))
  }

  function Do(t: State, h: Hasher, x: Region): State {
    match x
    case Ask(call, q) =>
      if call in t.calls then t else t.(calls := t.calls[call := Call(AsImport(q), Asked)])
    case AskDerived(call, q, d) =>
      if call in t.calls || !forall i | 0 <= i < |d.parents| :: d.parents[i] in t.store.metadata then t
      else t.(calls := t.calls[call := Call(AsDerived(t.store.metadata, q, d), Asked)])
    case Next(call) =>
      if call !in t.calls then t
      else
        var (s, stage) := Proceed(t.store, h, t.calls[call]);
        State(s, t.calls[call := Call(t.calls[call].q, stage)])
  }

  /** Any interleaving of calls, from an empty archive. */
  function Reach(h: Hasher, xs: seq<Region>): State {
    if xs == [] then State(EMPTY, map[]) else Do(Reach(h, xs[..|xs| - 1]), h, xs[|xs| - 1])
  }

  function DoAll(t: State, h: Hasher, xs: seq<Region>): State
    decreases |xs|
  {
    if xs == [] then t else DoAll(Do(t, h, xs[0]), h, xs[1..])
  }

  // ---------------------------------------------------------------- a call on its own

  function Nexts(call: nat, n: nat): seq<Region> { if n == 0 then [] else [Next(call)] + Nexts(call, n - 1) }

  /** What the regions of one call do to the store when nothing comes between them. */
  function Proceeds(s: Store, h: Hasher, c: Call, n: nat): (Store, Call)
    decreases n
  {
    if n == 0 then (s, c)
    else
      var (s1, stage) := Proceed(s, h, c);
      Proceeds(s1, h, Call(c.q, stage), n - 1)
  }

  lemma {:induction false} NextsProceed(t: State, h: Hasher, call: nat, n: nat)
    requires call in t.calls
    ensures var (s, c) := Proceeds(t.store, h, t.calls[call], n);
            DoAll(t, h, Nexts(call, n)) == State(s, t.calls[call := c])
    decreases n
  {
    hide Proceed;
    if n > 0 {
      var t1 := Do(t, h, Next(call));
      NextsProceed(t1, h, call, n - 1);
      assert Nexts(call, n)[1..] == Nexts(call, n - 1);
      var c := Proceeds(t.store, h, t.calls[call], n).1;
      assert t1.calls[call := c] == t.calls[call := c];
    } else {
      assert t.calls[call := t.calls[call]] == t.calls;
    }
  }

  lemma OneRegion(s: Store, h: Hasher, c: Call, n: nat)
    requires n > 0
    ensures var (s1, stage) := Proceed(s, h, c);
            Proceeds(s, h, c, n) == Proceeds(s1, h, Call(c.q, stage), n - 1)
  {
    hide Proceed;
  }

  lemma NoRegion(s: Store, h: Hasher, c: Call)
    ensures Proceeds(s, h, c, 0) == (s, c)
  {
  }

  /** A call that is refused changes nothing. */
  lemma RefusedIsOver(s: Store, h: Hasher, q: Request, n: nat)
    requires Refusal(s, q).Some? && n >= 2
    ensures Proceeds(s, h, Call(q, Asked), n) == (s, Call(q, Over))
  {
    OneRegion(s, h, Call(q, Asked), n);
    var stage := Proceed(s, h, Call(q, Asked)).1;
    OneRegion(s, h, Call(q, stage), n - 1);
    OverStays(s, h, q, n - 2);
    hide Proceeds, ValidId;
  }

  lemma {:induction false} OverStays(s: Store, h: Hasher, q: Request, n: nat)
    ensures Proceeds(s, h, Call(q, Over), n) == (s, Call(q, Over))
  {
    if n > 0 {
      OverStays(s, h, q, n - 1);
    }
  }

  /** The store with the lock of a call, and what the call has linked so far. */
  lemma EntersAlone(s: Store, h: Hasher, q: Request, n: nat)
    requires Refusal(s, q).None? && n >= 2
    ensures var s1 := s.(locks := s.locks + {q.id});
            Proceeds(s, h, Call(q, Asked), n) == Proceeds(s1, h, Call(q, Entered), n - 2)
  {
    OneRegion(s, h, Call(q, Asked), n);
    OneRegion(s, h, Call(q, Checked), n - 1);
    hide Proceeds, ValidId;
  }

  lemma FillsAlone(s: Store, h: Hasher, q: Request, n: nat)
    requires n >= 1
    ensures var (s1, stage) := Fill(s, h, q);
            Proceeds(s, h, Call(q, Entered), n) == Proceeds(s1, h, Call(q, stage), n - 1)
  {
    OneRegion(s, h, Call(q, Entered), n);
    hide Proceeds, Fill;
  }

  lemma ComposesAlone(s: Store, h: Hasher, q: Request, content: Bytes, n: nat)
    requires n >= 1 && (ValidRecord(NewRecord(s, h, q, content)) ==> n >= 2)
    ensures var r := NewRecord(s, h, q, content);
            Proceeds(s, h, Call(q, Filled(content)), n) ==
              (if ValidRecord(r) then Proceeds(Written(s, r), h, Call(q, Leaving), n - 2)
               else Proceeds(s, h, Call(q, Leaving), n - 1))
  {
    var r := NewRecord(s, h, q, content);
    OneRegion(s, h, Call(q, Filled(content)), n);
    if ValidRecord(r) {
      OneRegion(s, h, Call(q, Composed(r)), n - 1);
    }
    hide Proceeds, NewRecord, ValidRecord;
  }

  lemma LeavesAlone(s: Store, h: Hasher, q: Request, n: nat)
    requires n >= 1
    ensures Proceeds(s, h, Call(q, Leaving), n) == (s.(locks := s.locks - {q.id}), Call(q, Over))
  {
    OneRegion(s, h, Call(q, Leaving), n);
    OverStays(s.(locks := s.locks - {q.id}), h, q, n - 1);
    hide Proceeds;
  }

  /** What a lock-holding call does is what `preserve_stream` does under its lock. */
  lemma AdmittedWithLock(s: Store, h: Hasher, q: Request)
    requires q.id !in s.metadata
    ensures var s1 := s.(locks := s.locks + {q.id});
            var (s2, stage) := Fill(s1, h, q);
            && (stage.Leaving? || stage.Filled?)
            && (stage.Leaving? ==> s2 == s1 && Admitted(s, h, q).0 == s)
            && (stage.Filled? ==>
                  var r := NewRecord(s2, h, q, stage.content);
                  Admitted(s, h, q).0.(locks := s1.locks) == if ValidRecord(r) then Written(s2, r) else s2)
  {
    hide Content, ValidRecord;
  }

  lemma AdmittedKeepsLocks(s: Store, h: Hasher, q: Request)
    ensures Admitted(s, h, q).0.locks == s.locks
  {
    hide Content, ValidRecord, NewRecord;
  }

  /** A call taking all its regions at once is `preserve_stream`. */
  lemma AloneIsPreserve(s: Store, h: Hasher, q: Request)
    ensures Proceeds(s, h, Call(q, Asked), 6) == (Preserve(s, h, q).0, Call(q, Over))
  {
    hide Proceeds, Fill, NewRecord, ValidRecord, Admitted;
    if Refusal(s, q).Some? {
      RefusedIsOver(s, h, q, 6);
    } else {
      AdmittedWithLock(s, h, q);
      AdmittedKeepsLocks(s, h, q);
      EntersAlone(s, h, q, 6);
      var s1 := s.(locks := s.locks + {q.id});
      assert s1.locks - {q.id} == s.locks;
      FillsAlone(s1, h, q, 4);
      var (s2, stage) := Fill(s1, h, q);
      if stage.Filled? {
        var r := NewRecord(s2, h, q, stage.content);
        ComposesAlone(s2, h, q, stage.content, 3);
        LeavesAlone(Written(s2, r), h, q, 1);
        LeavesAlone(s2, h, q, 2);
      } else {
        LeavesAlone(s1, h, q, 3);
      }
    }
  }

  /** A call that stops before its end is a killed `preserve_stream`. */
  lemma StoppedIsKilled(s: Store, h: Hasher, q: Request, progress: Progress) returns (n: nat)
    ensures n <= 5 && Proceeds(s, h, Call(q, Asked), n).0 == Killed(s, h, q, progress)
  {
    hide Proceeds, NewRecord, ValidRecord, Admitted;
    n := 2;
    if Refusal(s, q).Some? {
      RefusedIsOver(s, h, q, 2);
    } else {
      AdmittedWithLock(s, h, q);
      var s1 := s.(locks := s.locks + {q.id});
      var (s2, stage) := Fill(s1, h, q);
      if !progress.Locked? {
        n := if progress.Linked? || stage.Leaving? then 3
             else if ValidRecord(NewRecord(s2, h, q, stage.content)) then 5 else 4;
      }
      EntersAlone(s, h, q, n);
      NoRegion(s1, h, Call(q, Entered));
      if n > 2 {
        FillsAlone(s1, h, q, n - 2);
        NoRegion(s2, h, Call(q, stage));
        if n > 3 {
          ComposesAlone(s2, h, q, stage.content, n - 3);
          NoRegion(Written(s2, NewRecord(s2, h, q, stage.content)), h, Call(q, Leaving));
          NoRegion(s2, h, Call(q, Leaving));
        }
      }
      hide Content, Shelved;
    }
  }

  /** An import, a derivation or a kill inside one is a call that takes some of its regions with nothing in
      between. */
  lemma PerformIsRegions(t: State, h: Hasher, op: Op, call: nat) returns (xs: seq<Region>)
    requires call !in t.calls
    ensures DoAll(t, h, xs).store == Perform(t.store, h, op)
    ensures DoAll(t, h, xs).calls.Keys <= t.calls.Keys + {call}
  {
    hide AsImport, AsDerived, Preserve, Killed;
    var whole := if op.Interrupted? then op.call else op;
    xs := [];
    var m := t.store.metadata;
    if whole.Import? || (whole.Deriving? && forall i | 0 <= i < |whole.d.parents| :: whole.d.parents[i] in m) {
      var ask := if whole.Import? then Ask(call, whole.q) else AskDerived(call, whole.q, whole.d);
      var t1 := Do(t, h, ask);
      var q := t1.calls[call].q;
      var n := 6;
      if op.Interrupted? {
        n := StoppedIsKilled(t.store, h, q, op.progress);
      } else {
        AloneIsPreserve(t.store, h, q);
      }
      xs := [ask] + Nexts(call, n);
      NextsProceed(t1, h, call, n);
      assert xs[1..] == Nexts(call, n);
    }
  }

  /** Serialized runs are interleavings. */
  lemma SerializedIsReached(h: Hasher, ops: seq<Op>) returns (xs: seq<Region>)
    ensures Reach(h, xs).store == Run(EMPTY, h, ops)
  {
    xs := SerializedOn(h, [], ops, 0);
    hide Run;
  }

  lemma {:induction false} SerializedOn(h: Hasher, before: seq<Region>, ops: seq<Op>, calls: nat)
    returns (xs: seq<Region>)
    requires forall c | c in Reach(h, before).calls :: c < calls
    ensures Reach(h, xs).store == Run(Reach(h, before).store, h, ops)
    decreases |ops|
  {
    xs := before;
    hide Reach, Perform, DoAll;
    if ops != [] {
      var regions := PerformIsRegions(Reach(h, before), h, ops[0], calls);
      ReachOn(h, before, regions);
      xs := SerializedOn(h, before + regions, ops[1..], calls + 1);
    }
  }

  lemma ReachOne(h: Hasher, xs: seq<Region>, x: Region)
    ensures Reach(h, xs + [x]) == Do(Reach(h, xs), h, x)
  {
    assert (xs + [x])[..|xs|] == xs;
    hide Do;
  }

  lemma {:induction false} ReachOn(h: Hasher, xs: seq<Region>, ys: seq<Region>)
    ensures DoAll(Reach(h, xs), h, ys) == Reach(h, xs + ys)
    decreases |ys|
  {
    hide Do;
    if ys == [] {
      assert xs + ys == xs;
    } else {
      var longer := xs + [ys[0]];
      assert longer[..|longer| - 1] == xs;
      ReachOn(h, longer, ys[1..]);
      assert longer + ys[1..] == xs + ys;
    }
  }
}
