/** Logins that overlap: `login` checks the throttle and counts the failure in two separate regions, and
    other logins may come between them. */
module ThrottleOverlap {
  import opened Wrappers
  import opened Throttle
  import opened ThrottleBound

  /** A login that passed its check and has yet to be settled. `since` is a history: the keys for which
      another failure was counted in the meantime. */
  datatype Pending = Pending(user: string, source: string, since: set<Key>)

  datatype State = State(table: Table, pending: map<nat, Pending>)

  /** The regions of a login, each with the time it read from the clock. */
  datatype Region =
    | Check(login: nat, user: string, remote: string, at: nat)
    | Settle(login: nat, verified: bool, at: nat)

  function Keys(p: Pending): set<Key> { {User(p.user), Source(p.source)} }

  function Noted(p: Pending, keys: set<Key>): Pending { p.(since := p.since + keys) }

  function Do(s: State, limit: nat, x: Region): State {
    match x
    case Check(login, user, remote, at) =>
      var t := Cleaned(s.table, at, limit);
      if login in s.pending then s
      else if Wait(t, user, SourceOf(remote), at) > 0 then State(t, s.pending)
      else State(t, s.pending[login := Pending(user, SourceOf(remote), {})])
    case Settle(login, verified, at) =>
      if login !in s.pending then s
      else
        var p := s.pending[login];
        if verified then State(Cleared(s.table, p.user, p.source), s.pending - {login})
        else State(Failed(s.table, p.user, p.source, at, limit),
                   map l | l in s.pending && l != login :: Noted(s.pending[l], Keys(p)))
  }

  /** Any interleaving of logins, from an empty table. */
  function Reach(limit: nat, xs: seq<Region>): State {
    if xs == [] then State([], map[]) else Do(Reach(limit, xs[..|xs| - 1]), limit, xs[|xs| - 1])
  }

  /** A login on its own is its check and its settling, so sequences of logins are such interleavings. */
  lemma LoginIsTwoRegions(s: State, limit: nat, a: Attempt, login: nat)
    requires login !in s.pending
    ensures var t := Do(Do(s, limit, Check(login, a.user, a.remote, a.at)), limit,
                        Settle(login, a.verified, a.Later()));
            t.table == TryLogin(s.table, limit, a).0 && t.pending.Keys == s.pending.Keys
  {
    hide Cleaned, Wait, Failed, Cleared;
  }

  // ---------------------------------------------------------------- counting

  /** The step counts a failure for `k`. */
  predicate Counts(s: State, x: Region, k: Key) {
    x.Settle? && !x.verified && x.login in s.pending && k in Keys(s.pending[x.login])
  }

  /** The count of `k` that has not expired. */
  function Live(s: State, limit: nat, k: Key, at: nat): nat { Failures(Cleaned(s.table, at, limit), k) }

  /** The count the step arrives at, and whose delay it returns. */
  function Counted(s: State, limit: nat, x: Region, k: Key): nat
    requires Counts(s, x, k)
  {
    var p := s.pending[x.login];
    Failures(BothBumped(Cleaned(s.table, x.at, limit), p.user, p.source, x.at), k)
  }

  ghost predicate PassesFour(limit: nat, xs: seq<Region>, i: nat, k: Key) {
    i < |xs| && Counts(Reach(limit, xs[..i]), xs[i], k) && Counted(Reach(limit, xs[..i]), limit, xs[i], k) > 4
  }

  ghost predicate CountsAtFour(limit: nat, xs: seq<Region>, i: nat, k: Key) {
    i < |xs| && Counts(Reach(limit, xs[..i]), xs[i], k) && Live(Reach(limit, xs[..i]), limit, k, xs[i].at) == 4
  }

  lemma CleanedNeverMore(t: Table, at: nat, limit: nat, k: Key)
    requires Distinct(t)
    ensures Distinct(Cleaned(t, at, limit)) && Failures(Cleaned(t, at, limit), k) <= Failures(t, k)
  {
    hide Find;
    KeptIsDistinct(t, at);
    hide Kept;
    TrimmedFinds(Kept(t, at), limit, k);
  }

  lemma CountedIsOneMore(s: State, limit: nat, x: Region, k: Key)
    requires Distinct(s.table) && Counts(s, x, k)
    ensures Counted(s, limit, x, k) == Live(s, limit, k, x.at) + 1
  {
    hide Find, Cleaned, Bumped;
    CleanedNeverMore(s.table, x.at, limit, k);
    var p := s.pending[x.login];
    BothFindKeys(Cleaned(s.table, x.at, limit), p.user, p.source, x.at, k);
  }

  lemma BothFindKeys(t: Table, user: string, source: string, at: nat, k: Key)
    requires Distinct(t)
    ensures Distinct(BothBumped(t, user, source, at))
    ensures Failures(BothBumped(t, user, source, at), k)
         == if k in {User(user), Source(source)} then Failures(t, k) + 1 else Failures(t, k)
  {
    hide Find, Bumped;
    var mid := Bumped(t, User(user), at);
    BumpLeaves(t, User(user), at, k);
    BumpLeaves(t, User(user), at, Source(source));
    BumpLeaves(mid, Source(source), at, k);
  }

  /** What one region does to the count of a key: nothing raises it but counting a failure. */
  lemma StepCount(s: State, limit: nat, x: Region, k: Key)
    requires Distinct(s.table)
    ensures Distinct(Do(s, limit, x).table)
    ensures Failures(Do(s, limit, x).table, k) <=
            if Counts(s, x, k) then Max(Failures(s.table, k), Counted(s, limit, x, k)) else Failures(s.table, k)
  {
    hide Cleaned, BothBumped, Failures, Wait, Without;
    CleanedNeverMore(s.table, x.at, limit, k);
    if x.Settle? && x.login in s.pending {
      var p := s.pending[x.login];
      if x.verified {
        ClearedNeverMore(s.table, p.user, p.source, k);
      } else {
        var t := Cleaned(s.table, x.at, limit);
        BothFindKeys(t, p.user, p.source, x.at, k);
        CleanedNeverMore(BothBumped(t, p.user, p.source, x.at), x.at, limit, k);
      }
    }
  }

  lemma ClearedNeverMore(t: Table, user: string, source: string, k: Key)
    requires Distinct(t)
    ensures Distinct(Cleared(t, user, source)) && Failures(Cleared(t, user, source), k) <= Failures(t, k)
  {
    hide Find, Without;
    WithoutIsDistinct(t, User(user));
    WithoutIsDistinct(Without(t, User(user)), Source(source));
  }

  // ---------------------------------------------------------------- passing four, exactly

  /** As long as no count passed four, none is above four. */
  lemma {:induction false} NothingAboveFour(limit: nat, xs: seq<Region>, k: Key)
    requires forall i: nat | i < |xs| :: !PassesFour(limit, xs, i, k)
    ensures Distinct(Reach(limit, xs).table) && Failures(Reach(limit, xs).table, k) <= 4
  {
    if xs != [] {
      var n := |xs| - 1;
      hide Do, Counted, Live, Counts;
      forall i: nat | i < n ensures !PassesFour(limit, xs[..n], i, k) {
        assert xs[..n][..i] == xs[..i] && !PassesFour(limit, xs, i, k);
      }
      NothingAboveFour(limit, xs[..n], k);
      StepCount(Reach(limit, xs[..n]), limit, xs[n], k);
      assert !PassesFour(limit, xs, n, k);
    }
  }

  lemma {:induction false} ReachIsDistinct(limit: nat, xs: seq<Region>)
    ensures Distinct(Reach(limit, xs).table)
  {
    hide Do;
    if xs != [] {
      ReachIsDistinct(limit, xs[..|xs| - 1]);
      StepCount(Reach(limit, xs[..|xs| - 1]), limit, xs[|xs| - 1], User(""));
    }
  }

  /** Over every interleaving: a key's count passes four, so that the delay starts to double, if and only if
      some failure is counted for the key while its live count is already four. */
  lemma PassesFourIffCountedAtFour(limit: nat, xs: seq<Region>, k: Key)
    ensures (exists i: nat :: PassesFour(limit, xs, i, k)) <==> (exists i: nat :: CountsAtFour(limit, xs, i, k))
  {
    if i: nat :| CountsAtFour(limit, xs, i, k) {
      ReachIsDistinct(limit, xs[..i]);
      CountedIsOneMore(Reach(limit, xs[..i]), limit, xs[i], k);
      hide Counted, Live, Reach;
      assert PassesFour(limit, xs, i, k);
    }
    if i: nat :| PassesFour(limit, xs, i, k) {
      var first := FirstPass(limit, xs, i, k);
      assert CountsAtFour(limit, xs, first, k);
    }
  }

  /** The first count above four comes from four. */
  lemma {:induction false} FirstPass(limit: nat, xs: seq<Region>, i: nat, k: Key) returns (first: nat)
    requires PassesFour(limit, xs, i, k)
    ensures CountsAtFour(limit, xs, first, k)
    decreases i
  {
    hide Do, Counted, Live, Counts;
    if j: nat :| j < i && PassesFour(limit, xs, j, k) {
      first := FirstPass(limit, xs, j, k);
    } else {
      first := i;
      forall j: nat | j < i ensures !PassesFour(limit, xs[..i], j, k) {
        assert xs[..i][..j] == xs[..j] && !PassesFour(limit, xs, j, k);
      }
      NothingAboveFour(limit, xs[..i], k);
      var s := Reach(limit, xs[..i]);
      CountedIsOneMore(s, limit, xs[i], k);
      LiveIsNoMore(s, limit, k, xs[i].at);
    }
  }

  lemma LiveIsNoMore(s: State, limit: nat, k: Key, at: nat)
    requires Distinct(s.table)
    ensures Live(s, limit, k, at) <= Failures(s.table, k)
  {
    hide Cleaned, Failures;
    CleanedNeverMore(s.table, at, limit, k);
  }

  // ---------------------------------------------------------------- it takes an overlap

  /** A login that passed its check saw fewer than four failures, and sees more only if others were counted. */
  ghost predicate Fair(s: State) {
    && Distinct(s.table)
    && forall l, k | l in s.pending && k in Keys(s.pending[l]) ::
         k in s.pending[l].since || Failures(s.table, k) < 4
  }

  /** A check that passes finds fewer than four live failures. */
  lemma PassedCheckIsFew(t: Table, limit: nat, user: string, source: string, at: nat, k: Key)
    requires Distinct(t) && Wait(Cleaned(t, at, limit), user, source, at) == 0 && k in {User(user), Source(source)}
    ensures Failures(Cleaned(t, at, limit), k) < 4
  {
    hide Find, Kept, Trimmed;
    KeptIsDistinct(t, at);
    TrimmedFinds(Kept(t, at), limit, k);
  }

  lemma DoIsFair(s: State, limit: nat, x: Region)
    requires Fair(s)
    ensures Fair(Do(s, limit, x))
  {
    hide Cleaned, Failures, Wait, Counted, Failed, Cleared;
    var t := Do(s, limit, x);
    StepCount(s, limit, x, User(""));
    forall l, k | l in t.pending && k in Keys(t.pending[l])
      ensures k in t.pending[l].since || Failures(t.table, k) < 4
    {
      StepCount(s, limit, x, k);
      if l !in s.pending {
        PassedCheckIsFew(s.table, limit, x.user, SourceOf(x.remote), x.at, k);
      }
    }
  }

  lemma {:induction false} ReachIsFair(limit: nat, xs: seq<Region>)
    ensures Fair(Reach(limit, xs))
  {
    if xs != [] {
      hide Do, Fair;
      ReachIsFair(limit, xs[..|xs| - 1]);
      DoIsFair(Reach(limit, xs[..|xs| - 1]), limit, xs[|xs| - 1]);
    }
  }

  /** `j` counts a failure of another login for `k`, and `login` is pending from then until `i`. */
  ghost predicate Overlaps(limit: nat, xs: seq<Region>, j: nat, i: nat, login: nat, k: Key) {
    && j < i <= |xs| && Counts(Reach(limit, xs[..j]), xs[j], k) && xs[j].login != login
    && forall m: nat | j <= m <= i :: login in Reach(limit, xs[..m]).pending
  }

  /** The history says what it is for. */
  lemma {:induction false} SinceIsOverlap(limit: nat, xs: seq<Region>, login: nat, k: Key) returns (j: nat)
    requires var s := Reach(limit, xs); login in s.pending && k in s.pending[login].since
    ensures Overlaps(limit, xs, j, |xs|, login, k)
  {
    hide Do, Counts, Overlaps, Keys;
    if xs == [] {
      assert false;
    } else {
      var n := |xs| - 1;
      assert Reach(limit, xs) == Do(Reach(limit, xs[..n]), limit, xs[n]);
      hide Reach;
      var s := Reach(limit, xs[..n]);
      SinceSource(s, limit, xs[n], login, k);
      if k in s.pending[login].since {
        j := SinceIsOverlap(limit, xs[..n], login, k);
        OverlapGoesOn(limit, xs, j, login, k);
      } else {
        j := n;
        OverlapBegins(limit, xs, login, k);
      }
    }
  }

  lemma OverlapGoesOn(limit: nat, xs: seq<Region>, j: nat, login: nat, k: Key)
    requires xs != [] && Overlaps(limit, xs[..|xs| - 1], j, |xs| - 1, login, k) && login in Reach(limit, xs).pending
    ensures Overlaps(limit, xs, j, |xs|, login, k)
  {
    hide Reach, Counts;
    var n := |xs| - 1;
    assert xs[..|xs|] == xs && xs[..n][..j] == xs[..j];
    forall m: nat | j <= m <= |xs| ensures login in Reach(limit, xs[..m]).pending {
      if m <= n {
        assert xs[..n][..m] == xs[..m];
      }
    }
  }

  lemma OverlapBegins(limit: nat, xs: seq<Region>, login: nat, k: Key)
    requires xs != [] && login in Reach(limit, xs).pending && login in Reach(limit, xs[..|xs| - 1]).pending
    requires Counts(Reach(limit, xs[..|xs| - 1]), xs[|xs| - 1], k) && xs[|xs| - 1].login != login
    ensures Overlaps(limit, xs, |xs| - 1, |xs|, login, k)
  {
    hide Reach, Counts;
    assert xs[..|xs|] == xs;
  }

  lemma SinceSource(s: State, limit: nat, x: Region, login: nat, k: Key)
    requires var t := Do(s, limit, x); login in t.pending && k in t.pending[login].since
    ensures login in s.pending
    ensures k in s.pending[login].since || (Counts(s, x, k) && x.login != login)
  {
    hide Cleaned, Wait, Failed, Cleared;
  }

  /** A failure is counted at four only if logins overlap: between the check of that login and its count,
      another login's failure was counted for the same key. */
  lemma CountingAtFourOverlaps(limit: nat, xs: seq<Region>, i: nat, k: Key) returns (j: nat)
    requires CountsAtFour(limit, xs, i, k)
    ensures Overlaps(limit, xs, j, i, xs[i].login, k)
  {
    hide Reach, Cleaned, Failures;
    var s := Reach(limit, xs[..i]);
    ReachIsFair(limit, xs[..i]);
    LiveIsNoMore(s, limit, k, xs[i].at);
    j := SinceIsOverlap(limit, xs[..i], xs[i].login, k);
    assert forall m: nat | m <= i :: xs[..i][..m] == xs[..m];
  }

  // ---------------------------------------------------------------- and an overlap suffices

  function Checks(user: string, remote: string, now: nat, n: nat): seq<Region> {
    if n == 0 then [] else Checks(user, remote, now, n - 1) + [Check(n - 1, user, remote, now)]
  }

  function Settles(user: string, remote: string, now: nat, n: nat): seq<Region> {
    if n == 0 then Checks(user, remote, now, 5) else Settles(user, remote, now, n - 1) + [Settle(n - 1, false, now)]
  }

  /** Logins `from` to 4 wait to be settled. */
  ghost predicate Waiting(s: State, user: string, remote: string, from_: nat, to_: nat) {
    && (forall l :: l in s.pending <==> from_ <= l < to_)
    && forall l | l in s.pending :: s.pending[l].user == user && s.pending[l].source == SourceOf(remote)
  }

  lemma ReachOneMore(limit: nat, xs: seq<Region>, x: Region)
    ensures Reach(limit, xs + [x]) == Do(Reach(limit, xs), limit, x)
  {
    hide Do;
    assert (xs + [x])[..|xs|] == xs;
  }

  lemma {:induction false} ChecksPass(user: string, remote: string, now: nat, limit: nat, n: nat)
    ensures var s := Reach(limit, Checks(user, remote, now, n)); s.table == [] && Waiting(s, user, remote, 0, n)
  {
    hide Reach, Do, Waiting;
    if n == 0 {
      NothingYet(user, remote, limit);
    } else {
      var xs := Checks(user, remote, now, n - 1);
      ChecksPass(user, remote, now, limit, n - 1);
      ReachOneMore(limit, xs, Check(n - 1, user, remote, now));
      OneCheck(Reach(limit, xs), user, remote, now, limit, n - 1);
    }
  }

  lemma NothingYet(user: string, remote: string, limit: nat)
    ensures Reach(limit, []).table == [] && Waiting(Reach(limit, []), user, remote, 0, 0)
  {
  }

  lemma OneCheck(s: State, user: string, remote: string, now: nat, limit: nat, n: nat)
    requires s.table == [] && Waiting(s, user, remote, 0, n)
    ensures var t := Do(s, limit, Check(n, user, remote, now)); t.table == [] && Waiting(t, user, remote, 0, n + 1)
  {
    assert Cleaned([], now, limit) == [] && Wait([], user, SourceOf(remote), now) == 0;
    hide Cleaned, Wait;
  }

  lemma OneSettle(s: State, user: string, remote: string, now: nat, limit: nat, n: nat)
    requires n < 5 && Waiting(s, user, remote, n, 5)
    ensures var t := Do(s, limit, Settle(n, false, now));
            t.table == Failed(s.table, user, SourceOf(remote), now, limit) && Waiting(t, user, remote, n + 1, 5)
  {
    hide Failed;
  }

  lemma {:induction false} SettlesCount(user: string, remote: string, now: nat, limit: nat, n: nat)
    requires limit >= 2 && n <= 5
    ensures var s := Reach(limit, Settles(user, remote, now, n));
            s.table == Pair(user, SourceOf(remote), n, now + 1000 * Delay(n)) && Waiting(s, user, remote, n, 5)
  {
    hide Reach, Do, Waiting, Checks, Delay, Failed;
    if n == 0 {
      ChecksPass(user, remote, now, limit, 5);
    } else {
      hide Pair;
      var xs := Settles(user, remote, now, n - 1);
      SettlesCount(user, remote, now, limit, n - 1);
      ReachOneMore(limit, xs, Settle(n - 1, false, now));
      var s := Reach(limit, xs);
      OneSettle(s, user, remote, now, limit, n - 1);
      var t := FailedPair(s.table, user, SourceOf(remote), now, limit, n - 1);
    }
  }

  /** Five logins that all pass their check before the first is counted reach the fifth failure and a pause
      of ten seconds. */
  lemma OverlapPassesFour(user: string, remote: string, now: nat, limit: nat) returns (xs: seq<Region>)
    requires limit >= 2
    ensures var s := Reach(limit, xs);
            && (forall x | x in xs :: x.at == now)
            && Failures(s.table, User(user)) == 5 && RetryAt(s.table, User(user)) == now + 10000
  {
    xs := Settles(user, remote, now, 5);
    SettlesCount(user, remote, now, limit, 5);
    AllAtNow(user, remote, now, 5);
    assert Power(1) == 2 * Power(0);
    hide Reach, Settles;
  }

  lemma {:induction false} AllAtNow(user: string, remote: string, now: nat, n: nat)
    ensures forall x | x in Checks(user, remote, now, n) :: x.at == now
    ensures forall x | x in Settles(user, remote, now, n) :: x.at == now
  {
    if n > 0 {
      AllAtNow(user, remote, now, n - 1);
    } else {
      AllChecksAtNow(user, remote, now, 5);
    }
  }

  lemma {:induction false} AllChecksAtNow(user: string, remote: string, now: nat, n: nat)
    ensures forall x | x in Checks(user, remote, now, n) :: x.at == now
  {
    if n > 0 {
      AllChecksAtNow(user, remote, now, n - 1);
    }
  }

  function Pair(user: string, source: string, n: nat, at: nat): Table {
    if n == 0 then [] else [Item(User(user), n, at), Item(Source(source), n, at)]
  }

  lemma FailedPair(t: Table, user: string, source: string, now: nat, limit: nat, n: nat) returns (t1: Table)
    requires limit >= 2 && n < 5 && t == Pair(user, source, n, now + 1000 * Delay(n))
    ensures t1 == Failed(t, user, source, now, limit)
    ensures t1 == Pair(user, source, n + 1, now + 1000 * Delay(n + 1))
  {
    t1 := Failed(t, user, source, now, limit);
    var x, y := Item(User(user), n + 1, now + 1000 * Delay(n + 1)),
                Item(Source(source), n + 1, now + 1000 * Delay(n + 1));
    assert Delay(4) == 5 && Delay(5) == 10 by {
      assert Power(0) == 1 && Power(1) == 2 * Power(0);
    }
    AllKept(t, now);
    PairBumped(t, user, source, n, now);
    AllKept([x, y], now);
  }

  lemma PairBumped(t: Table, user: string, source: string, n: nat, now: nat)
    requires t == Pair(user, source, n, now + 1000 * Delay(n))
    ensures BothBumped(t, user, source, now)
         == [Item(User(user), n + 1, now + 1000 * Delay(n + 1)), Item(Source(source), n + 1, now + 1000 * Delay(n + 1))]
  {
    hide Delay;
    if n > 0 {
      var x := Item(User(user), n + 1, now + 1000 * Delay(n + 1));
      assert t[1..] == [t[1]] && t[1..][1..] == [];
      assert Find(t, User(user)) == Some(t[0]);
      assert Without(t, User(user)) == [t[1]] by {
        AllStay([t[1]], User(user));
      }
      var mid := [t[1], x];
      assert Bumped(t, User(user), now) == mid;
      assert mid[1..] == [x];
      assert Find(mid, Source(source)) == Some(t[1]);
      AllStay([x], Source(source));
      assert Without(mid, Source(source)) == [x];
    } else {
      var x := Item(User(user), 1, now + 1000 * Delay(1));
      assert Bumped(t, User(user), now) == [x];
      AllStay([x], Source(source));
      assert Find([x], Source(source)).None?;
    }
  }
}
