/** How fast one username can be tried: sequential logins on a clock that does not run backwards. */
module ThrottleBound {
  import opened Wrappers
  import opened Throttle

  /** The table with a history: for each username the times of its failed verifications since its last
      success, and since its entry was last evicted to keep the table small. */
  datatype Sys = Sys(table: Table, clock: nat, streaks: map<string, seq<nat>>) {
    function Streak(user: string): seq<nat> { Lookup(streaks, user).GetOr([]) }
  }

  /** The table after both failures were counted, before the oldest entries are evicted. */
  function Full(t: Table, limit: nat, a: Attempt): Table {
    Kept(BothBumped(Cleaned(Cleaned(t, a.at, limit), a.Later(), limit), a.user, a.Source(), a.Later()), a.Later())
  }

  predicate Evicted(t: Table, limit: nat, user: string) {
    Find(t, User(user)).Some? && Find(Trimmed(t, limit), User(user)).None?
  }

  function Step(s: Sys, limit: nat, a: Attempt): Sys {
    var (t, out) := TryLogin(s.table, limit, a);
    var streaks := match out
      case Refused => s.streaks
      case Accepted => s.streaks - {a.user}
      case Rejected =>
        var extended := s.streaks[a.user := s.Streak(a.user) + [a.Later()]];
        map v | v in extended && !Evicted(Full(s.table, limit, a), limit, v) :: extended[v];
    Sys(t, a.Later(), streaks)
  }

  function Run(s: Sys, limit: nat, attempts: seq<Attempt>): Sys
    decreases |attempts|
  {
    if attempts == [] then s else Run(Step(s, limit, attempts[0]), limit, attempts[1..])
  }

  const EMPTY := Sys([], 0, map[])

  predicate Ordered(clock: nat, attempts: seq<Attempt>)
    decreases |attempts|
  {
    attempts == [] || (clock <= attempts[0].at && Ordered(attempts[0].Later(), attempts[1..]))
  }

  // ---------------------------------------------------------------- the invariant

  /** After every fourth failure there is a pause of five seconds. */
  predicate Spaced(k: seq<nat>) { forall i | 0 <= i < |k| - 1 && i % 4 == 3 :: k[i] + 5000 <= k[i + 1] }

  ghost predicate EntryFits(x: Option<Item>, clock: nat) {
    x.Some? ==> 1 <= x.value.failures <= 4
                && x.value.retryAt <= clock + (if x.value.failures == 4 then 5000 else 0)
  }

  ghost predicate StreakFits(x: Option<Item>, k: seq<nat>, clock: nat) {
    && NonDecreasing(k) && Spaced(k) && (k != [] ==> k[|k| - 1] <= clock)
    && match x
       case Some(e) => k != [] && e.failures == (|k| - 1) % 4 + 1
                       && e.retryAt == k[|k| - 1] + (if e.failures == 4 then 5000 else 0)
       case None => |k| % 4 == 0 && (k != [] ==> k[|k| - 1] + 5000 <= clock)
  }

  ghost predicate Fits(s: Sys, limit: nat) {
    && Distinct(s.table) && |s.table| <= limit
    && (forall k :: EntryFits(Find(s.table, k), s.clock))
    && (forall u :: StreakFits(Find(s.table, User(u)), s.Streak(u), s.clock))
  }

  // ---------------------------------------------------------------- what the table operations find

  function Alive(x: Option<Item>, now: nat): Option<Item> { if x.Some? && Expired(x.value, now) then None else x }

  lemma {:induction false} KeptIsSmaller(t: Table, now: nat)
    ensures |Kept(t, now)| <= |t|
  {
    if t != [] {
      KeptIsSmaller(t[1..], now);
    }
  }

  /** A table within its limit is only rid of expired entries. */
  lemma CleanedFinds(t: Table, now: nat, limit: nat)
    requires Distinct(t) && |t| <= limit
    ensures var t1 := Cleaned(t, now, limit);
            Distinct(t1) && |t1| <= limit && forall k :: Find(t1, k) == Alive(Find(t, k), now)
  {
    KeptIsSmaller(t, now);
    KeptIsDistinct(t, now);
  }

  /** A login that is not refused finds fewer than four failures for its username and for its source. */
  lemma FewFailures(t: Table, limit: nat, a: Attempt, k: Key)
    requires Distinct(t) && |t| <= limit && EntryFits(Find(t, k), a.at)
    requires Wait(Cleaned(t, a.at, limit), a.user, a.Source(), a.at) == 0
    requires k == User(a.user) || k == Source(a.Source())
    ensures Failures(Cleaned(t, a.at, limit), k) < 4
  {
    CleanedFinds(t, a.at, limit);
    hide Cleaned, Find;
  }

  lemma FullFinds(t: Table, limit: nat, a: Attempt, k: Key)
    requires Distinct(t) && |t| <= limit && EntryFits(Find(t, k), a.at)
    requires Wait(Cleaned(t, a.at, limit), a.user, a.Source(), a.at) == 0
    ensures var full := Full(t, limit, a);
            var n := Failures(Cleaned(t, a.at, limit), k) + 1;
            && Distinct(full)
            && Find(full, k) == if k == User(a.user) || k == Source(a.Source())
                                then Some(Item(k, n, a.Later() + 1000 * Delay(n)))
                                else Alive(Find(t, k), a.Later())
  {
    hide Cleaned, Find, Distinct, Delay, Wait, BothBumped, Kept, EntryFits;
    var t2 := Cleaned(Cleaned(t, a.at, limit), a.Later(), limit);
    var last := BothBumped(t2, a.user, a.Source(), a.Later());
    SecondFinds(t, limit, a, k);
    BothFind(t2, a, k);
    LastFinds(last, a.Later(), k);
    DelayIsPositive(Max(4, Failures(t2, k) + 1));
    assert Full(t, limit, a) == Kept(last, a.Later());
  }

  lemma LastFinds(t: Table, now: nat, k: Key)
    requires Distinct(t)
    ensures Distinct(Kept(t, now)) && Find(Kept(t, now), k) == Alive(Find(t, k), now)
  {
    KeptIsDistinct(t, now);
  }

  /** What the second cleanup leaves when some time has passed. */
  lemma SecondFinds(t: Table, limit: nat, a: Attempt, k: Key)
    requires Distinct(t) && |t| <= limit && EntryFits(Find(t, k), a.at)
    requires Wait(Cleaned(t, a.at, limit), a.user, a.Source(), a.at) == 0
    ensures var t1 := Cleaned(t, a.at, limit);
            var t2 := Cleaned(t1, a.Later(), limit);
            && Distinct(t2)
            && Find(t2, k) == (if k == User(a.user) || k == Source(a.Source()) then Find(t1, k)
                               else Alive(Find(t, k), a.Later()))
  {
    var t1 := Cleaned(t, a.at, limit);
    if k == User(a.user) || k == Source(a.Source()) {
      FewFailures(t, limit, a, k);
    }
    CleanedFinds(t, a.at, limit);
    CleanedFinds(t1, a.Later(), limit);
    hide Cleaned, Find, Distinct, Wait;
  }

  lemma BothFind(t: Table, a: Attempt, k: Key)
    requires Distinct(t)
    ensures var last := BothBumped(t, a.user, a.Source(), a.Later());
            var n := Failures(t, k) + 1;
            && Distinct(last)
            && Find(last, k) == if k == User(a.user) || k == Source(a.Source())
                                then Some(Item(k, n, a.Later() + 1000 * Delay(n))) else Find(t, k)
  {
    hide Find, Bumped, Delay, Distinct;
    var mid := Bumped(t, User(a.user), a.Later());
    BumpLeaves(t, User(a.user), a.Later(), k);
    BumpLeaves(t, User(a.user), a.Later(), Source(a.Source()));
    BumpLeaves(mid, Source(a.Source()), a.Later(), k);
  }

  lemma {:induction false} PowerIsPositive(n: nat)
    ensures Power(n) >= 1
  {
    if n > 0 {
      PowerIsPositive(n - 1);
    }
  }

  lemma DelayIsPositive(n: nat)
    requires n >= 4
    ensures 5 <= Delay(n) <= 60
  {
    PowerIsPositive(n - 4);
  }

  // ---------------------------------------------------------------- every step keeps the invariant

  lemma RefusedFits(s: Sys, limit: nat, a: Attempt)
    requires Fits(s, limit) && s.clock <= a.at
    ensures Fits(Sys(Cleaned(s.table, a.at, limit), a.Later(), s.streaks), limit)
  {
    hide Cleaned, Find, Distinct, StreakFits, EntryFits;
    CleanedFinds(s.table, a.at, limit);
    forall k ensures EntryFits(Find(Cleaned(s.table, a.at, limit), k), a.Later()) {
      assert EntryFits(Find(s.table, k), s.clock);
      EntryWaits(Find(s.table, k), s.clock, a.at, a.Later());
    }
    forall u ensures StreakFits(Find(Cleaned(s.table, a.at, limit), User(u)), s.Streak(u), a.Later()) {
      StreakWaits(Find(s.table, User(u)), s.Streak(u), s.clock, a.at, a.Later());
    }
  }

  lemma EntryWaits(x: Option<Item>, clock: nat, at: nat, later: nat)
    requires clock <= at <= later && EntryFits(x, clock)
    ensures EntryFits(Alive(x, at), later)
  {
  }

  lemma StreakWaits(x: Option<Item>, k: seq<nat>, clock: nat, at: nat, later: nat)
    requires clock <= at <= later && StreakFits(x, k, clock)
    ensures StreakFits(Alive(x, at), k, later)
  {
  }

  lemma AcceptedFits(s: Sys, limit: nat, a: Attempt)
    requires Fits(s, limit) && s.clock <= a.at
    ensures Fits(Sys(Cleared(Cleaned(s.table, a.at, limit), a.user, a.Source()), a.Later(), s.streaks - {a.user}),
                 limit)
  {
    hide Cleaned, Find, Distinct, StreakFits, EntryFits, Without;
    RefusedFits(s, limit, a);
    var t := Cleaned(s.table, a.at, limit);
    var u1 := Without(t, User(a.user));
    WithoutIsDistinct(t, User(a.user));
    WithoutIsDistinct(u1, Source(a.Source()));
    WithoutIsSmaller(t, User(a.user));
    WithoutIsSmaller(u1, Source(a.Source()));
    var after := Sys(Without(u1, Source(a.Source())), a.Later(), s.streaks - {a.user});
    forall k ensures EntryFits(Find(after.table, k), a.Later()) {
      assert EntryFits(Find(t, k), a.Later());
      NothingFits(a.Later());
    }
    forall u ensures StreakFits(Find(after.table, User(u)), after.Streak(u), a.Later()) {
      assert StreakFits(Find(t, User(u)), s.Streak(u), a.Later());
      NothingFits(a.Later());
    }
  }

  lemma NothingFits(clock: nat)
    ensures EntryFits(None, clock) && StreakFits(None, [], clock)
  {
  }

  lemma {:induction false} WithoutIsSmaller(t: Table, k: Key)
    ensures |Without(t, k)| <= |t|
  {
    if t != [] {
      WithoutIsSmaller(t[1..], k);
    }
  }

  lemma RejectedFits(s: Sys, limit: nat, a: Attempt)
    requires Fits(s, limit) && s.clock <= a.at && TryLogin(s.table, limit, a).1 == Rejected
    ensures Fits(Step(s, limit, a), limit)
  {
    hide Cleaned, Find, Distinct, StreakFits, EntryFits, Full, Trimmed, Wait, Delay;
    var t := s.table;
    var full := Full(t, limit, a);
    var after := Step(s, limit, a);
    assert after.table == Trimmed(full, limit) by {
      FailedIsTrimmed(t, limit, a);
    }
    forall k ensures EntryFits(Find(full, k), a.Later()) && Distinct(full) {
      RejectedEntry(s, limit, a, k);
    }
    forall k ensures |after.table| <= limit && Distinct(after.table) && EntryFits(Find(after.table, k), a.Later()) {
      TrimmedFinds(full, limit, k);
      NothingFits(a.Later());
    }
    assert EntryFits(Find(after.table, User("")), a.Later());
    forall u ensures StreakFits(Find(after.table, User(u)), after.Streak(u), a.Later()) {
      RejectedStreak(s, limit, a, u);
      TrimmedFinds(full, limit, User(u));
      NothingFits(a.Later());
    }
  }

  lemma FailedIsTrimmed(t: Table, limit: nat, a: Attempt)
    ensures Failed(Cleaned(t, a.at, limit), a.user, a.Source(), a.Later(), limit) == Trimmed(Full(t, limit, a), limit)
  {
    hide Kept, BothBumped, Trimmed;
  }

  lemma RejectedEntry(s: Sys, limit: nat, a: Attempt, k: Key)
    requires Fits(s, limit) && s.clock <= a.at && TryLogin(s.table, limit, a).1 == Rejected
    ensures Distinct(Full(s.table, limit, a)) && EntryFits(Find(Full(s.table, limit, a), k), a.Later())
  {
    hide Cleaned, Find, Distinct, StreakFits, Full, Wait;
    assert EntryFits(Find(s.table, k), s.clock);
    FullFinds(s.table, limit, a, k);
    if k == User(a.user) || k == Source(a.Source()) {
      FewFailures(s.table, limit, a, k);
      assert Power(0) == 1;
    }
  }

  /** The streak of a username after a rejected login, before anything is evicted. */
  lemma RejectedStreak(s: Sys, limit: nat, a: Attempt, u: string)
    requires Fits(s, limit) && s.clock <= a.at && TryLogin(s.table, limit, a).1 == Rejected
    ensures StreakFits(Find(Full(s.table, limit, a), User(u)),
                       if u == a.user then s.Streak(u) + [a.Later()] else s.Streak(u), a.Later())
  {
    hide Cleaned, Find, Distinct, StreakFits, EntryFits, Full, Wait, Delay;
    assert EntryFits(Find(s.table, User(u)), s.clock) && StreakFits(Find(s.table, User(u)), s.Streak(u), s.clock);
    EntryWaits(Find(s.table, User(u)), s.clock, a.at, a.at);
    EntryLater(Find(s.table, User(u)), s.clock, a.at);
    FullFinds(s.table, limit, a, User(u));
    if u == a.user {
      FewFailures(s.table, limit, a, User(u));
      CleanedFinds(s.table, a.at, limit);
      Extends(Find(s.table, User(u)), s.Streak(u), s.clock, a.at, a.Later(), User(u));
    } else {
      StreakWaits(Find(s.table, User(u)), s.Streak(u), s.clock, a.Later(), a.Later());
    }
  }

  lemma EntryLater(x: Option<Item>, clock: nat, at: nat)
    requires clock <= at && EntryFits(x, clock)
    ensures EntryFits(x, at)
  {
  }

  /** One more failure extends a streak: after a multiple of four the entry had expired, so five seconds
      had passed. */
  lemma Extends(x: Option<Item>, k: seq<nat>, clock: nat, at: nat, later: nat, key: Key)
    requires clock <= at <= later && StreakFits(x, k, clock)
    requires var y := Alive(x, at); y.Some? ==> y.value.failures < 4
    ensures var y := Alive(x, at);
            var n := (if y.Some? then y.value.failures else 0) + 1;
            StreakFits(Some(Item(key, n, later + 1000 * Delay(n))), k + [later], later)
  {
    assert Delay(4) == 5 by {
      assert Power(0) == 1;
    }
    var y := Alive(x, at);
    assert y.None? ==> |k| % 4 == 0 && (k != [] ==> k[|k| - 1] + 5000 <= later);
    assert y.Some? ==> |k| % 4 == y.value.failures;
    assert k != [] ==> k[|k| - 1] <= later;
    assert NonDecreasing(k) && Spaced(k);
    hide Power, Expired, Alive;
    LongerStreak(k, later);
    hide NonDecreasing, Spaced;
  }

  lemma LongerStreak(k: seq<nat>, later: nat)
    requires NonDecreasing(k) && Spaced(k) && (k != [] ==> k[|k| - 1] <= later)
    requires |k| % 4 == 0 && k != [] ==> k[|k| - 1] + 5000 <= later
    ensures NonDecreasing(k + [later]) && Spaced(k + [later])
  {
  }

  lemma StepFits(s: Sys, limit: nat, a: Attempt)
    requires Fits(s, limit) && s.clock <= a.at
    ensures Fits(Step(s, limit, a), limit)
  {
    hide Fits, Cleaned, Failed, Cleared, Wait, Full;
    match TryLogin(s.table, limit, a).1
    case Refused => RefusedFits(s, limit, a);
    case Accepted => AcceptedFits(s, limit, a);
    case Rejected => RejectedFits(s, limit, a);
  }

  lemma {:induction false} RunFits(s: Sys, limit: nat, attempts: seq<Attempt>)
    requires Fits(s, limit) && Ordered(s.clock, attempts)
    ensures Fits(Run(s, limit, attempts), limit)
    decreases |attempts|
  {
    hide Fits;
    if attempts != [] {
      StepFits(s, limit, attempts[0]);
      RunFits(Step(s, limit, attempts[0]), limit, attempts[1..]);
    }
  }

  lemma EmptyFits(limit: nat)
    ensures Fits(EMPTY, limit)
  {
  }

  // ---------------------------------------------------------------- the theorems

  /** Any five consecutive failed verifications of one username span five seconds, whatever else is
      going on, unless a success or an eviction comes between them. */
  lemma FiveFailuresTakeFiveSeconds(limit: nat, attempts: seq<Attempt>, user: string, i: nat)
    requires Ordered(0, attempts) && i + 4 < |Run(EMPTY, limit, attempts).Streak(user)|
    ensures var k := Run(EMPTY, limit, attempts).Streak(user); k[i] + 5000 <= k[i + 4]
  {
    hide Run, Find, NonDecreasing, Spaced;
    EmptyFits(limit);
    RunFits(EMPTY, limit, attempts);
    var s := Run(EMPTY, limit, attempts);
    assert StreakFits(Find(s.table, User(user)), s.Streak(user), s.clock);
    FiveSpan(s.Streak(user), i);
  }

  lemma FiveSpan(k: seq<nat>, i: nat)
    requires NonDecreasing(k) && Spaced(k) && i + 4 < |k|
    ensures k[i] + 5000 <= k[i + 4]
  {
    var pause := if i % 4 == 0 then i + 3 else if i % 4 == 1 then i + 2 else if i % 4 == 2 then i + 1 else i;
    assert pause % 4 == 3;
    assert k[i] <= k[pause] && k[pause] + 5000 <= k[pause + 1] && k[pause + 1] <= k[i + 4];
  }

  lemma TableStaysWithinLimit(limit: nat, attempts: seq<Attempt>)
    requires Ordered(0, attempts)
    ensures |Run(EMPTY, limit, attempts).table| <= limit && Distinct(Run(EMPTY, limit, attempts).table)
  {
    EmptyFits(limit);
    RunFits(EMPTY, limit, attempts);
  }

  /** With logins one after the other no count passes four, so no
      wait is longer than five seconds: the doubling of the delay is never reached. */
  lemma CountsStopAtFour(limit: nat, attempts: seq<Attempt>, x: Item)
    requires Ordered(0, attempts) && x in Run(EMPTY, limit, attempts).table
    ensures x.failures <= 4 && Delay(x.failures) <= 5 && x.retryAt <= Run(EMPTY, limit, attempts).clock + 5000
  {
    EmptyFits(limit);
    RunFits(EMPTY, limit, attempts);
    hide Run;
    var s := Run(EMPTY, limit, attempts);
    FoundWhereItIs(s.table, x);
    assert EntryFits(Find(s.table, x.key), s.clock);
    assert Power(0) == 1;
  }

  lemma {:induction false} FoundWhereItIs(t: Table, x: Item)
    requires Distinct(t) && x in t
    ensures Find(t, x.key) == Some(x)
  {
    if t[0] != x {
      assert x in t[1..];
      FoundWhereItIs(t[1..], x);
    }
  }

  /** In any reachable state a login is refused exactly while its username or its source has four failures
      whose pause is not over. */
  lemma RefusedWhilePaused(limit: nat, attempts: seq<Attempt>, a: Attempt)
    requires Ordered(0, attempts + [a])
    ensures var s := Run(EMPTY, limit, attempts);
            TryLogin(s.table, limit, a).1 == Refused <==>
              exists k | k in {User(a.user), Source(a.Source())} ::
                Failures(s.table, k) == 4 && RetryAt(s.table, k) > a.at
  {
    EmptyFits(limit);
    OrderedPrefix(0, attempts, a);
    RunFits(EMPTY, limit, attempts);
    hide Run;
    var s := Run(EMPTY, limit, attempts);
    RunClock(EMPTY, limit, attempts, a);
    hide Find, Cleaned, Distinct, StreakFits, EntryFits;
    PausedKey(s, limit, User(a.user), a.at);
    PausedKey(s, limit, Source(a.Source()), a.at);
    hide Fits, RetryAt, Failures;
    var t1 := Cleaned(s.table, a.at, limit);
    var at := Max(RetryAt(t1, User(a.user)), RetryAt(t1, Source(a.Source())));
    assert Wait(t1, a.user, a.Source(), a.at) > 0 <==> at > a.at;
    assert User(a.user) in {User(a.user), Source(a.Source())}
           && Source(a.Source()) in {User(a.user), Source(a.Source())};
    hide Wait;
  }

  lemma PausedKey(s: Sys, limit: nat, k: Key, at: nat)
    requires Fits(s, limit) && s.clock <= at
    ensures RetryAt(Cleaned(s.table, at, limit), k) > at <==> Failures(s.table, k) == 4 && RetryAt(s.table, k) > at
  {
    hide Find, Cleaned, Distinct, StreakFits;
    CleanedFinds(s.table, at, limit);
    assert EntryFits(Find(s.table, k), s.clock);
  }

  lemma {:induction false} OrderedPrefix(clock: nat, attempts: seq<Attempt>, a: Attempt)
    requires Ordered(clock, attempts + [a])
    ensures Ordered(clock, attempts)
    decreases |attempts|
  {
    if attempts != [] {
      assert (attempts + [a])[1..] == attempts[1..] + [a];
      OrderedPrefix(attempts[0].Later(), attempts[1..], a);
    }
  }

  lemma {:induction false} RunClock(s: Sys, limit: nat, attempts: seq<Attempt>, a: Attempt)
    requires Ordered(s.clock, attempts + [a])
    ensures Run(s, limit, attempts).clock <= a.at
    decreases |attempts|
  {
    hide TryLogin;
    if attempts != [] {
      assert (attempts + [a])[1..] == attempts[1..] + [a];
      RunClock(Step(s, limit, attempts[0]), limit, attempts[1..], a);
    }
  }

  // ---------------------------------------------------------------- evictions are needed as an exception

  /** Failing logins, all at one moment. */
  function Failing(users: seq<string>, remotes: seq<string>): seq<Attempt>
    requires |users| == |remotes|
  {
    seq(|users|, i requires 0 <= i < |users| => Attempt(users[i], remotes[i], 0, 0, false))
  }

  predicate NoneRefused(s: Sys, limit: nat, attempts: seq<Attempt>)
    decreases |attempts|
  {
    attempts == [] || (TryLogin(s.table, limit, attempts[0]).1 == Rejected
                       && NoneRefused(Step(s, limit, attempts[0]), limit, attempts[1..]))
  }

  /** Between two logins of one username, or from one source, there are enough others to evict the first.
      With room for one entry the username may be the same each time. */
  predicate Spread(limit: nat, users: seq<string>, remotes: seq<string>) {
    && |users| == |remotes|
    && (forall i, j | 0 <= i < j < |users| && users[i] == users[j] :: 2 * (j - i - 1) + 1 >= limit)
    && (forall i, j | 0 <= i < j < |users| && SourceOf(remotes[i]) == SourceOf(remotes[j]) :: 2 * (j - i - 1) >= limit)
  }

  /** The entries of the first `m` logins, if none was ever evicted. */
  function Entries(users: seq<string>, remotes: seq<string>, m: nat): Table
    requires m <= |users| == |remotes|
  {
    if m == 0 then [] else Entries(users, remotes, m - 1) + Two(users[m - 1], remotes[m - 1])
  }

  function Two(user: string, remote: string): Table { [Item(User(user), 1, 0), Item(Source(SourceOf(remote)), 1, 0)] }

  lemma {:induction false} EntryAt(users: seq<string>, remotes: seq<string>, m: nat, p: nat) returns (i: nat)
    requires m <= |users| == |remotes| && p < 2 * m
    ensures i < m && |Entries(users, remotes, m)| == 2 * m && 2 * i <= p <= 2 * i + 1
    ensures Entries(users, remotes, m)[p] == Two(users[i], remotes[i])[p - 2 * i]
  {
    EntriesLength(users, remotes, m - 1);
    if p < 2 * (m - 1) {
      i := EntryAt(users, remotes, m - 1, p);
    } else {
      i := m - 1;
    }
  }

  lemma {:induction false} EntriesLength(users: seq<string>, remotes: seq<string>, m: nat)
    requires m <= |users| == |remotes|
    ensures |Entries(users, remotes, m)| == 2 * m
  {
    if m > 0 {
      EntriesLength(users, remotes, m - 1);
    }
  }

  /** Evictions forget counts: whatever the limit, logins that come back only after enough others fail as
      often as they like at one moment; none is ever refused, and no count ever passes one. */
  lemma EvictionForgetsFailures(limit: nat, users: seq<string>, remotes: seq<string>)
    requires Spread(limit, users, remotes)
    ensures var attempts := Failing(users, remotes);
            && NoneRefused(EMPTY, limit, attempts) && Run(EMPTY, limit, attempts).clock == 0
            && forall x | x in Run(EMPTY, limit, attempts).table :: x.failures == 1
  {
    assert Failing(users, remotes)[0..] == Failing(users, remotes);
    KeepsForgetting(EMPTY, limit, users, remotes, 0);
  }

  lemma {:induction false} KeepsForgetting(s: Sys, limit: nat, users: seq<string>, remotes: seq<string>, m: nat)
    requires Spread(limit, users, remotes) && m <= |users|
    requires s.table == Trimmed(Entries(users, remotes, m), limit) && s.clock == 0
    ensures var attempts := Failing(users, remotes)[m..];
            && NoneRefused(s, limit, attempts) && Run(s, limit, attempts).clock == 0
            && forall x | x in Run(s, limit, attempts).table :: x.failures == 1
    decreases |users| - m
  {
    var attempts := Failing(users, remotes)[m..];
    if m == |users| {
      AllOnce(users, remotes, m);
      TrimmedIsPart(Entries(users, remotes, m), limit);
      hide Step, TryLogin, Spread, Trimmed, Entries;
    } else {
      NextForgets(s, limit, users, remotes, m);
      RestOf(Failing(users, remotes), m);
      hide Step, TryLogin, Spread, Trimmed, Entries, Failing;
      KeepsForgetting(Step(s, limit, attempts[0]), limit, users, remotes, m + 1);
    }
  }

  lemma RestOf(attempts: seq<Attempt>, m: nat)
    requires m < |attempts|
    ensures attempts[m..][0] == attempts[m] && attempts[m..][1..] == attempts[m + 1..]
  {
  }

  lemma NextForgets(s: Sys, limit: nat, users: seq<string>, remotes: seq<string>, m: nat)
    requires Spread(limit, users, remotes) && m < |users|
    requires s.table == Trimmed(Entries(users, remotes, m), limit) && s.clock == 0
    ensures var a := Failing(users, remotes)[m];
            && TryLogin(s.table, limit, a).1 == Rejected && Step(s, limit, a).clock == 0
            && Step(s, limit, a).table == Trimmed(Entries(users, remotes, m + 1), limit)
  {
    NoLongerThere(limit, users, remotes, m);
    SuffixGrows(limit, users, remotes, m);
    AllOnce(users, remotes, m);
    TrimmedIsPart(Entries(users, remotes, m), limit);
    hide Entries, Spread, Trimmed;
    FreshFailure(s, limit, Failing(users, remotes)[m]);
    hide TryLogin;
  }

  lemma NoLongerThere(limit: nat, users: seq<string>, remotes: seq<string>, m: nat)
    requires Spread(limit, users, remotes) && m < |users|
    ensures forall x | x in Trimmed(Entries(users, remotes, m), limit) ::
              x.key != User(users[m]) && x.key != Source(SourceOf(remotes[m]))
  {
    EntriesLength(users, remotes, m);
    hide Spread, Entries;
    forall x | x in Trimmed(Entries(users, remotes, m), limit)
      ensures x.key != User(users[m]) && x.key != Source(SourceOf(remotes[m]))
    {
      var p := PlaceInTrimmed(Entries(users, remotes, m), limit, x);
      LateEntry(limit, users, remotes, m, p);
      hide Trimmed;
    }
  }

  lemma PlaceInTrimmed(t: Table, limit: nat, x: Item) returns (p: nat)
    requires x in Trimmed(t, limit)
    ensures p < |t| <= p + limit && t[p] == x
  {
    var q :| 0 <= q < |Trimmed(t, limit)| && Trimmed(t, limit)[q] == x;
    p := q + |t| - |Trimmed(t, limit)|;
  }

  lemma LateEntry(limit: nat, users: seq<string>, remotes: seq<string>, m: nat, p: nat)
    requires Spread(limit, users, remotes) && m < |users| && p < 2 * m <= p + limit
    ensures |Entries(users, remotes, m)| == 2 * m
    ensures var x := Entries(users, remotes, m)[p]; x.key != User(users[m]) && x.key != Source(SourceOf(remotes[m]))
  {
    var i := EntryAt(users, remotes, m, p);
    hide Entries;
    assert users[i] == users[m] ==> 2 * (m - i - 1) + 1 >= limit;
    assert SourceOf(remotes[i]) == SourceOf(remotes[m]) ==> 2 * (m - i - 1) >= limit;
    hide Spread;
  }

  lemma {:induction false} AllOnce(users: seq<string>, remotes: seq<string>, m: nat)
    requires m <= |users| == |remotes|
    ensures forall x | x in Entries(users, remotes, m) :: x.failures == 1 && x.retryAt == 0
  {
    if m > 0 {
      AllOnce(users, remotes, m - 1);
    }
  }

  lemma TrimmedIsPart(t: Table, limit: nat)
    ensures |Trimmed(t, limit)| <= limit && forall x | x in Trimmed(t, limit) :: x in t
  {
  }

  lemma SuffixGrows(limit: nat, users: seq<string>, remotes: seq<string>, m: nat)
    requires m < |users| == |remotes|
    ensures Trimmed(Trimmed(Entries(users, remotes, m), limit) + Two(users[m], remotes[m]), limit)
         == Trimmed(Entries(users, remotes, m + 1), limit)
  {
    TrimmedTwice(Entries(users, remotes, m), Two(users[m], remotes[m]), limit);
    hide Trimmed;
  }

  lemma TrimmedTwice(t: Table, more: Table, limit: nat)
    ensures Trimmed(Trimmed(t, limit) + more, limit) == Trimmed(t + more, limit)
  {
  }

  /** A failure of a username and from a source that have no entries. */
  lemma FreshFailure(s: Sys, limit: nat, a: Attempt)
    requires a.at == 0 && a.lag == 0 && !a.verified && |s.table| <= limit
    requires forall x | x in s.table ::
               x.key != User(a.user) && x.key != Source(a.Source()) && x.failures == 1 && x.retryAt == 0
    ensures TryLogin(s.table, limit, a).1 == Rejected && Step(s, limit, a).clock == 0
    ensures Step(s, limit, a).table == Trimmed(s.table + Two(a.user, a.remote), limit)
  {
    var t := s.table;
    var t1 := t + [Item(User(a.user), 1, 0)];
    var t2 := t + Two(a.user, a.remote);
    assert t2 == t1 + [Item(Source(a.Source()), 1, 0)];
    AllKept(t, 0);
    AllKept(t2, 0);
    FreshBump(t, User(a.user));
    FreshBump(t1, Source(a.Source()));
    assert Cleaned(t, 0, limit) == t && Cleaned(t2, 0, limit) == Trimmed(t2, limit);
    assert Failed(t, a.user, a.Source(), 0, limit) == Trimmed(t2, limit);
    hide Cleaned, Failed, Full, Trimmed, Kept;
  }

  lemma FreshBump(t: Table, k: Key)
    requires forall x | x in t :: x.key != k
    ensures Find(t, k).None? && Bumped(t, k, 0) == t + [Item(k, 1, 0)]
  {
    AllStay(t, k);
  }

  function Dots(n: nat): string { seq(n + 8, i => '.') }

  /** "victim" comes back only after `limit` others, who come once each, and every source comes once. */
  predicate Rounds(limit: nat, users: seq<string>, remotes: seq<string>) {
    && |users| == |remotes|
    && (forall i | 0 <= i < |users| :: remotes[i] == Dots(i))
    && (forall i | 0 <= i < |users| :: users[i] == Dots(i) || (users[i] == "victim" && i + limit < |users|))
    && (forall i, j | 0 <= i < j < |users| && users[i] == users[j] == "victim" :: i + limit < j)
  }

  lemma RoundsSpread(limit: nat, users: seq<string>, remotes: seq<string>)
    requires Rounds(limit, users, remotes)
    ensures Spread(limit, users, remotes)
  {
    forall i: nat, j: nat | i < j ensures Dots(i) != Dots(j) && Dots(i) != "victim" {
      assert |Dots(i)| != |Dots(j)| && |Dots(i)| > |"victim"|;
    }
  }

  /** The usernames of one more round, after `n` logins, and their sources. */
  function RoundOf(n: nat, limit: nat): seq<string> {
    ["victim"] + seq(limit, i requires 0 <= i < limit => Dots(n + 1 + i))
  }

  function Sources(n: nat, limit: nat): seq<string> {
    seq(limit + 1, i requires 0 <= i < limit + 1 => Dots(n + i))
  }

  lemma NextRound(limit: nat, users: seq<string>, remotes: seq<string>)
    requires Rounds(limit, users, remotes)
    ensures var more := users + RoundOf(|users|, limit);
            Rounds(limit, more, remotes + Sources(|users|, limit)) && |more| > |users| && more[|users|] == "victim"
  {
    forall i: nat ensures Dots(i) != "victim" {
      assert |Dots(i)| > |"victim"|;
    }
    hide Dots;
  }

  /** The places in `users` where "victim" is, in order. */
  predicate Places(users: seq<string>, places: seq<nat>) {
    && (forall i, j | 0 <= i < j < |places| :: places[i] < places[j])
    && (forall i | 0 <= i < |places| :: places[i] < |users| && users[places[i]] == "victim")
  }

  lemma OnePlaceMore(users: seq<string>, places: seq<nat>, more: seq<string>)
    requires Places(users, places) && more != [] && more[0] == "victim"
    ensures Places(users + more, places + [|users|])
  {
  }

  /** So for every limit and every number there is a run in which one username fails that many times at one
      moment, and nothing is refused. */
  lemma OneUserFailsOften(limit: nat, times: nat) returns (users: seq<string>, remotes: seq<string>, places: seq<nat>)
    ensures |users| == |remotes| && NoneRefused(EMPTY, limit, Failing(users, remotes))
    ensures |places| == times && Places(users, places)
  {
    users, remotes, places := ManyRounds(limit, times);
    RoundsSpread(limit, users, remotes);
    EvictionForgetsFailures(limit, users, remotes);
  }

  lemma {:induction false} ManyRounds(limit: nat, times: nat)
    returns (users: seq<string>, remotes: seq<string>, places: seq<nat>)
    ensures Rounds(limit, users, remotes) && |places| == times && Places(users, places)
  {
    users, remotes, places := [], [], [];
    if times > 0 {
      users, remotes, places := ManyRounds(limit, times - 1);
      NextRound(limit, users, remotes);
      OnePlaceMore(users, places, RoundOf(|users|, limit));
      hide *;
      users, remotes, places := users + RoundOf(|users|, limit), remotes + Sources(|users|, limit), places + [|users|];
    }
  }

  lemma {:induction false} AllKept(t: Table, now: nat)
    requires forall x | x in t :: !Expired(x, now)
    ensures Kept(t, now) == t
  {
    if t != [] {
      AllKept(t[1..], now);
    }
  }

  lemma {:induction false} AllStay(t: Table, k: Key)
    requires forall x | x in t :: x.key != k
    ensures Without(t, k) == t
  {
    if t != [] {
      AllStay(t[1..], k);
    }
  }
}
