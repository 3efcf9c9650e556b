/** When recovery ends, and where a restarted supervisor converges. */
module SupervisorRecovery {
  import opened Wrappers
  import opened Lifecycle
  import opened SupervisorModel
  import opened SupervisorFrames
  import SupervisorInvariants

  // ---------------------------------------------------------------- one start attempt

  /** Readiness polling ends at most one check after the deadline; a timeout never ends before it. */
  lemma {:induction false} WaitIsBounded(poll: Positive, checks: nat -> Check, now: nat, deadline: nat, i: nat,
                                         slowest: nat)
    requires now <= deadline && forall k :: checks(k).takes <= slowest
    ensures var r := AwaitReady(poll, checks, now, deadline, i);
            r.at <= deadline + slowest && (r.error == Some(ReadinessTimeout) ==> r.at >= deadline)
    decreases deadline - now
  {
    var t := now + checks(i).takes;
    if checks(i).answer == NotYet && t < deadline {
      WaitIsBounded(poll, checks, t + Min(poll, deadline - t), deadline, i + 1, slowest);
    }
  }

  /** A driver that never says ready is waited for until the deadline and then reported as timed out. */
  lemma {:induction false} NeverReadyTimesOut(poll: Positive, checks: nat -> Check, now: nat, deadline: nat, i: nat)
    requires forall k :: checks(k).answer == NotYet
    ensures var r := AwaitReady(poll, checks, now, deadline, i);
            r.error == Some(ReadinessTimeout) && r.at >= deadline
    decreases if deadline < now then 0 else deadline - now
  {
    var t := now + checks(i).takes;
    if t < deadline {
      NeverReadyTimesOut(poll, checks, t + Min(poll, deadline - t), deadline, i + 1);
    }
  }

  /** The longest one start attempt can take. */
  lemma AttemptIsBounded(c: Config, now: nat, a: Attempt, slowest: nat)
    requires forall k :: a.checks(k).takes <= slowest
    ensures TryStart(c, now, a).at <= now + a.start.takes + c.startupTimeout + slowest + a.cleanup
  {
    var started := now + a.start.takes;
    WaitIsBounded(c.poll, a.checks, started, started + c.startupTimeout, 0, slowest);
  }

  // ---------------------------------------------------------------- recovery ends

  /** Every listed attempt that fails does so within `d`. */
  ghost predicate QuickFailures(c: Config, attempts: seq<Attempt>, d: nat) {
    forall a, now: nat | a in attempts && TryStart(c, now, a).error.Some? :: TryStart(c, now, a).at <= now + d
  }

  /** The last `k` restart times are at most `age` old. */
  ghost predicate Packed(times: seq<nat>, k: nat, now: nat, age: int) {
    k <= |times| && forall i | |times| - k <= i < |times| :: now <= times[i] + age
  }

  lemma {:induction false} RecentConcat(a: seq<nat>, b: seq<nat>, now: nat, window: nat)
    ensures Recent(a + b, now, window) == Recent(a, now, window) + Recent(b, now, window)
  {
    if a == [] {
      assert a + b == b;
    } else {
      assert (a + b)[1..] == a[1..] + b && (a + b)[0] == a[0];
      var first := if now <= a[0] + window then [a[0]] else [];
      assert Recent(a + b, now, window) == first + Recent(a[1..] + b, now, window);
      assert Recent(a, now, window) == first + Recent(a[1..], now, window);
      hide Recent;
      RecentConcat(a[1..], b, now, window);
    }
  }

  lemma RecentKeepsPacked(times: seq<nat>, k: nat, now: nat, window: nat)
    requires Packed(times, k, now, window)
    ensures var recent := Recent(times, now, window);
            |recent| >= k && recent[|recent| - k..] == times[|times| - k..]
  {
    var a, b := times[..|times| - k], times[|times| - k..];
    assert times == a + b;
    RecentConcat(a, b, now, window);
    NoneAged(b, now, window);
  }

  /** How a recovery that has ended looks: running, or failed for good, and no recovery hold left behind. */
  ghost predicate Recovered(r: Res, holdBefore: bool) {
    match r
    case Ok(t) => t.w.rec.state == Running && (RecoveryHold in t.w.rec.holds ==> holdBefore)
    case Raise(t, e) => t.w.rec.state == Failed && t.w.rec.exhausted && e == RestartLimit
                        && RecoveryHold !in t.w.rec.holds
  }

  /** The last `k` restart times are at most `n` failures of length `d` old. */
  ghost predicate Tight(times: seq<nat>, k: nat, now: nat, n: int, d: nat) { Packed(times, k, now, n * d) }

  /** As many failures as are recovered from fit in the window. */
  predicate WindowHolds(c: Config, d: nat) { c.maxRestarts * d <= c.window }

  lemma Scale(k: nat, most: nat, d: nat)
    requires k <= most
    ensures k * d <= most * d
  {
  }

  lemma {:induction false} EnsureEnds(c: Config, s: Sys, why: Why, attempts: seq<Attempt>, d: nat, k: nat)
    requires c.restart != Never && c.backoff == 0 && QuickFailures(c, attempts, d) && WindowHolds(c, d)
    requires s.w.rec.state == Stopped || s.w.rec.state == Failed
    requires k <= c.maxRestarts && |attempts| + k > c.maxRestarts && Tight(s.w.rec.restartTimes, k, s.w.now, k - 1, d)
    ensures Recovered(EnsureRunning(c, s, why, attempts), RecoveryHold in s.w.rec.holds)
    decreases |attempts|, 0
  {
    FailsWithin(c, attempts, d, s.w.now);
    hide *;
    if TryStart(c, s.w.now, attempts[0]).error.None? {
      StartedRecovers(c, s, why, attempts);
    } else {
      var t := FailingStart(c, s, why, attempts);
      TightLater(s.w.rec.restartTimes, k, s.w.now, t.w.now, d);
      RestartEnds(c, t, attempts[1..], d, k);
      FailureRecovers(RestartAfterFailure(c, t, attempts[1..]), RecoveryHold in s.w.rec.holds);
    }
  }

  lemma FailsWithin(c: Config, attempts: seq<Attempt>, d: nat, now: nat)
    requires attempts != [] && QuickFailures(c, attempts, d)
    ensures QuickFailures(c, attempts[1..], d)
    ensures TryStart(c, now, attempts[0]).error.Some? ==> TryStart(c, now, attempts[0]).at <= now + d
  {
    hide TryStart;
    assert attempts[0] in attempts;
  }

  lemma StartedRecovers(c: Config, s: Sys, why: Why, attempts: seq<Attempt>)
    requires (s.w.rec.state == Stopped || s.w.rec.state == Failed) && attempts != []
    requires TryStart(c, s.w.now, attempts[0]).error.None?
    ensures Recovered(EnsureRunning(c, s, why, attempts), RecoveryHold in s.w.rec.holds)
  {
    hide EnsureRunning, TryStart, Transition, MarkFailed, RestartAfterFailure, Frame;
    EnsureUnfolds(c, s, why, attempts);
    BeganFrame(s, why, attempts[0], c);
    var s1 := Transition(s, Starting, why).s;
    StartedFrame(At(s1, TryStart(c, s1.w.now, attempts[0]).at), why);
  }

  lemma FailureRecovers(r: Res, holdBefore: bool)
    requires Recovered(r, false)
    ensures Recovered(r, holdBefore) && !(r.Ok? && r.s.w.rec.state == Failed)
  {
  }

  lemma TightLater(times: seq<nat>, k: nat, now: nat, later: nat, d: nat)
    requires Tight(times, k, now, k - 1, d) && later <= now + d
    ensures Tight(times, k, later, k, d)
  {
    assert (k - 1) * d + d == k * d;
  }

  lemma StillTight(times: seq<nat>, prior: seq<nat>, now: nat, k: nat, d: nat)
    requires Tight(times, k, now, k, d) && |times| >= k && |prior| >= k && prior[|prior| - k..] == times[|times| - k..]
    ensures Tight(prior + [now], k + 1, now, k, d)
  {
    var age := k * d;
    forall i | |prior| - k <= i < |prior| ensures now <= prior[i] + age {
      assert prior[i] == prior[|prior| - k..][i - (|prior| - k)] == times[|times| - |prior| + i];
    }
  }

  lemma RestartRecovers(c: Config, s: Sys, attempts: seq<Attempt>)
    requires c.restart != Never && c.backoff == 0 && s.w.rec.state == Failed
    ensures var prior := Recent(s.w.rec.restartTimes, s.w.now, c.window);
            var t := Grant(c, s, prior);
            && RecoveryHold in t.w.rec.holds
            && (|prior| >= c.maxRestarts || Recovered(EnsureRunning(c, t, Recovery, attempts), true) ==>
                  Recovered(RestartAfterFailure(c, s, attempts), false))
  {
    hide EnsureRunning, Recent;
  }

  lemma {:induction false} RestartEnds(c: Config, s: Sys, attempts: seq<Attempt>, d: nat, k: nat)
    requires c.restart != Never && c.backoff == 0 && QuickFailures(c, attempts, d) && WindowHolds(c, d)
    requires s.w.rec.state == Failed
    requires k <= c.maxRestarts && |attempts| + k >= c.maxRestarts && Tight(s.w.rec.restartTimes, k, s.w.now, k, d)
    ensures Recovered(RestartAfterFailure(c, s, attempts), false)
    decreases |attempts|, 1
  {
    var times, now := s.w.rec.restartTimes, s.w.now;
    var prior := Recent(times, now, c.window);
    TightFits(c, times, k, now, d);
    hide *;
    RecentKeepsPacked(times, k, now, c.window);
    RestartRecovers(c, s, attempts);
    if |prior| < c.maxRestarts {
      StillTight(times, prior, now, k, d);
      GrantShape(c, s, prior);
      EnsureEnds(c, Grant(c, s, prior), Recovery, attempts, d, k + 1);
    }
  }

  lemma TightFits(c: Config, times: seq<nat>, k: nat, now: nat, d: nat)
    requires k <= c.maxRestarts && WindowHolds(c, d) && Tight(times, k, now, k, d)
    ensures Packed(times, k, now, c.window) && |times| >= k
  {
    Scale(k, c.maxRestarts, d);
  }

  /** Zero-backoff recovery ends: when every failing start is over within `d` and `maxRestarts` of them
      fit in the window, at most `maxRestarts + 1` driver starts are made; the service then runs, or is
      failed with its restarts exhausted. Either way the recovery hold is gone. */
  lemma RecoveryEnds(c: Config, s: Sys, why: Why, attempts: seq<Attempt>, d: nat)
    requires c.restart != Never && c.backoff == 0
    requires s.w.rec.state == Stopped || s.w.rec.state == Failed
    requires |attempts| == c.maxRestarts + 1 && QuickFailures(c, attempts, d) && c.maxRestarts * d <= c.window
    ensures var r := EnsureRunning(c, s, why, attempts);
            if r.Ok?
            then r.s.w.rec.state == Running && (RecoveryHold in r.s.w.rec.holds ==> RecoveryHold in s.w.rec.holds)
            else r.e == RestartLimit && r.s.w.rec.state == Failed && r.s.w.rec.exhausted
                 && RecoveryHold !in r.s.w.rec.holds
  {
    EnsureEnds(c, s, why, attempts, d, 0);
  }

  /** A call that has ended does not depend on what the driver would have done afterwards. */
  lemma {:induction false} EndedIsFinal(c: Config, s: Sys, why: Why, attempts: seq<Attempt>, more: seq<Attempt>)
    requires EnsureRunning(c, s, why, attempts) != Raise(EnsureRunning(c, s, why, attempts).s, Unfinished)
    ensures EnsureRunning(c, s, why, attempts + more) == EnsureRunning(c, s, why, attempts)
    decreases |attempts|, 0
  {
    var state := s.w.rec.state;
    NoStart(c, s, why, attempts, more);
    hide *;
    if (state == Stopped || state == Failed) && attempts != [] {
      EnsureUnfolds(c, s, why, attempts);
      EnsureUnfolds(c, s, why, attempts + more);
      BeganFrame(s, why, attempts[0], c);
      assert (attempts + more)[0] == attempts[0] && (attempts + more)[1..] == attempts[1..] + more;
      var s1 := Transition(s, Starting, why).s;
      var a := TryStart(c, s1.w.now, attempts[0]);
      if a.error.Some? {
        RestartEndedIsFinal(c, MarkFailed(At(s1, a.at), a.error.value, StartFailure).s, attempts[1..], more);
      }
    }
  }

  lemma NoStart(c: Config, s: Sys, why: Why, attempts: seq<Attempt>, more: seq<Attempt>)
    ensures !(s.w.rec.state == Stopped || s.w.rec.state == Failed) ==>
              EnsureRunning(c, s, why, attempts + more) == EnsureRunning(c, s, why, attempts)
    ensures (s.w.rec.state == Stopped || s.w.rec.state == Failed) && attempts == [] ==>
              EnsureRunning(c, s, why, attempts) == Raise(s, Unfinished)
  {
  }

  lemma {:induction false} RestartEndedIsFinal(c: Config, s: Sys, attempts: seq<Attempt>, more: seq<Attempt>)
    requires RestartAfterFailure(c, s, attempts) != Raise(RestartAfterFailure(c, s, attempts).s, Unfinished)
    ensures RestartAfterFailure(c, s, attempts + more) == RestartAfterFailure(c, s, attempts)
    decreases |attempts|, 1
  {
    var prior := Recent(s.w.rec.restartTimes, s.w.now, c.window);
    if c.restart != Never && |prior| < c.maxRestarts && c.backoff == 0 {
      EndedIsFinal(c, Grant(c, s, prior), Recovery, attempts, more);
    }
  }

  /** A start that fails, up to the recovery from it. */
  lemma FailingStart(c: Config, s: Sys, why: Why, attempts: seq<Attempt>) returns (t: Sys)
    requires (s.w.rec.state == Stopped || s.w.rec.state == Failed) && attempts != []
    requires TryStart(c, s.w.now, attempts[0]).error.Some?
    ensures t.w.rec == s.w.rec.(state := Failed, lastFailure := TryStart(c, s.w.now, attempts[0]).error)
    ensures t.w.now == TryStart(c, s.w.now, attempts[0]).at
    ensures var r := RestartAfterFailure(c, t, attempts[1..]);
            EnsureRunning(c, s, why, attempts) ==
              (if r.Ok? && r.s.w.rec.state == Failed
               then Raise(r.s, TryStart(c, s.w.now, attempts[0]).error.value)
               else r)
  {
    hide EnsureRunning, TryStart, Transition, MarkFailed, RestartAfterFailure, Frame;
    EnsureUnfolds(c, s, why, attempts);
    BeganFrame(s, why, attempts[0], c);
    var s1 := Transition(s, Starting, why).s;
    var a := TryStart(c, s1.w.now, attempts[0]);
    FailedFrame(At(s1, a.at), a.error.value, StartFailure);
    t := MarkFailed(At(s1, a.at), a.error.value, StartFailure).s;
  }

  // ---------------------------------------------------------------- recovery that never ends

  /** Consecutive times lie at least `e` apart, and the last one at least `gap` back. */
  ghost predicate SlowPace(times: seq<nat>, e: nat, now: nat, gap: nat) {
    && (forall i | 0 < i < |times| :: times[i - 1] + e <= times[i])
    && (times != [] ==> times[|times| - 1] + gap <= now)
  }

  /** Every listed attempt fails, and takes at least `e`. */
  ghost predicate SlowFailures(c: Config, attempts: seq<Attempt>, e: nat) {
    forall a, now: nat | a in attempts :: TryStart(c, now, a).error.Some? && TryStart(c, now, a).at >= now + e
  }

  /** The first of `n` times spaced by `e` is at least `n * e` old. */
  lemma {:induction false} FirstOfSlow(times: seq<nat>, e: nat, now: nat)
    requires SlowPace(times, e, now, e) && times != []
    ensures times[0] + |times| * e <= now
  {
    assert |times| * e == (|times| - 1) * e + e;
    if |times| > 1 {
      SlowSuffix(times, 1, e, now);
      FirstOfSlow(times[1..], e, now);
    }
  }

  lemma RecentOfSlow(times: seq<nat>, e: nat, now: nat, window: nat)
    requires SlowPace(times, e, now, e)
    ensures var recent := Recent(times, now, window);
            && |recent| <= |times| && recent == times[|times| - |recent|..]
            && |recent| * e <= window
  {
    hide Recent;
    SlowIsOrdered(times, e, now);
    SupervisorInvariants.RecentIsTail(times, now, window);
    SlowTailFits(times, Recent(times, now, window), e, now, window);
    hide SlowPace;
  }

  lemma {:induction false} SlowIsOrdered(times: seq<nat>, e: nat, now: nat)
    requires SlowPace(times, e, now, e)
    ensures NonDecreasing(times)
  {
    if |times| > 1 {
      assert times[0] <= times[1];
      SlowSuffix(times, 1, e, now);
      SlowIsOrdered(times[1..], e, now);
      hide SlowPace;
      forall i, j | 0 <= i < j < |times| ensures times[i] <= times[j] {
        assert times[j] == times[1..][j - 1];
        if i > 0 {
          assert times[i] == times[1..][i - 1];
        }
      }
    }
  }

  lemma SlowTailFits(times: seq<nat>, recent: seq<nat>, e: nat, now: nat, window: nat)
    requires SlowPace(times, e, now, e) && SupervisorInvariants.YoungTail(times, recent, now, window)
    ensures |recent| * e <= window
  {
    if recent != [] {
      var m := |times| - |recent|;
      SlowSuffix(times, m, e, now);
      assert recent[0] == times[m] && now <= times[m] + window;
      hide SlowPace, SupervisorInvariants.YoungTail;
      FirstOfSlow(recent, e, now);
    }
  }

  lemma SlowSuffix(times: seq<nat>, m: nat, e: nat, now: nat)
    requires SlowPace(times, e, now, e) && m <= |times|
    ensures SlowPace(times[m..], e, now, e)
  {
    var rest := times[m..];
    forall i | 0 < i < |rest| ensures rest[i - 1] + e <= rest[i] {
      assert times[m + i - 1] + e <= times[m + i];
    }
  }

  lemma {:induction false} EnsureNeverEnds(c: Config, s: Sys, why: Why, attempts: seq<Attempt>, e: nat)
    requires c.restart != Never && c.backoff == 0 && SlowFailures(c, attempts, e) && c.maxRestarts * e > c.window
    requires s.w.rec.state == Stopped || s.w.rec.state == Failed
    requires SlowPace(s.w.rec.restartTimes, e, s.w.now, 0)
    ensures var r := EnsureRunning(c, s, why, attempts); r == Raise(r.s, Unfinished)
    decreases |attempts|, 0
  {
    if attempts != [] {
      hide EnsureRunning, TryStart, RestartAfterFailure;
      assert attempts[0] in attempts;
      var s1 := FailingStart(c, s, why, attempts);
      RestartNeverEnds(c, s1, attempts[1..], e);
    }
  }

  lemma {:induction false} RestartNeverEnds(c: Config, s: Sys, attempts: seq<Attempt>, e: nat)
    requires c.restart != Never && c.backoff == 0 && SlowFailures(c, attempts, e) && c.maxRestarts * e > c.window
    requires s.w.rec.state == Failed && SlowPace(s.w.rec.restartTimes, e, s.w.now, e)
    ensures var r := RestartAfterFailure(c, s, attempts); r == Raise(r.s, Unfinished)
    decreases |attempts|, 1
  {
    var times, now := s.w.rec.restartTimes, s.w.now;
    var prior := Recent(times, now, c.window);
    RecentOfSlow(times, e, now, c.window);
    FewerFit(|prior|, c.maxRestarts, e, c.window);
    GrantedPace(times, prior, e, now);
    hide Recent, SlowPace, SlowFailures;
    EnsureNeverEnds(c, Grant(c, s, prior), Recovery, attempts, e);
  }

  lemma FewerFit(n: nat, most: nat, e: nat, window: nat)
    requires n * e <= window < most * e
    ensures n < most
  {
    if n >= most {
      Scale(most, n, e);
    }
  }

  lemma GrantedPace(times: seq<nat>, prior: seq<nat>, e: nat, now: nat)
    requires SlowPace(times, e, now, e) && |prior| <= |times| && prior == times[|times| - |prior|..]
    ensures SlowPace(prior + [now], e, now, 0)
  {
    SlowSuffix(times, |times| - |prior|, e, now);
    assert SlowPace(prior, e, now, e);
  }

  /** The bound is sharp. A driver whose starts all fail after exactly `d` is given up after at most
      `maxRestarts + 1` starts, whatever restarts are on record, when `maxRestarts * d` fits in the window.
      Otherwise no number of starts is enough, unless restarts closer than `d` to each other are on record
      already: old ones leave the window before the limit is reached. */
  lemma RecoveryEndsIffWindowHoldsThem(c: Config, s: Sys, why: Why, attempts: seq<Attempt>, d: nat)
    requires c.restart != Never && c.backoff == 0
    requires s.w.rec.state == Stopped || s.w.rec.state == Failed
    requires c.maxRestarts * d > c.window ==> SlowPace(s.w.rec.restartTimes, d, s.w.now, 0)
    requires |attempts| > c.maxRestarts && SlowFailures(c, attempts, d) && QuickFailures(c, attempts, d)
    ensures var r := EnsureRunning(c, s, why, attempts);
            r == Raise(r.s, if c.maxRestarts * d <= c.window then RestartLimit else Unfinished)
  {
    if c.maxRestarts * d <= c.window {
      var first := attempts[..c.maxRestarts + 1];
      EnsureEnds(c, s, why, first, d, 0);
      FailuresOnly(c, s, why, first, d);
      assert attempts == first + attempts[|first|..];
      EndedIsFinal(c, s, why, first, attempts[|first|..]);
    } else {
      EnsureNeverEnds(c, s, why, attempts, d);
    }
  }

  // ---------------------------------------------------------------- from any history

  /** When restarts are granted to a driver that fails again and again after `d`, from `now` on. */
  function Restarts(now: nat, d: nat, n: nat): seq<nat>
    decreases n
  {
    if n == 0 then [] else [now + d] + Restarts(now + d, d, n - 1)
  }

  /** At the `j`th failure the window holds as many restarts as it may, of those on record and those since. */
  predicate FullAt(c: Config, times: seq<nat>, now: nat, d: nat, j: nat) {
    j > 0 && |Recent(times + Restarts(now, d, j - 1), now + j * d, c.window)| >= c.maxRestarts
  }

  /** So it is at one of the first `n` failures. */
  ghost predicate Fills(c: Config, times: seq<nat>, now: nat, d: nat, n: nat) {
    exists j: nat | j <= n :: FullAt(c, times, now, d, j)
  }

  lemma {:induction false} RecentTwice(times: seq<nat>, now: nat, later: nat, window: nat)
    requires now <= later
    ensures Recent(Recent(times, now, window), later, window) == Recent(times, later, window)
  {
    if times != [] {
      RecentTwice(times[1..], now, later, window);
      RecentConcat(if now <= times[0] + window then [times[0]] else [], Recent(times[1..], now, window), later, window);
    }
  }

  /** What was thrown away at one failure would not have counted at a later one. */
  lemma FullAtNext(c: Config, times: seq<nat>, now: nat, d: nat, j: nat)
    requires j > 0
    ensures var prior := Recent(times, now + d, c.window);
            FullAt(c, prior + [now + d], now + d, d, j) <==> FullAt(c, times, now, d, j + 1)
  {
    var prior, more, at := Recent(times, now + d, c.window), Restarts(now + d, d, j - 1), now + (j + 1) * d;
    assert (j + 1) * d == j * d + d && at == now + d + j * d;
    assert Restarts(now, d, j) == [now + d] + more;
    assert prior + [now + d] + more == prior + Restarts(now, d, j);
    Scale(0, j, d);
    hide Recent, Restarts;
    RecentConcat(prior, Restarts(now, d, j), at, c.window);
    RecentConcat(times, Restarts(now, d, j), at, c.window);
    RecentTwice(times, now + d, at, c.window);
  }

  lemma FullAtFirst(c: Config, times: seq<nat>, now: nat, d: nat)
    ensures FullAt(c, times, now, d, 1) <==> |Recent(times, now + d, c.window)| >= c.maxRestarts
    ensures !FullAt(c, times, now, d, 0)
  {
    assert times + Restarts(now, d, 0) == times;
  }

  lemma FillsLater(c: Config, times: seq<nat>, now: nat, d: nat, n: nat)
    requires n > 0
    ensures var prior := Recent(times, now + d, c.window);
            Fills(c, times, now, d, n) <==>
              |prior| >= c.maxRestarts || Fills(c, prior + [now + d], now + d, d, n - 1)
  {
    var prior, first := Recent(times, now + d, c.window), now + d;
    var since := prior + [first];
    FullAtFirst(c, times, now, d);
    FullAtFirst(c, since, first, d);
    hide FullAt, Recent;
    if j: nat :| j <= n && FullAt(c, times, now, d, j) {
      if j > 1 {
        FullAtNext(c, times, now, d, j - 1);
        assert FullAt(c, since, first, d, j - 1);
      }
    }
    if j: nat :| j <= n - 1 && FullAt(c, since, first, d, j) {
      FullAtNext(c, times, now, d, j);
      assert FullAt(c, times, now, d, j + 1);
    }
    if |prior| >= c.maxRestarts {
      assert FullAt(c, times, now, d, 1);
    }
  }

  lemma NothingStarts(c: Config, s: Sys, why: Why)
    requires s.w.rec.state == Stopped || s.w.rec.state == Failed
    ensures EnsureRunning(c, s, why, []) == Raise(s, Unfinished)
  {
  }

  lemma NothingFills(c: Config, times: seq<nat>, now: nat, d: nat)
    ensures !Fills(c, times, now, d, 0)
  {
  }

  lemma OthersFail(c: Config, attempts: seq<Attempt>, d: nat, now: nat)
    requires attempts != [] && SlowFailures(c, attempts, d) && QuickFailures(c, attempts, d)
    ensures SlowFailures(c, attempts[1..], d) && QuickFailures(c, attempts[1..], d)
    ensures var a := TryStart(c, now, attempts[0]); a.error.Some? && a.at == now + d
  {
    hide TryStart;
    assert attempts[0] in attempts;
  }

  lemma GrantShape(c: Config, s: Sys, prior: seq<nat>)
    ensures var t := Grant(c, s, prior);
            t.w.rec.state == s.w.rec.state && t.w.rec.restartTimes == prior + [s.w.now] && t.w.now == s.w.now
  {
  }

  lemma RestartGivesUp(c: Config, s: Sys, attempts: seq<Attempt>, later: bool)
    requires c.restart != Never && c.backoff == 0
    requires var t := EnsureRunning(c, Grant(c, s, Recent(s.w.rec.restartTimes, s.w.now, c.window)), Recovery,
                                    attempts);
             t == Raise(t.s, if later then RestartLimit else Unfinished)
    ensures var prior := Recent(s.w.rec.restartTimes, s.w.now, c.window);
            var r := RestartAfterFailure(c, s, attempts);
            r == Raise(r.s, if |prior| >= c.maxRestarts || later then RestartLimit else Unfinished)
  {
    hide EnsureRunning, Recent, Grant;
  }

  /** Exactly, from any restart history: a driver whose starts all fail after `d` is given up if and only if at
      one of its failures the restarts on record and those granted since fill the window. */
  lemma {:induction false} RecoveryEndsIffWindowFills(c: Config, s: Sys, why: Why, attempts: seq<Attempt>, d: nat)
    requires c.restart != Never && c.backoff == 0
    requires s.w.rec.state == Stopped || s.w.rec.state == Failed
    requires SlowFailures(c, attempts, d) && QuickFailures(c, attempts, d)
    ensures var r := EnsureRunning(c, s, why, attempts);
            r == Raise(r.s, if Fills(c, s.w.rec.restartTimes, s.w.now, d, |attempts|) then RestartLimit else Unfinished)
    decreases |attempts|
  {
    hide *;
    var times, now := s.w.rec.restartTimes, s.w.now;
    if attempts == [] {
      NothingFills(c, times, now, d);
      NothingStarts(c, s, why);
    } else {
      OthersFail(c, attempts, d, now);
      var s1 := FailingStart(c, s, why, attempts);
      FillsLater(c, times, now, d, |attempts|);
      var s2 := Grant(c, s1, Recent(times, now + d, c.window));
      GrantShape(c, s1, Recent(times, now + d, c.window));
      RecoveryEndsIffWindowFills(c, s2, Recovery, attempts[1..], d);
      RestartGivesUp(c, s1, attempts[1..], Fills(c, s2.w.rec.restartTimes, s2.w.now, d, |attempts| - 1));
    }
  }

  /** A driver that only fails never gets the service running. */
  lemma {:induction false} FailuresOnly(c: Config, s: Sys, why: Why, attempts: seq<Attempt>, e: nat)
    requires SlowFailures(c, attempts, e) && (s.w.rec.state == Stopped || s.w.rec.state == Failed)
    ensures EnsureRunning(c, s, why, attempts).Raise?
    decreases |attempts|
  {
    if attempts != [] {
      hide EnsureRunning, TryStart, Recent;
      assert attempts[0] in attempts;
      var s1 := FailingStart(c, s, why, attempts);
      FailuresOnly(c, Grant(c, s1, Recent(s1.w.rec.restartTimes, s1.w.now, c.window)), Recovery, attempts[1..], e);
    }
  }

  /** The defaults (60 s to start, 3 restarts in 60 s) never give up on a runtime that starts at once
      but never becomes ready. */
  lemma DefaultsNeverGiveUp(c: Config, s: Sys, why: Why, attempts: seq<Attempt>)
    requires c.restart != Never && c.backoff == 0
    requires c.startupTimeout == 60000 && c.window == 60000 && c.maxRestarts == 3
    requires s.w.rec.state == Stopped && s.w.rec.restartTimes == []
    requires forall a | a in attempts :: a.start.ok && forall k :: a.checks(k).answer == NotYet
    ensures var r := EnsureRunning(c, s, why, attempts); r == Raise(r.s, Unfinished)
  {
    forall a, now: nat | a in attempts
      ensures TryStart(c, now, a).error.Some? && TryStart(c, now, a).at >= now + 60000
    {
      var started := now + a.start.takes;
      NeverReadyTimesOut(c.poll, a.checks, started, started + c.startupTimeout, 0);
    }
    EnsureNeverEnds(c, s, why, attempts, 60000);
  }
}
