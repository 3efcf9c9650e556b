/** What each operation of the supervisor comes to, exactly, from what it finds and what the driver answers. */
module SupervisorOutcomes {
  import opened Wrappers
  import opened Lifecycle
  import opened SupervisorModel
  import opened SupervisorFrames
  import opened SupervisorReadiness
  import Recovery = SupervisorRecovery
  import JobKeys = SupervisorJobKeys

  /** Between two states: a start or a stop is under way. */
  predicate Moving(state: State) { state == Starting || state == Stopping }

  predicate Down(state: State) { state == Stopped || state == Failed }

  /** Every hold but `but` counts what it did. */
  ghost predicate OthersCount(r: Record, t: Record, but: Hold) {
    forall h | h != but :: Count(t.holds, h) == Count(r.holds, h)
  }

  // ---------------------------------------------------------------- starting

  /** A start that the driver's answers bring up, from a service that is down. */
  lemma UpStart(c: Config, s: Sys, why: Why, attempts: seq<Attempt>)
    requires Down(s.w.rec.state) && attempts != [] && ComesUp(c, attempts[0])
    ensures var r := EnsureRunning(c, s, why, attempts);
            && r.Ok? && r.s.w.now == TryStart(c, s.w.now, attempts[0]).at
            && r.s.w.rec == s.w.rec.(state := Running, lastStart := Some(r.s.w.now), lastFailure := None,
                                     nextRestart := None, exhausted := false)
  {
    SucceedsIff(c, s.w.now, attempts[0]);
    hide *;
    EnsureUnfolds(c, s, why, attempts);
    BeganFrame(s, why, attempts[0], c);
    StartedShape(At(Transition(s, Starting, why).s, TryStart(c, s.w.now, attempts[0]).at), why);
    assert At(Transition(s, Starting, why).s, TryStart(c, s.w.now, attempts[0]).at).w.rec.state == Starting by {
      AtShape(Transition(s, Starting, why).s, TryStart(c, s.w.now, attempts[0]).at);
    }
  }

  lemma AtShape(s: Sys, t: nat)
    requires t >= s.w.now
    ensures At(s, t).w.rec == s.w.rec && At(s, t).w.now == t
  {
  }

  lemma StartedShape(s: Sys, why: Why)
    requires s.w.rec.state == Starting
    ensures var t := Started(Transition(Transition(s, Ready, why).s, Running, why).s);
            && t.w.now == s.w.now
            && t.w.rec == s.w.rec.(state := Running, lastStart := Some(t.w.now), lastFailure := None,
                                   nextRestart := None, exhausted := false)
  {
  }

  /** What it takes for a start to need no luck: the service is up, or its driver's next answers bring it up. */
  ghost predicate Startable(c: Config, state: State, attempts: seq<Attempt>) {
    Active(state) || Moving(state) || (attempts != [] && ComesUp(c, attempts[0]))
  }

  /** Where such a start leads: a service that is up stays as it is, one that is down runs, and one between two
      states is refused. */
  lemma EnsureOutcome(c: Config, s: Sys, why: Why, attempts: seq<Attempt>)
    requires Startable(c, s.w.rec.state, attempts)
    ensures var r := EnsureRunning(c, s, why, attempts); var state := s.w.rec.state;
            && (Active(state) ==> r == Ok(s))
            && (Moving(state) ==> r == Raise(s, Busy))
            && (Down(state) ==>
                  && r.Ok? && r.s.w.rec.state == Running && r.s.w.rec.holds == s.w.rec.holds
                  && r.s.w.rec.sessions == s.w.rec.sessions && r.s.w.rec.adminIntent == s.w.rec.adminIntent
                  && r.s.w.rec.restartTimes == s.w.rec.restartTimes && r.s.w.rec.idleDeadline == s.w.rec.idleDeadline
                  && r.s.w.rec.nextRestart == None && !r.s.w.rec.exhausted)
  {
    EnsureFrame(c, s, why, attempts);
    if Down(s.w.rec.state) {
      UpStart(c, s, why, attempts);
    }
    hide EnsureRunning, TryStart, ComesUp, Frame;
  }

  /** `start`: refused only between two states; otherwise the service is up, held for the reason, and an
      administrator's start is remembered and forgives earlier restarts. */
  lemma StartOutcome(c: Config, s: Sys, reason: Hold, attempts: seq<Attempt>)
    requires Startable(c, s.w.rec.state, attempts)
    ensures var r := Start(c, s, reason, attempts); var q, t := s.w.rec, r.s.w.rec;
            && (r.Raise? <==> Moving(q.state)) && (r.Raise? ==> r.e == Busy && t.state == q.state)
            && (r.Ok? ==> t.state == if Active(q.state) then q.state else Running)
            && t.adminIntent == (q.adminIntent || reason == AdminHold)
            && Count(t.holds, reason) == Max(1, Count(q.holds, reason)) && OthersCount(q, t, reason)
            && t.sessions == q.sessions
            && t.restartTimes == (if reason == AdminHold && q.state == Failed then [] else q.restartTimes)
  {
    hide *;
    StatesDiffer(s.w.rec.state);
    var s1 := AskedFor(c, s, reason, attempts);
    EnsureOutcome(c, s1, Requested(reason), attempts);
    SameHolds(s1.w.rec, Start(c, s, reason, attempts).s.w.rec);
    OthersTrans(s.w.rec, s1.w.rec, Start(c, s, reason, attempts).s.w.rec, reason);
  }

  lemma StatesDiffer(state: State)
    ensures Active(state) || Moving(state) || Down(state)
    ensures !(Active(state) && Moving(state)) && !(Moving(state) && Down(state)) && !(Active(state) && Down(state))
  {
  }

  /** What a start has written before it looks at the service. */
  lemma AskedFor(c: Config, s: Sys, reason: Hold, attempts: seq<Attempt>) returns (s1: Sys)
    ensures Start(c, s, reason, attempts) == EnsureRunning(c, s1, Requested(reason), attempts)
    ensures var q, t := s.w.rec, s1.w.rec;
            && t.state == q.state && t.sessions == q.sessions
            && t.adminIntent == (q.adminIntent || reason == AdminHold)
            && Count(t.holds, reason) == Max(1, Count(q.holds, reason)) && OthersCount(q, t, reason)
            && t.restartTimes == (if reason == AdminHold && q.state == Failed then [] else q.restartTimes)
  {
    var s0 := Intent(s, reason);
    s1 := if Count(s0.w.rec.holds, reason) == 0 then AddHold(s0, reason) else s0;
    assert Start(c, s, reason, attempts) == EnsureRunning(c, s1, Requested(reason), attempts);
    hide Start, EnsureRunning;
  }

  /** A start that fails, from a service that is down: failed for good without a restart policy, given up if the
      window is full, and otherwise to be tried again after the backoff. */
  lemma DownStart(c: Config, s: Sys, why: Why, attempts: seq<Attempt>)
    requires Down(s.w.rec.state) && attempts != [] && !ComesUp(c, attempts[0])
    ensures var tried := TryStart(c, s.w.now, attempts[0]);
            var r := EnsureRunning(c, s, why, attempts); var q, t := s.w.rec, r.s.w.rec;
            var recent := Recent(q.restartTimes, tried.at, c.window);
            && tried.error.Some?
            && (c.restart == Never ==>
                  r == Raise(r.s, tried.error.value) && t == q.(state := Failed, lastFailure := tried.error))
            && (c.restart != Never && |recent| >= c.maxRestarts ==>
                  && r == Raise(r.s, RestartLimit)
                  && t == q.(state := Failed, lastFailure := Some(RestartLimit), restartTimes := recent,
                             exhausted := true, nextRestart := None, holds := q.holds - {RecoveryHold}))
            && (c.restart != Never && |recent| < c.maxRestarts && c.backoff > 0 ==>
                  && r == Raise(r.s, tried.error.value)
                  && t == q.(state := Failed, lastFailure := tried.error, restartTimes := recent + [tried.at],
                             exhausted := false, nextRestart := Some(tried.at + c.backoff),
                             holds := q.holds[RecoveryHold := 1]))
  {
    SucceedsIff(c, s.w.now, attempts[0]);
    hide EnsureRunning, TryStart, ComesUp, Recent, RestartAfterFailure;
    var t := Recovery.FailingStart(c, s, why, attempts);
    RestartOutcome(c, t, attempts[1..]);
  }

  /** What follows a failure, if it is not tried again at once. */
  lemma RestartOutcome(c: Config, s: Sys, attempts: seq<Attempt>)
    requires s.w.rec.state == Failed
    ensures var r := RestartAfterFailure(c, s, attempts); var q, t := s.w.rec, r.s.w.rec;
            var recent := Recent(q.restartTimes, s.w.now, c.window);
            && (c.restart == Never ==> r == Ok(s))
            && (c.restart != Never && |recent| >= c.maxRestarts ==>
                  && r == Raise(r.s, RestartLimit)
                  && t == q.(lastFailure := Some(RestartLimit), restartTimes := recent, exhausted := true,
                             nextRestart := None, holds := q.holds - {RecoveryHold}))
            && (c.restart != Never && |recent| < c.maxRestarts && c.backoff > 0 ==>
                  && r.Ok?
                  && t == q.(restartTimes := recent + [s.w.now], exhausted := false,
                             nextRestart := Some(s.w.now + c.backoff), holds := q.holds[RecoveryHold := 1]))
  {
    hide EnsureRunning, Recent;
  }

  /** Without a backoff failures are retried at once. A driver that fails after `d` each time and then comes up
      has its service running, if and only if the restarts did not fill the window before. */
  lemma {:induction false} RecoverySucceedsIff(c: Config, s: Sys, why: Why, failing: seq<Attempt>, good: Attempt,
                                               d: nat)
    requires c.restart != Never && c.backoff == 0 && Down(s.w.rec.state) && ComesUp(c, good)
    requires Recovery.SlowFailures(c, failing, d) && Recovery.QuickFailures(c, failing, d)
    ensures var r := EnsureRunning(c, s, why, failing + [good]);
            if Recovery.Fills(c, s.w.rec.restartTimes, s.w.now, d, |failing|) then r == Raise(r.s, RestartLimit)
            else r.Ok? && r.s.w.rec.state == Running
    decreases |failing|
  {
    DownIs(s.w.rec.state);
    var times, now, attempts := s.w.rec.restartTimes, s.w.now, failing + [good];
    hide *;
    if failing == [] {
      Recovery.NothingFills(c, times, now, d);
      UpStart(c, s, why, attempts);
    } else {
      Recovery.OthersFail(c, failing, d, now);
      assert attempts[0] == failing[0] && attempts[1..] == failing[1..] + [good];
      var s1 := Recovery.FailingStart(c, s, why, attempts);
      Recovery.FillsLater(c, times, now, d, |failing|);
      var s2 := Grant(c, s1, Recent(times, now + d, c.window));
      Recovery.GrantShape(c, s1, Recent(times, now + d, c.window));
      DownIs(s2.w.rec.state);
      RecoverySucceedsIff(c, s2, Why.Recovery, failing[1..], good, d);
      RestartRunsOn(c, s1, attempts[1..], Recovery.Fills(c, s2.w.rec.restartTimes, s2.w.now, d, |failing| - 1));
    }
  }

  lemma DownIs(state: State)
    ensures Down(state) <==> state == Stopped || state == Failed
  {
  }

  lemma RestartRunsOn(c: Config, s: Sys, attempts: seq<Attempt>, later: bool)
    requires c.restart != Never && c.backoff == 0
    requires var t := EnsureRunning(c, Grant(c, s, Recent(s.w.rec.restartTimes, s.w.now, c.window)), Why.Recovery,
                                    attempts);
             if later then t == Raise(t.s, RestartLimit) else t.Ok? && t.s.w.rec.state == Running
    ensures var prior := Recent(s.w.rec.restartTimes, s.w.now, c.window);
            var r := RestartAfterFailure(c, s, attempts);
            if |prior| >= c.maxRestarts || later then r == Raise(r.s, RestartLimit)
            else r.Ok? && r.s.w.rec.state == Running
  {
    hide EnsureRunning, Recent, Grant;
  }

  /** `notify_failure`: illegal between the states in which a failure makes sense, otherwise the same as a failed
      start. */
  lemma NotifyOutcome(c: Config, s: Sys, attempts: seq<Attempt>)
    ensures var r := NotifyFailure(c, s, attempts); var q, t := s.w.rec, r.s.w.rec;
            var recent := Recent(q.restartTimes, s.w.now, c.window);
            && (q.state == Stopped ==> r == Raise(s, InvalidTransition))
            && (q.state != Stopped && c.restart == Never ==>
                  r.Ok? && t == q.(state := Failed, lastFailure := Some(RuntimeDied)))
            && (q.state != Stopped && c.restart != Never && |recent| >= c.maxRestarts ==>
                  && r == Raise(r.s, RestartLimit)
                  && t == q.(state := Failed, lastFailure := Some(RestartLimit), restartTimes := recent,
                             exhausted := true, nextRestart := None, holds := q.holds - {RecoveryHold}))
            && (q.state != Stopped && c.restart != Never && |recent| < c.maxRestarts && c.backoff > 0 ==>
                  && r.Ok?
                  && t == q.(state := Failed, lastFailure := Some(RuntimeDied), restartTimes := recent + [s.w.now],
                             exhausted := false, nextRestart := Some(s.w.now + c.backoff),
                             holds := q.holds[RecoveryHold := 1]))
            && (q.state != Stopped && c.restart != Never && |recent| < c.maxRestarts && c.backoff == 0
                && attempts != [] && ComesUp(c, attempts[0]) ==>
                  r.Ok? && t.state == Running && t.holds == q.holds - {RecoveryHold})
  {
    NotifyUnfolds(c, s, attempts);
    hide *;
    if s.w.rec.state != Stopped {
      var s1 := MarkFailed(s, RuntimeDied, RuntimeFailure).s;
      RestartOutcome(c, s1, attempts);
      RestartAtOnce(c, s1, attempts);
    }
  }

  lemma NotifyUnfolds(c: Config, s: Sys, attempts: seq<Attempt>)
    ensures s.w.rec.state == Stopped ==> NotifyFailure(c, s, attempts) == Raise(s, InvalidTransition)
    ensures s.w.rec.state != Stopped ==>
              var s1 := MarkFailed(s, RuntimeDied, RuntimeFailure).s;
              && NotifyFailure(c, s, attempts) == RestartAfterFailure(c, s1, attempts) && s1.w.now == s.w.now
              && s1.w.rec == s.w.rec.(state := Failed, lastFailure := Some(RuntimeDied))
  {
    if s.w.rec.state != Stopped {
      FailedFrame(s, RuntimeDied, RuntimeFailure);
    }
    hide RestartAfterFailure;
  }

  lemma RestartAtOnce(c: Config, s: Sys, attempts: seq<Attempt>)
    requires s.w.rec.state == Failed
    ensures c.restart != Never && |Recent(s.w.rec.restartTimes, s.w.now, c.window)| < c.maxRestarts && c.backoff == 0
            && attempts != [] && ComesUp(c, attempts[0]) ==>
              var r := RestartAfterFailure(c, s, attempts);
              r.Ok? && r.s.w.rec.state == Running && r.s.w.rec.holds == s.w.rec.holds - {RecoveryHold}
  {
    var s1 := Grant(c, s, Recent(s.w.rec.restartTimes, s.w.now, c.window));
    if attempts != [] && ComesUp(c, attempts[0]) {
      UpStart(c, s1, Why.Recovery, attempts);
    }
    hide EnsureRunning, Recent, ComesUp;
  }

  // ---------------------------------------------------------------- stopping

  /** `stop`: refused while anything but what the stop itself withdraws holds the service, and between two states;
      otherwise the service is stopped, unless the driver fails to. */
  lemma StopOutcome(s: Sys, force: bool, reason: Hold, reply: Reply)
    ensures var r := Stop(s, force, reason, reply); var q, t := s.w.rec, r.s.w.rec;
            var others := exists h | h in q.holds :: q.holds[h] > 0 && (reason == AdminHold ==> h != AdminHold);
            && (r.Ok? <==> (force || !others) && (Down(q.state) || (Active(q.state) && reply.ok)))
            && (r.Ok? ==> t.state == Stopped)
            && (!force && others ==> r == Raise(r.s, Busy) && t.state == q.state)
            && ((force || !others) && Moving(q.state) ==> r == Raise(r.s, Busy) && t.state == q.state)
            && ((force || !others) && Active(q.state) && !reply.ok ==>
                  r == Raise(r.s, DriverFailed) && t.state == Failed)
            && t.adminIntent == (q.adminIntent && reason != AdminHold)
            && t.holds == (if force then map[] else if reason == AdminHold then q.holds - {AdminHold} else q.holds)
            && t.sessions == (if force then map[] else q.sessions)
            && (r.Ok? && Active(q.state) ==>
                  r.s.w.now == s.w.now + reply.takes && t.lastStop == Some(r.s.w.now) && t.idleDeadline == None)
  {
    StatesDiffer(s.w.rec.state);
    StopLockedOutcome(Withdraw(s, force, reason), Requested(reason), reply);
    hide StopLocked, Active, Moving, Down;
    var q := s.w.rec;
    var left := Withdraw(s, false, reason).w.rec.holds;
    assert Held(left) <==> exists h | h in q.holds :: q.holds[h] > 0 && (reason == AdminHold ==> h != AdminHold) by {
      forall h | h in q.holds && q.holds[h] > 0 && (reason == AdminHold ==> h != AdminHold) ensures Held(left) {
        assert left[h] > 0;
      }
    }
    hide Held;
  }

  lemma StopLockedOutcome(s: Sys, why: Why, reply: Reply)
    ensures var r := StopLocked(s, why, reply); var q, t := s.w.rec, r.s.w.rec;
            && t.holds == q.holds && t.sessions == q.sessions && t.adminIntent == q.adminIntent
            && (Down(q.state) ==> r.Ok? && t.state == Stopped)
            && (Moving(q.state) ==> r == Raise(s, Busy))
            && (Active(q.state) && reply.ok ==>
                  && r.Ok? && t.state == Stopped && r.s.w.now == s.w.now + reply.takes
                  && t.lastStop == Some(r.s.w.now) && t.idleDeadline == None)
            && (Active(q.state) && !reply.ok ==> r == Raise(r.s, DriverFailed) && t.state == Failed)
  {
    StatesDiffer(s.w.rec.state);
    var s1 := Transition(s, Stopping, why).s;
    MoveOutcome(s, Stopping, why);
    MoveOutcome(s, Stopped, why);
    if Active(s.w.rec.state) {
      StopDriverOutcome(s1, why, reply);
    }
    hide Transition, StopDriver;
  }

  lemma MoveOutcome(s: Sys, to_: State, why: Why)
    ensures var r := Transition(s, to_, why);
            if Legal(s.w.rec.state, to_)
            then r.Ok? && r.s.w == s.w.(rec := s.w.rec.(state := to_), journal := r.s.w.journal)
            else r == Raise(s, InvalidTransition)
  {
  }

  lemma StopDriverOutcome(s: Sys, why: Why, reply: Reply)
    requires s.w.rec.state == Stopping
    ensures var r := StopDriver(s, why, reply); var q, t := s.w.rec, r.s.w.rec;
            && t.holds == q.holds && t.sessions == q.sessions && t.adminIntent == q.adminIntent
            && (reply.ok ==>
                  && r.Ok? && t.state == Stopped && r.s.w.now == s.w.now + reply.takes
                  && t.lastStop == Some(r.s.w.now) && t.idleDeadline == None)
            && (!reply.ok ==> r == Raise(r.s, DriverFailed) && t.state == Failed)
  {
    MoveOutcome(Later(s, reply.takes), Stopped, why);
    FailedFrame(Later(s, reply.takes), DriverFailed, StopFailure);
    hide Transition, MarkFailed, Frame;
  }

  // ---------------------------------------------------------------- sessions

  /** `acquire_session`: refused if a single session is all there may be and there is one, or between two states;
      otherwise the service is up and the new session is noted and counted. */
  lemma AcquireOutcome(c: Config, s: Sys, attempts: seq<Attempt>)
    requires Startable(c, s.w.rec.state, attempts) && s.w.nextId !in s.w.rec.sessions
    ensures var r := Acquire(c, s, attempts); var q, t := s.w.rec, r.s.w.rec;
            var full := c.sharing == SingleSession && q.sessions != map[];
            && (r.Ok? <==> !full && !Moving(q.state)) && (r.Raise? ==> r.e == Busy)
            && OthersCount(q, t, SessionsHold)
            && (r.Ok? ==>
                  && t.state == (if Active(q.state) then q.state else Running) && t.idleDeadline == None
                  && t.sessions == q.sessions[s.w.nextId := s.w.now]
                  && Count(t.holds, SessionsHold) == Count(q.holds, SessionsHold) + 1)
            && (r.Raise? ==> t.state == q.state && t.sessions == q.sessions
                             && Count(t.holds, SessionsHold) == Count(q.holds, SessionsHold))
  {
    hide EnsureRunning, Startable, Active, Moving, Down, AddHold, RemoveHold, OthersCount, Count;
    var q := s.w.rec;
    StatesDiffer(q.state);
    var s1 := s.(w := s.w.(rec := q.(sessions := q.sessions[s.w.nextId := s.w.now]), nextId := s.w.nextId + 1));
    var s2 := AddHold(s1, SessionsHold);
    AddHoldCounts(s1, SessionsHold);
    EnsureOutcome(c, s2, ForSession, attempts);
    var r := EnsureRunning(c, s2, ForSession, attempts);
    var s3 := Put(r.s, r.s.w.rec.(sessions := r.s.w.rec.sessions - {s.w.nextId}));
    RemoveHoldCounts(s3, SessionsHold);
    assert q.sessions[s.w.nextId := s.w.now] - {s.w.nextId} == q.sessions;
    SameHolds(s1.w.rec, q);
    SameHolds(s2.w.rec, r.s.w.rec);
    SameHolds(s2.w.rec, s3.w.rec);
    OthersTrans(q, s2.w.rec, RemoveHold(s3, SessionsHold).w.rec, SessionsHold);
    SameHolds(q, q);
  }

  lemma AddHoldCounts(s: Sys, h: Hold)
    ensures var t := AddHold(s, h);
            && t.w == s.w.(rec := s.w.rec.(holds := t.w.rec.holds, idleDeadline := None))
            && Count(t.w.rec.holds, h) == Count(s.w.rec.holds, h) + 1 && OthersCount(s.w.rec, t.w.rec, h)
  {
  }

  lemma RemoveHoldCounts(s: Sys, h: Hold)
    ensures var t := RemoveHold(s, h); var n := Count(s.w.rec.holds, h);
            && t.w == s.w.(rec := s.w.rec.(holds := t.w.rec.holds))
            && Count(t.w.rec.holds, h) == (if n == 0 then 0 else n - 1) && OthersCount(s.w.rec, t.w.rec, h)
  {
  }

  /** Equal holds can stand for each other wherever holds are counted. */
  lemma SameHolds(r: Record, t: Record)
    ensures t.holds == r.holds ==>
              && (forall h :: OthersCount(r, t, h))
              && (forall p, h | OthersCount(p, r, h) :: OthersCount(p, t, h))
              && (forall p, h | OthersCount(p, t, h) :: OthersCount(p, r, h))
              && (forall p, h | OthersCount(r, p, h) :: OthersCount(t, p, h))
              && (forall p, h | OthersCount(t, p, h) :: OthersCount(r, p, h))
              && (forall h :: Count(r.holds, h) == Count(t.holds, h))
  {
  }

  /** What one step adds and another takes back, with the others left alone by both. */
  lemma OthersTrans(r: Record, s: Record, t: Record, h: Hold)
    ensures OthersCount(r, s, h) && OthersCount(s, t, h) ==> OthersCount(r, t, h)
  {
  }

  /** `release_session`: an unknown session raises and changes nothing; a known one goes with its count, and a
      service that nothing holds any more is given its idle timeout. */
  lemma ReleaseOutcome(c: Config, s: Sys, id: nat)
    ensures var r := Release(c, s, id); var q, t := s.w.rec, r.s.w.rec;
            && (id !in q.sessions ==> r == Raise(s, UnknownSession))
            && (id in q.sessions ==>
                  && r.Ok? && t.state == q.state && t.sessions == q.sessions - {id} && OthersCount(q, t, SessionsHold)
                  && Count(t.holds, SessionsHold) == (if Count(q.holds, SessionsHold) == 0 then 0
                                                      else Count(q.holds, SessionsHold) - 1)
                  && IdleFollows(c, s, r.s))
  {
    if id in s.w.rec.sessions {
      var s1 := RemoveHold(Put(s, s.w.rec.(sessions := s.w.rec.sessions - {id})), SessionsHold);
      IdleOutcome(c, s1);
      hide ScheduleIdle;
    }
  }

  /** A running service without holds that is there on demand has a deadline, set a timeout ahead if there was
      none; any other keeps what it had. */
  ghost predicate IdleFollows(c: Config, s: Sys, t: Sys) {
    t.w.rec.idleDeadline ==
      if s.w.mode == OnDemand && t.w.rec.state == Running && s.w.rec.idleDeadline == None
         && forall h :: Count(t.w.rec.holds, h) == 0
      then Some(s.w.now + c.idleTimeout) else s.w.rec.idleDeadline
  }

  lemma IdleOutcome(c: Config, s: Sys)
    ensures var t := ScheduleIdle(c, s);
            && IdleFollows(c, s, t) && t.w.now == s.w.now && t.w.mode == s.w.mode
            && t.w.rec == s.w.rec.(idleDeadline := t.w.rec.idleDeadline)
  {
    HeldIsCounted(s.w.rec.holds);
    hide Held;
  }

  // ---------------------------------------------------------------- maintenance

  /** The first region of a maintenance run: which requests are refused and why, when the service is woken, and
      that a refusal leaves neither key nor hold. */
  lemma BeginOutcome(c: Config, s: Sys, name: string, attempts: seq<Attempt>)
    requires Startable(c, s.w.rec.state, attempts)
    ensures var r := Begin(c, s, name, attempts); var q, t := s.w.rec, r.s.w.rec; var job := FindJob(c.jobs, name);
            && (job.None? ==> r == Raise(s, UnknownJob))
            && (job.Some? && name in s.w.running ==> r == Raise(s, Busy))
            && (job.Some? && name !in s.w.running ==>
                  && (!Active(q.state) && !job.value.wakeIfStopped ==> r == Raise(s, JobForbidden))
                  && (Moving(q.state) && job.value.wakeIfStopped ==> r == Raise(r.s, Busy) && t.state == q.state)
                  && (q.state == Maintenance ==> r == Raise(r.s, InvalidTransition) && t.state == q.state)
                  && (q.state == Ready || q.state == Running || (Down(q.state) && job.value.wakeIfStopped) ==>
                        && r.Ok? && t.state == Maintenance && r.s.w.running == s.w.running + {name}
                        && r.s.w.inFlight == s.w.inFlight[name := Active(q.state)]
                        && Count(t.holds, MaintenanceHold) == Count(q.holds, MaintenanceHold) + 1
                        && OthersCount(q, t, MaintenanceHold))
                  && (r.Raise? ==> r.s.w.running == s.w.running && r.s.w.inFlight == s.w.inFlight
                                   && forall h :: Count(t.holds, h) == Count(q.holds, h)))
  {
    hide EnsureRunning, Startable, FindJob, AddHold, RemoveHold, OthersCount, Count, Transition;
    var q, s0 := s.w.rec, s.(w := s.w.(running := s.w.running + {name}));
    var s1 := AddHold(s0, MaintenanceHold);
    AddHoldCounts(s0, MaintenanceHold);
    StatesDiffer(q.state);
    EnsureOutcome(c, s1, ForJob(name), attempts);
    StartsOutside(c, s1, ForJob(name), attempts);
    var r := EnsureRunning(c, s1, ForJob(name), attempts);
    MoveOutcome(r.s, Maintenance, ForJob(name));
    var s2 := Enter(c, s1, name, attempts).s;
    RemoveHoldCounts(s2, MaintenanceHold);
    SameHolds(s0.w.rec, q);
    SameHolds(s1.w.rec, r.s.w.rec);
    SameHolds(s1.w.rec, s2.w.rec);
    OthersTrans(q, s1.w.rec, RemoveHold(s2, MaintenanceHold).w.rec, MaintenanceHold);
    AllCount(q, RemoveHold(s2, MaintenanceHold).w.rec, MaintenanceHold);
  }

  lemma AllCount(r: Record, t: Record, h: Hold)
    ensures OthersCount(r, t, h) && Count(t.holds, h) == Count(r.holds, h) ==>
              forall k :: Count(t.holds, k) == Count(r.holds, k)
  {
  }

  /** What a finished job leaves in the record, in either case: its result and the time, which counts as its last
      run. */
  predicate Recorded(s: Sys, t: Sys, name: string, ok: bool) {
    && t.w.rec.results == s.w.rec.results[name := JobResult(s.w.now, ok)]
    && t.w.rec.lastRun == s.w.rec.lastRun[name := s.w.now]
  }

  /** One maintenance hold less, and all others as before. */
  ghost predicate GivesBack(r: Record, t: Record) {
    && Count(t.holds, MaintenanceHold) == (if Count(r.holds, MaintenanceHold) == 0 then 0
                                           else Count(r.holds, MaintenanceHold) - 1)
    && OthersCount(r, t, MaintenanceHold)
  }

  /** The second region of a successful job: the service runs again with its idle timeout, or is stopped if it was
      woken for the job, the job asks for it, and nothing holds it any more. */
  lemma FinishSucceeded(c: Config, s: Sys, name: string, reply: Reply, attempts: seq<Attempt>)
    requires FindJob(c.jobs, name).Some? && name in s.w.inFlight && Legal(s.w.rec.state, Running)
    ensures var r := Finish(c, s, name, true, reply, attempts); var q, t := s.w.rec, r.s.w.rec;
            var stops := !s.w.inFlight[name] && FindJob(c.jobs, name).value.shutdownAfter
                         && forall h :: Count(t.holds, h) == 0;
            && Recorded(s, r.s, name, true) && GivesBack(q, t) && r.s.w.running == s.w.running - {name}
            && (!stops ==> r.Ok? && t.state == Running && IdleFollows(c, s, r.s))
            && (stops && reply.ok ==> r.Ok? && t.state == Stopped)
            && (stops && !reply.ok ==> r == Raise(r.s, DriverFailed) && t.state == Failed)
  {
    hide *;
    var s1 := JobKeys.Recorded(s, name, true);
    var s2 := Transition(s1, Running, JobDone(name)).s;
    var s4 := JobKeys.Freed(s2, name);
    RecordedShape(s, name, true);
    MoveOutcome(s1, Running, JobDone(name));
    FreedShape(s2, name);
    FinishUnfolds(c, s, name, true, reply, attempts);
    StopLockedOutcome(s4, JobDone(name), reply);
    StopLockedKeeps(s4, JobDone(name), reply);
    IdleOutcome(c, s4);
    HeldIsCounted(s4.w.rec.holds);
    IdleKeepsMemory(c, s4);
    SameIdle(c, s, s4, ScheduleIdle(c, s4));
    Given(s.w.rec, s2.w.rec, s4.w.rec, ScheduleIdle(c, s4).w.rec);
    Given(s.w.rec, s2.w.rec, s4.w.rec, StopLocked(s4, JobDone(name), reply).s.w.rec);
    RunningUp();
    RecordedOn(s, s1, s4, name, true);
    RecordedOn(s, s4, ScheduleIdle(c, s4), name, true);
    RecordedOn(s, s4, StopLocked(s4, JobDone(name), reply).s, name, true);
  }

  /** The second region of a failed job: the service has failed, and is restarted as after any failure. */
  lemma FinishFailed(c: Config, s: Sys, name: string, reply: Reply, attempts: seq<Attempt>)
    requires FindJob(c.jobs, name).Some? && name in s.w.inFlight
    requires s.w.rec.state == Failed || Legal(s.w.rec.state, Failed)
    ensures var r := Finish(c, s, name, false, reply, attempts); var q, t := s.w.rec, r.s.w.rec;
            var recent := Recent(q.restartTimes, s.w.now, c.window);
            && r.Raise?
            && (c.restart == Never ==>
                  r.e == JobFailed && t.state == Failed && Recorded(s, r.s, name, false) && GivesBack(q, t))
            && (c.restart != Never && |recent| >= c.maxRestarts ==>
                  r.e == RestartLimit && t.state == Failed && t.exhausted && Recorded(s, r.s, name, false))
            && (c.restart != Never && |recent| < c.maxRestarts && c.backoff > 0 ==>
                  && r.e == JobFailed && t.state == Failed && Recorded(s, r.s, name, false)
                  && t.nextRestart == Some(s.w.now + c.backoff) && Count(t.holds, RecoveryHold) == 1)
            && (c.restart != Never && |recent| < c.maxRestarts && c.backoff == 0
                && attempts != [] && ComesUp(c, attempts[0]) ==>
                  r.e == JobFailed && t.state == Running && RecoveryHold !in t.holds)
  {
    hide *;
    var s1 := JobKeys.Recorded(s, name, false);
    var s2 := MarkFailed(s1, JobFailed, JobBroke(name)).s;
    var s4 := JobKeys.Freed(s2, name);
    RecordedShape(s, name, false);
    FailedFrame(s1, JobFailed, JobBroke(name));
    FreedShape(s2, name);
    FinishUnfolds(c, s, name, false, reply, attempts);
    RestartOutcome(c, s4, attempts);
    RestartAtOnce(c, s4, attempts);
    Given(s.w.rec, s2.w.rec, s4.w.rec, s4.w.rec);
    RecordedOn(s, s1, s4, name, false);
    RecordedOn(s, s4, RestartAfterFailure(c, s4, attempts).s, name, false);
    OneCount(s4.w.rec.holds, RecoveryHold);
  }

  lemma FinishUnfolds(c: Config, s: Sys, name: string, ok: bool, reply: Reply, attempts: seq<Attempt>)
    requires FindJob(c.jobs, name).Some? && name in s.w.inFlight
    requires if ok then Legal(s.w.rec.state, Running) else s.w.rec.state == Failed || Legal(s.w.rec.state, Failed)
    ensures var s1 := JobKeys.Recorded(s, name, ok);
            var s2 := (if ok then Transition(s1, Running, JobDone(name))
                       else MarkFailed(s1, JobFailed, JobBroke(name))).s;
            var s4 := JobKeys.Freed(s2, name);
            Finish(c, s, name, ok, reply, attempts) ==
              if ok then
                if !s.w.inFlight[name] && FindJob(c.jobs, name).value.shutdownAfter && !Held(s4.w.rec.holds)
                then StopLocked(s4, JobDone(name), reply) else Ok(ScheduleIdle(c, s4))
              else
                var r := RestartAfterFailure(c, s4, attempts); if r.Raise? then r else Raise(r.s, JobFailed)
  {
    hide RestartAfterFailure, StopLocked, ScheduleIdle, RemoveHold, FindJob, Held;
  }

  lemma RecordedShape(s: Sys, name: string, ok: bool)
    ensures var t := JobKeys.Recorded(s, name, ok);
            && t.w.now == s.w.now && t.w.mode == s.w.mode && t.w.running == s.w.running && Recorded(s, t, name, ok)
            && t.w.rec == s.w.rec.(results := t.w.rec.results, lastRun := t.w.rec.lastRun)
  {
  }

  lemma FreedShape(s: Sys, name: string)
    ensures var t := JobKeys.Freed(s, name);
            && t.w.now == s.w.now && t.w.mode == s.w.mode && t.w.running == s.w.running - {name}
            && t.w.rec == s.w.rec.(holds := t.w.rec.holds) && GivesBack(s.w.rec, t.w.rec)
  {
    RemoveHoldCounts(s, MaintenanceHold);
    hide RemoveHold, OthersCount, Count;
  }

  lemma StopLockedKeeps(s: Sys, why: Why, reply: Reply)
    ensures var t := StopLocked(s, why, reply).s;
            && t.w.rec.results == s.w.rec.results && t.w.rec.lastRun == s.w.rec.lastRun && t.w.running == s.w.running
  {
    var s1 := Transition(s, Stopping, why).s;
    StopDriverKeeps(s1, why, reply);
    hide StopDriver;
  }

  lemma StopDriverKeeps(s: Sys, why: Why, reply: Reply)
    ensures var t := StopDriver(s, why, reply).s;
            && t.w.rec.results == s.w.rec.results && t.w.rec.lastRun == s.w.rec.lastRun && t.w.running == s.w.running
  {
  }

  lemma IdleKeepsMemory(c: Config, s: Sys)
    ensures ScheduleIdle(c, s).w.running == s.w.running
  {
  }

  lemma SameIdle(c: Config, s: Sys, s1: Sys, t: Sys)
    requires s1.w.now == s.w.now && s1.w.mode == s.w.mode && s1.w.rec.idleDeadline == s.w.rec.idleDeadline
    ensures IdleFollows(c, s1, t) ==> IdleFollows(c, s, t)
  {
  }

  lemma Given(r: Record, s: Record, t: Record, u: Record)
    ensures s.holds == r.holds && GivesBack(s, t) && u.holds == t.holds ==> GivesBack(r, u)
  {
  }

  lemma RecordedOn(s: Sys, t: Sys, u: Sys, name: string, ok: bool)
    ensures Recorded(s, t, name, ok) && u.w.rec.results == t.w.rec.results && u.w.rec.lastRun == t.w.rec.lastRun ==>
              Recorded(s, u, name, ok)
  {
  }

  lemma RunningUp()
    ensures Active(Running)
  {
  }

  lemma OneCount(holds: Holds, h: Hold)
    ensures Count(holds[h := 1], h) == 1
  {
  }

  lemma HeldIsCounted(holds: Holds)
    ensures Held(holds) <==> !forall h :: Count(holds, h) == 0
  {
    if Held(holds) {
      var h :| h in holds && holds[h] > 0;
      assert Count(holds, h) > 0;
    }
  }
}
