/** What starting and recovering a service leave alone. */
module SupervisorFrames {
  import opened Wrappers
  import opened Lifecycle
  import opened SupervisorModel

  /** Only the runtime state, its restart accounting and the recovery hold may differ. */
  ghost predicate Frame(s: Sys, t: Sys) {
    && t.w.rec.sessions == s.w.rec.sessions
    && t.w.rec.adminIntent == s.w.rec.adminIntent
    && t.w.rec.lastRun == s.w.rec.lastRun && t.w.rec.results == s.w.rec.results
    && t.w.rec.idleDeadline == s.w.rec.idleDeadline
    && t.w.mode == s.w.mode
    && t.w.running == s.w.running
    && t.w.inFlight == s.w.inFlight
    && t.w.nextId == s.w.nextId
    && t.w.resets == s.w.resets
    && t.w.launches == s.w.launches
    && t.w.rec.holds - {RecoveryHold} == s.w.rec.holds - {RecoveryHold}
    && s.w.now <= t.w.now
    && |s.saves| <= |t.saves|
  }

  /** What no step of a start, a stop or a recovery touches: sessions, jobs and the lifecycle mode. */
  predicate Outside(s: Sys, t: Sys) {
    && t.w.rec.sessions == s.w.rec.sessions && t.w.nextId == s.w.nextId
    && t.w.running == s.w.running && t.w.inFlight == s.w.inFlight && t.w.mode == s.w.mode
  }

  lemma SmallMoves(c: Config)
    ensures forall s: Sys, to_: State, why: Why :: Outside(s, Transition(s, to_, why).s)
    ensures forall s: Sys, e: Error, why: Why ::
              Outside(s, MarkFailed(s, e, why).s)
              && (MarkFailed(s, e, why).Ok? ==> MarkFailed(s, e, why).s.w.rec.state == Failed)
    ensures forall s: Sys, h: Hold :: Outside(s, AddHold(s, h)) && Outside(s, RemoveHold(s, h))
    ensures forall s: Sys :: Outside(s, ScheduleIdle(c, s))
  {
  }

  lemma StopLockedOutside(s: Sys, why: Why, reply: Reply)
    ensures Outside(s, StopLocked(s, why, reply).s)
  {
    hide Transition, StopDriver;
    TransitionOutside(s, Stopped, why);
    TransitionOutside(s, Stopping, why);
    StopDriverOutside(Transition(s, Stopping, why).s, why, reply);
  }

  lemma StopDriverOutside(s: Sys, why: Why, reply: Reply)
    ensures Outside(s, StopDriver(s, why, reply).s)
  {
    hide MarkFailed, Transition;
    var s1 := Later(s, reply.takes);
    TransitionOutside(s1, Stopped, why);
    MarkFailedOutside(s1, DriverFailed, StopFailure);
  }

  lemma TransitionOutside(s: Sys, to_: State, why: Why)
    ensures Outside(s, Transition(s, to_, why).s)
  {
  }

  lemma MarkFailedOutside(s: Sys, e: Error, why: Why)
    ensures Outside(s, MarkFailed(s, e, why).s)
  {
  }

  lemma StartsOutside(c: Config, s: Sys, why: Why, attempts: seq<Attempt>)
    ensures Outside(s, EnsureRunning(c, s, why, attempts).s)
    ensures s.w.rec.state == Failed ==> Outside(s, RestartAfterFailure(c, s, attempts).s)
  {
    hide EnsureRunning, RestartAfterFailure;
    EnsureFrame(c, s, why, attempts);
    if s.w.rec.state == Failed {
      RestartFrame(c, s, attempts);
    }
  }

  lemma FrameCounts(s: Sys, t: Sys, h: Hold)
    requires Frame(s, t) && h != RecoveryHold
    ensures Count(t.w.rec.holds, h) == Count(s.w.rec.holds, h)
    ensures h in t.w.rec.holds <==> h in s.w.rec.holds
  {
    assert h in s.w.rec.holds <==> h in s.w.rec.holds - {RecoveryHold};
    assert h in t.w.rec.holds <==> h in t.w.rec.holds - {RecoveryHold};
    if h in s.w.rec.holds {
      assert (s.w.rec.holds - {RecoveryHold})[h] == (t.w.rec.holds - {RecoveryHold})[h];
    }
  }

  lemma FrameSelf(s: Sys)
    ensures Frame(s, s)
  {
  }

  lemma FrameTrans(s: Sys, t: Sys, u: Sys)
    requires Frame(s, t) && Frame(t, u)
    ensures Frame(s, u)
  {
  }

  lemma BeganFrame(s: Sys, why: Why, a: Attempt, c: Config)
    requires s.w.rec.state == Stopped || s.w.rec.state == Failed
    ensures var r := Transition(s, Starting, why); var tried := TryStart(c, r.s.w.now, a);
            && r.Ok? && r.s.w.rec == s.w.rec.(state := Starting) && r.s.w.now == s.w.now
            && r.s.w.grants == s.w.grants
            && tried.at >= r.s.w.now && Frame(s, At(r.s, tried.at))
            && tried.error in {None, Some(DriverFailed), Some(ReadinessTimeout)}
  {
    AttemptTakesTime(c, s.w.now, a);
  }

  lemma StartedFrame(s: Sys, why: Why)
    requires s.w.rec.state == Starting
    ensures var r1 := Transition(s, Ready, why); var r2 := Transition(r1.s, Running, why);
            r1.Ok? && r2.Ok? && Frame(s, Started(r2.s)) && Started(r2.s).w.rec.state == Running
            && Started(r2.s).w.rec.holds == s.w.rec.holds && Started(r2.s).w.now == s.w.now
            && Started(r2.s).w.rec.nextRestart == None && !Started(r2.s).w.rec.exhausted
  {
  }

  lemma FailedFrame(s: Sys, e: Error, why: Why)
    requires Legal(s.w.rec.state, Failed) || s.w.rec.state == Failed
    ensures var r := MarkFailed(s, e, why);
            && r.Ok? && Frame(s, r.s) && r.s.w.rec.state == Failed && r.s.w.now == s.w.now
            && r.s.w.rec == s.w.rec.(state := Failed, lastFailure := Some(e))
            && r.s.w.grants == s.w.grants
  {
  }

  lemma GrantFrame(c: Config, s: Sys, prior: seq<nat>)
    ensures Frame(s, Grant(c, s, prior)) && Frame(s, Exhaust(s, prior)) && Frame(s, DropRecovery(s))
  {
    assert Grant(c, s, prior).w.rec.holds - {RecoveryHold} == s.w.rec.holds - {RecoveryHold};
    assert Exhaust(s, prior).w.rec.holds - {RecoveryHold} == s.w.rec.holds - {RecoveryHold};
    assert DropRecovery(s).w.rec.holds - {RecoveryHold} == s.w.rec.holds - {RecoveryHold};
  }

  /** What a start that is really made comes to. */
  lemma EnsureUnfolds(c: Config, s: Sys, why: Why, attempts: seq<Attempt>)
    requires (s.w.rec.state == Stopped || s.w.rec.state == Failed) && attempts != []
    ensures var s1 := Transition(s, Starting, why).s;
            var a := TryStart(c, s1.w.now, attempts[0]);
            && a.at >= s1.w.now
            && var s2 := At(s1, a.at);
               EnsureRunning(c, s, why, attempts) ==
                 match a.error
                 case None => Ok(Started(Transition(Transition(s2, Ready, why).s, Running, why).s))
                 case Some(e) =>
                   var r := RestartAfterFailure(c, MarkFailed(s2, e, StartFailure).s, attempts[1..]);
                   if r.Ok? && r.s.w.rec.state == Failed then Raise(r.s, e) else r
  {
    hide RestartAfterFailure, TryStart;
    AttemptTakesTime(c, s.w.now, attempts[0]);
  }

  /** A start leaves the frame alone, and unless the service was already active it ends running,
      failed, or where it was when it raised at once. */
  lemma {:induction false} EnsureFrame(c: Config, s: Sys, why: Why, attempts: seq<Attempt>)
    ensures var r := EnsureRunning(c, s, why, attempts); var state := s.w.rec.state;
            && Frame(s, r.s)
            && (Active(state) ==> r == Ok(s))
            && (state == Starting || state == Stopping ==> r == Raise(s, Busy))
            && (state == Stopped || state == Failed ==>
                  if r.Ok? then r.s.w.rec.state == Running
                  else r.s.w.rec.state == Failed || r.s == s)
            && r != Raise(r.s, InvalidTransition)
    decreases |attempts|, 1
  {
    var state := s.w.rec.state;
    if (state == Stopped || state == Failed) && attempts != [] {
      StartFrame(c, s, why, attempts);
      hide EnsureRunning, Frame;
    } else {
      FrameSelf(s);
      hide Frame;
    }
  }

  /** A start that is really made. */
  lemma {:induction false} StartFrame(c: Config, s: Sys, why: Why, attempts: seq<Attempt>)
    requires (s.w.rec.state == Stopped || s.w.rec.state == Failed) && attempts != []
    ensures var r := EnsureRunning(c, s, why, attempts);
            && Frame(s, r.s) && r.s.w.rec.state == (if r.Ok? then Running else Failed)
            && (r.Raise? ==> r.e != InvalidTransition)
    decreases |attempts|, 0
  {
    hide EnsureRunning, Frame, TryStart, MarkFailed, Transition, RestartAfterFailure, Started;
    EnsureUnfolds(c, s, why, attempts);
    BeganFrame(s, why, attempts[0], c);
    var s1 := Transition(s, Starting, why).s;
    var a := TryStart(c, s1.w.now, attempts[0]);
    var s2 := At(s1, a.at);
    match a.error {
      case None =>
        StartedFrame(s2, why);
        FrameTrans(s, s2, EnsureRunning(c, s, why, attempts).s);
      case Some(e) =>
        FailedFrame(s2, e, StartFailure);
        var s3 := MarkFailed(s2, e, StartFailure).s;
        RestartFrame(c, s3, attempts[1..]);
        FrameTrans(s, s2, s3);
        FrameTrans(s, s3, RestartAfterFailure(c, s3, attempts[1..]).s);
    }
  }

  lemma {:induction false} RestartFrame(c: Config, s: Sys, attempts: seq<Attempt>)
    requires s.w.rec.state == Failed
    ensures var r := RestartAfterFailure(c, s, attempts);
            && Frame(s, r.s)
            && (r.s.w.rec.state == Failed || (r.Ok? && r.s.w.rec.state == Running))
            && r != Raise(r.s, InvalidTransition)
            && (r.Ok? && c.restart != Never && c.backoff == 0 ==> r.s.w.rec.state == Running)
    decreases |attempts|, 2
  {
    hide Frame, EnsureRunning, Recent, Grant, Exhaust, DropRecovery;
    var prior := Recent(s.w.rec.restartTimes, s.w.now, c.window);
    FrameSelf(s);
    GrantFrame(c, s, prior);
    GrantStates(c, s, prior);
    var s1 := Grant(c, s, prior);
    if c.restart != Never && |prior| < c.maxRestarts && c.backoff == 0 {
      EnsureFrame(c, s1, Recovery, attempts);
      var t := EnsureRunning(c, s1, Recovery, attempts).s;
      GrantFrame(c, t, prior);
      GrantStates(c, t, prior);
      FrameTrans(s, s1, t);
      FrameTrans(s, t, DropRecovery(t));
    }
  }

  lemma GrantStates(c: Config, s: Sys, prior: seq<nat>)
    ensures Grant(c, s, prior).w.rec.state == s.w.rec.state && Exhaust(s, prior).w.rec.state == s.w.rec.state
    ensures DropRecovery(s).w.rec.state == s.w.rec.state
  {
  }
}
