/** Where one reconciliation leads, from any record a state file can hold. */
module SupervisorConvergence {
  import opened Wrappers
  import opened Lifecycle
  import opened SupervisorModel
  import opened SupervisorFrames
  import opened SupervisorReadiness

  predicate Settled(state: State) { state == Stopped || state == Running || state == Failed }

  lemma MoveOutcome(s: Sys, to_: State)
    requires Legal(s.w.rec.state, to_)
    ensures var r := Transition(s, to_, Reconciling);
            && r.Ok? && r.s.w.rec == s.w.rec.(state := to_) && r.s.w.now == s.w.now && Frame(s, r.s)
  {
  }

  lemma ResetOutcome(s: Sys)
    requires s.w.rec.state == Starting || s.w.rec.state == Ready
    ensures var r := ResetStale(s); r.Ok? && r.s.w.rec.state == Stopped && Frame(s, r.s)
  {
    hide Transition, MarkFailed;
    FailedFrame(s, StaleState, Reconciling);
    MoveOutcome(MarkFailed(s, StaleState, Reconciling).s, Stopped);
  }

  lemma LostOutcome(c: Config, s: Sys, attempts: seq<Attempt>)
    requires s.w.rec.state == Running || s.w.rec.state == Maintenance
    ensures var r := Lost(c, s, attempts);
            && Settled(r.s.w.rec.state) && Frame(s, r.s)
            && (r.Raise? ==> r.e != InvalidTransition && r.e != Busy)
  {
    hide Transition, MarkFailed, RestartAfterFailure;
    FailedFrame(s, RuntimeDied, Reconciling);
    var s1 := MarkFailed(s, RuntimeDied, Reconciling).s;
    MoveOutcome(s1, Stopped);
    RestartErrors(c, s1, attempts);
    RestartFrame(c, s1, attempts);
    FrameTrans(s, s1, Lost(c, s, attempts).s);
  }

  lemma AdoptOutcome(s: Sys)
    requires s.w.rec.state == Stopped || s.w.rec.state == Failed
    ensures var r := Adopt(s);
            && r.Ok? && r.s.w.rec == s.w.rec.(state := Running) && r.s.w.now == s.w.now && Frame(s, r.s)
  {
    hide Transition;
    MoveOutcome(s, Starting);
    var s1 := Transition(s, Starting, Reconciling).s;
    MoveOutcome(s1, Ready);
    MoveOutcome(Transition(s1, Ready, Reconciling).s, Running);
  }

  lemma AdoptStarting(s: Sys)
    requires s.w.rec.state == Starting
    ensures var r1 := Transition(s, Ready, Reconciling); var r2 := Transition(r1.s, Running, Reconciling);
            r1.Ok? && r2.Ok? && r2.s.w.rec.state == Running && Frame(s, r2.s)
  {
  }

  /** A live runtime is taken over, or recorded as failed and taken over next. */
  lemma SettleAlive(c: Config, s: Sys, attempts: seq<Attempt>)
    ensures var r := Settle(c, s, true, attempts);
            r.Ok? && Frame(s, r.s) && (r.s.w.rec.state == Running || r.s.w.rec.state == Failed)
  {
    hide Transition, Adopt, Lost, ResetStale, Frame;
    match s.w.rec.state
    case Stopping =>
      assert Settle(c, s, true, attempts) == Transition(s, Failed, Reconciling);
      hide Settle;
      MoveOutcome(s, Failed);
    case Starting => AdoptStarting(s);
    case Ready | Maintenance =>
      assert Settle(c, s, true, attempts) == Transition(s, Running, Reconciling);
      hide Settle;
      MoveOutcome(s, Running);
    case Stopped =>
      assert Settle(c, s, true, attempts) == Adopt(s);
      hide Settle;
      AdoptOutcome(s);
    case Running | Failed =>
      assert Settle(c, s, true, attempts) == Ok(s);
      hide Settle;
      FrameSelf(s);
  }

  /** A dead one is recorded as stopped or failed, or recovered; this fails only as a restart can. */
  lemma SettleDead(c: Config, s: Sys, attempts: seq<Attempt>)
    ensures var r := Settle(c, s, false, attempts);
            && Settled(r.s.w.rec.state) && Frame(s, r.s)
            && (r.Raise? ==> r.e != InvalidTransition && r.e != Busy)
  {
    hide Transition, Adopt, Lost, ResetStale, Frame;
    match s.w.rec.state
    case Stopping => MoveOutcome(s, Stopped);
    case Starting => ResetOutcome(s);
    case Ready => ResetOutcome(s);
    case Running => LostOutcome(c, s, attempts);
    case Maintenance => LostOutcome(c, s, attempts);
    case Stopped => FrameSelf(s);
    case Failed => FrameSelf(s);
  }

  lemma {:induction false} RestartErrors(c: Config, s: Sys, attempts: seq<Attempt>)
    requires s.w.rec.state == Failed
    ensures var r := RestartAfterFailure(c, s, attempts); r.Raise? ==> r.e != Busy && r.e != InvalidTransition
    decreases |attempts|, 1
  {
    EnsureErrors(c, Grant(c, s, Recent(s.w.rec.restartTimes, s.w.now, c.window)), Recovery, attempts);
  }

  lemma {:induction false} EnsureErrors(c: Config, s: Sys, why: Why, attempts: seq<Attempt>)
    requires s.w.rec.state == Stopped || s.w.rec.state == Failed
    ensures var r := EnsureRunning(c, s, why, attempts); r.Raise? ==> r.e != Busy && r.e != InvalidTransition
    decreases |attempts|, 0
  {
    if attempts != [] {
      hide EnsureRunning, TryStart, Transition, MarkFailed, RestartAfterFailure, Frame;
      EnsureUnfolds(c, s, why, attempts);
      BeganFrame(s, why, attempts[0], c);
      var s1 := Transition(s, Starting, why).s;
      var a := TryStart(c, s1.w.now, attempts[0]);
      var s2 := At(s1, a.at);
      if a.error.Some? {
        FailedFrame(s2, a.error.value, StartFailure);
        RestartErrors(c, MarkFailed(s2, a.error.value, StartFailure).s, attempts[1..]);
      }
    }
  }

  lemma IdleOutcome(c: Config, s: Sys)
    ensures var t := ScheduleIdle(c, s);
            t.w.rec.state == s.w.rec.state && t.w.rec.holds == s.w.rec.holds && (Held(s.w.rec.holds) ==> t == s)
  {
  }

  /** Holds as reconciliation wants them, before any recovery hold. */
  predicate Declared(s: Sys) { DeclaredHolds(s) == s }

  lemma DeclaredIsStable(s: Sys)
    ensures var t := DeclaredHolds(s);
            && Declared(t) && t.w.mode == s.w.mode && t.saves == s.saves && t.w.now == s.w.now
            && t.w.rec == s.w.rec.(holds := t.w.rec.holds)
  {
    var t := DeclaredHolds(s);
    assert DeclaredHolds(t).w.rec.holds == t.w.rec.holds;
  }

  lemma DeclaredFrame(s: Sys, t: Sys)
    requires Declared(s) && Frame(s, t)
    ensures Declared(t)
  {
    var h, g := s.w.rec.holds, t.w.rec.holds;
    assert h == DeclaredHolds(s).w.rec.holds;
    FrameCounts(s, t, AlwaysOnHold);
    FrameCounts(s, t, AdminHold);
    assert DeclaredHolds(t).w.rec.holds == g;
  }

  /** Everything between the declared holds and the final write. */
  function Middle(c: Config, s: Sys, alive: bool, attempts: seq<Attempt>): Res {
    var s1 :- Settle(c, s, alive, attempts);
    var s2 :- if s1.w.rec.state == Failed && alive then Adopt(s1) else Ok(s1);
    Converge(c, s2, attempts)
  }

  lemma MiddleOutcome(c: Config, s: Sys, alive: bool, attempts: seq<Attempt>)
    ensures var r := Middle(c, s, alive, attempts);
            && Settled(r.s.w.rec.state) && Frame(s, r.s)
            && (r.Raise? ==> r.e != InvalidTransition && r.e != Busy)
            && (alive ==> r.Ok? && r.s.w.rec.state == Running)
  {
    hide Settle, Adopt, EnsureRunning;
    SettleAlive(c, s, attempts);
    SettleDead(c, s, attempts);
    var s1 := Settle(c, s, alive, attempts).s;
    if s1.w.rec.state == Failed { AdoptOutcome(s1); }
    var s2 := (if s1.w.rec.state == Failed && alive then Adopt(s1) else Ok(s1)).s;
    EnsureFrame(c, s2, Reconciling, attempts);
    if s2.w.rec.state != Running { EnsureErrors(c, s2, Reconciling, attempts); }
    if Settle(c, s, alive, attempts).Ok? {
      FrameTrans(s, s1, s2);
      FrameTrans(s, s2, Converge(c, s2, attempts).s);
    }
  }

  lemma ReconcileIsMiddle(c: Config, s: Sys, alive: bool, attempts: seq<Attempt>)
    ensures Reconcile(c, s, alive, attempts) ==
            match Middle(c, DeclaredHolds(s), alive, attempts)
            case Ok(t) => Ok(Save(ScheduleIdle(c, t)))
            case Raise(t, e) => Raise(t, e)
  {
    hide Settle, Adopt, Converge, ScheduleIdle;
  }

  /** From any record, with any driver: reconciliation makes only legal transitions, never finds the
      service busy, and leaves it stopped, running or failed; a live runtime is always adopted. */
  lemma ReconcileSettles(c: Config, s: Sys, alive: bool, attempts: seq<Attempt>)
    ensures var r := Reconcile(c, s, alive, attempts);
            && Settled(r.s.w.rec.state)
            && (r.Raise? ==> r.e != InvalidTransition && r.e != Busy)
            && (alive ==> r.Ok? && r.s.w.rec.state == Running)
  {
    hide Reconcile, Middle;
    ReconcileIsMiddle(c, s, alive, attempts);
    MiddleOutcome(c, DeclaredHolds(s), alive, attempts);
    IdleOutcome(c, Middle(c, DeclaredHolds(s), alive, attempts).s);
  }

  /** An immediate second reconciliation of a service found running changes nothing but writes the
      record again. */
  lemma SecondReconcileIsIdle(c: Config, s: Sys, alive: bool, attempts: seq<Attempt>, more: seq<Attempt>)
    requires Reconcile(c, s, alive, attempts).Ok?
    requires Reconcile(c, s, alive, attempts).s.w.rec.state == Running
    ensures var first := Reconcile(c, s, alive, attempts).s;
            Reconcile(c, first, true, more) == Ok(Save(first))
  {
    hide Reconcile, Middle, Frame, Declared;
    ReconcileIsMiddle(c, s, alive, attempts);
    DeclaredIsStable(s);
    var t := Middle(c, DeclaredHolds(s), alive, attempts).s;
    MiddleOutcome(c, DeclaredHolds(s), alive, attempts);
    DeclaredFrame(DeclaredHolds(s), t);
    IdleOutcome(c, t);
    RunningStays(c, t, more);
  }

  lemma RunningStays(c: Config, t: Sys, more: seq<Attempt>)
    requires Declared(t) && t.w.rec.state == Running
    ensures var first := Save(ScheduleIdle(c, t)); Reconcile(c, first, true, more) == Ok(Save(first))
  {
    var first := Save(ScheduleIdle(c, t));
    assert first.w.rec == t.w.rec.(idleDeadline := first.w.rec.idleDeadline);
    assert t.w.rec.holds == DeclaredHolds(t).w.rec.holds;
    assert DeclaredHolds(first) == first;
    assert ScheduleIdle(c, first) == first;
  }

  // ---------------------------------------------------------------- convergence

  /** The driver's answers bring the service up at the next start, whenever it is made. */
  ghost predicate Healthy(c: Config, attempts: seq<Attempt>) { attempts != [] && ComesUp(c, attempts[0]) }

  lemma HealthyStart(c: Config, s: Sys, why: Why, attempts: seq<Attempt>)
    requires Healthy(c, attempts) && (s.w.rec.state == Stopped || s.w.rec.state == Failed)
    ensures var r := EnsureRunning(c, s, why, attempts); r.Ok? && r.s.w.rec.state == Running
  {
    hide TryStart, Transition, MarkFailed, RestartAfterFailure;
    BeganFrame(s, why, attempts[0], c);
    var s1 := Transition(s, Starting, why).s;
    var a := TryStart(c, s1.w.now, attempts[0]);
    SucceedsIff(c, s1.w.now, attempts[0]);
    StartedFrame(At(s1, a.at), why);
  }

  predicate MayRetry(r: Record, now: nat) {
    !r.exhausted && (r.nextRestart.None? || now >= r.nextRestart.value)
  }

  /** Somebody wants the service up: its mode, the administrator, or another hold that survives. */
  ghost predicate Wanted(s: Sys) {
    s.w.mode == AlwaysOn || s.w.rec.adminIntent || exists h | h != AlwaysOnHold :: Count(s.w.rec.holds, h) > 0
  }

  lemma WantedIsHeld(s: Sys)
    ensures Wanted(s) <==> Held(DeclaredHolds(s).w.rec.holds)
  {
    var r, t := s.w.rec, DeclaredHolds(s).w.rec;
    if s.w.mode == AlwaysOn {
      assert t.holds[AlwaysOnHold] == 1;
    }
    if r.adminIntent {
      assert t.holds[AdminHold] == 1;
    }
    forall h | h != AlwaysOnHold && Count(r.holds, h) > 0 ensures Held(t.holds) {
      assert t.holds[h] > 0;
    }
    if Held(t.holds) && s.w.mode == OnDemand && !r.adminIntent {
      var h :| h in t.holds && t.holds[h] > 0;
      assert h != AlwaysOnHold && Count(r.holds, h) > 0;
    }
  }

  /** What decides whether reconciliations, the last one `wait` after the first, end with the service running,
      given a driver that can start it: a live runtime is adopted; a dead one is started if somebody wants the
      service and the restart policy lets it by then. */
  ghost predicate WillRunAfter(c: Config, s: Sys, alive: bool, wait: nat) {
    var r := s.w.rec;
    alive ||
    (Wanted(s) &&
     match r.state
     case Stopped | Starting | Ready | Stopping => true
     case Failed => MayRetry(r, s.w.now + wait)
     case Running | Maintenance =>
       if c.restart == Never then MayRetry(r, s.w.now + wait)
       else wait >= c.backoff && |Recent(r.restartTimes, s.w.now, c.window)| < c.maxRestarts)
  }

  /** The same in terms of the holds that reconciliation declares. */
  predicate Reaches(c: Config, s: Sys, alive: bool, wait: nat) {
    var r := s.w.rec;
    alive ||
    (Held(DeclaredHolds(s).w.rec.holds) &&
     match r.state
     case Stopped | Starting | Ready | Stopping => true
     case Failed => MayRetry(r, s.w.now + wait)
     case Running | Maintenance =>
       if c.restart == Never then MayRetry(r, s.w.now + wait)
       else wait >= c.backoff && |Recent(r.restartTimes, s.w.now, c.window)| < c.maxRestarts)
  }

  predicate ReachesNow(c: Config, s: Sys, alive: bool) { Reaches(c, s, alive, 0) }

  lemma ReachesIsWillRun(c: Config, s: Sys, alive: bool, wait: nat)
    ensures Reaches(c, s, alive, wait) <==> WillRunAfter(c, s, alive, wait)
    ensures ReachesNow(c, s, alive) <==> Reaches(c, s, alive, 0)
  {
    WantedIsHeld(s);
    hide Wanted, Held, DeclaredHolds, Recent, MayRetry;
  }

  lemma ConvergeOutcome(c: Config, s: Sys, attempts: seq<Attempt>)
    requires Healthy(c, attempts) && (s.w.rec.state == Stopped || s.w.rec.state == Failed)
    ensures var r := Converge(c, s, attempts);
            (r.Ok? && r.s.w.rec.state == Running) <==>
            Held(s.w.rec.holds) && (s.w.rec.state == Failed ==> MayRetry(s.w.rec, s.w.now))
  {
    HealthyStart(c, s, Reconciling, attempts);
    hide EnsureRunning;
  }

  /** A runtime found dead while it should run, and still held. */
  lemma LostAndHeld(c: Config, s: Sys, attempts: seq<Attempt>)
    requires Healthy(c, attempts) && Held(s.w.rec.holds)
    requires s.w.rec.state == Running || s.w.rec.state == Maintenance
    ensures var r := Middle(c, s, false, attempts);
            (r.Ok? && r.s.w.rec.state == Running) <==>
            if c.restart == Never then MayRetry(s.w.rec, s.w.now)
            else c.backoff == 0 && |Recent(s.w.rec.restartTimes, s.w.now, c.window)| < c.maxRestarts
  {
    hide MarkFailed, EnsureRunning, Transition;
    FailedFrame(s, RuntimeDied, Reconciling);
    var s1 := MarkFailed(s, RuntimeDied, Reconciling).s;
    if c.restart == Never {
      ConvergeOutcome(c, s1, attempts);
    } else if |Recent(s.w.rec.restartTimes, s.w.now, c.window)| < c.maxRestarts {
      HealthyStart(c, Grant(c, s1, Recent(s.w.rec.restartTimes, s.w.now, c.window)), Recovery, attempts);
    }
  }

  lemma MiddleRuns(c: Config, s: Sys, attempts: seq<Attempt>)
    requires Healthy(c, attempts) && Declared(s)
    ensures var r := Middle(c, s, false, attempts); (r.Ok? && r.s.w.rec.state == Running) <==> ReachesNow(c, s, false)
  {
    hide Transition, MarkFailed, Converge, RestartAfterFailure, Held;
    match s.w.rec.state
    case Stopping =>
      MoveOutcome(s, Stopped);
      ConvergeOutcome(c, Transition(s, Stopped, Reconciling).s, attempts);
    case Stopped => ConvergeOutcome(c, s, attempts);
    case Failed => ConvergeOutcome(c, s, attempts);
    case _ =>
      hide Middle;
      LostOrReset(c, s, attempts);
  }

  lemma LostOrReset(c: Config, s: Sys, attempts: seq<Attempt>)
    requires Healthy(c, attempts) && Declared(s)
    requires s.w.rec.state == Starting || s.w.rec.state == Ready || s.w.rec.state == Running
             || s.w.rec.state == Maintenance
    ensures var r := Middle(c, s, false, attempts); (r.Ok? && r.s.w.rec.state == Running) <==> ReachesNow(c, s, false)
  {
    if s.w.rec.state == Starting || s.w.rec.state == Ready {
      StaleRuns(c, s, attempts);
    } else if Held(s.w.rec.holds) {
      LostAndHeld(c, s, attempts);
    } else {
      LostRuns(c, s, attempts);
    }
    hide Middle, ReachesNow;
  }

  lemma StaleRuns(c: Config, s: Sys, attempts: seq<Attempt>)
    requires Healthy(c, attempts) && Declared(s) && (s.w.rec.state == Starting || s.w.rec.state == Ready)
    ensures var r := Middle(c, s, false, attempts); (r.Ok? && r.s.w.rec.state == Running) <==> ReachesNow(c, s, false)
  {
    hide Transition, MarkFailed, Converge, Frame, Held, Healthy;
    FailedFrame(s, StaleState, Reconciling);
    var s1 := MarkFailed(s, StaleState, Reconciling).s;
    MoveOutcome(s1, Stopped);
    ConvergeOutcome(c, Transition(s1, Stopped, Reconciling).s, attempts);
  }

  lemma LostRuns(c: Config, s: Sys, attempts: seq<Attempt>)
    requires Healthy(c, attempts) && Declared(s) && !Held(s.w.rec.holds)
    requires s.w.rec.state == Running || s.w.rec.state == Maintenance
    ensures var r := Middle(c, s, false, attempts); (r.Ok? && r.s.w.rec.state == Running) <==> ReachesNow(c, s, false)
  {
    hide Transition, MarkFailed, Converge, Frame, Held, Healthy;
    FailedFrame(s, RuntimeDied, Reconciling);
    var s1 := MarkFailed(s, RuntimeDied, Reconciling).s;
    MoveOutcome(s1, Stopped);
    ConvergeOutcome(c, Transition(s1, Stopped, Reconciling).s, attempts);
  }

  /** Convergence, exactly: whatever the supervisor had written when it died, reloading the record and
      reconciling once brings the service to running if and only if the runtime survived, or a declared
      hold survives and the restart policy allows a start now. A second reconciliation changes nothing. */
  lemma RestartedSupervisorConverges(c: Config, w: World, saves: seq<World>, alive: bool,
                                     attempts: seq<Attempt>, more: seq<Attempt>)
    requires Healthy(c, attempts)
    ensures var s := Sys(w.(rec := Loaded(Persisted(w.rec))), saves);
            var r := Reconcile(c, s, alive, attempts);
            && ((r.Ok? && r.s.w.rec.state == Running) <==> WillRunAfter(c, s, alive, 0))
            && (WillRunAfter(c, s, alive, 0) ==> Reconcile(c, r.s, true, more) == Ok(Save(r.s)))
  {
    hide Reconcile, Middle, ReachesNow, Reaches, WillRunAfter;
    var s := Sys(w.(rec := Loaded(Persisted(w.rec))), saves);
    ReachesIsWillRun(c, s, alive, 0);
    ReconcileRuns(c, s, alive, attempts);
    if ReachesNow(c, s, alive) {
      SecondReconcileIsIdle(c, s, alive, attempts, more);
    }
  }

  lemma ReconcileRuns(c: Config, s: Sys, alive: bool, attempts: seq<Attempt>)
    requires Healthy(c, attempts)
    ensures var r := Reconcile(c, s, alive, attempts);
            (r.Ok? && r.s.w.rec.state == Running) <==> ReachesNow(c, s, alive)
  {
    hide Reconcile, Middle;
    ReconcileSettles(c, s, alive, attempts);
    if !alive {
      ReconcileIsMiddle(c, s, alive, attempts);
      DeclaredIsStable(s);
      var t := DeclaredHolds(s);
      MiddleRuns(c, t, attempts);
      IdleOutcome(c, Middle(c, t, false, attempts).s);
      assert ReachesNow(c, t, false) <==> ReachesNow(c, s, false);
    }
  }

  // ---------------------------------------------------------------- two passes

  /** What a pass that starts nothing leaves alone. */
  predicate Alike(s: Sys, t: Sys) {
    && t.w.now == s.w.now && t.w.mode == s.w.mode && t.w.rec.adminIntent == s.w.rec.adminIntent
    && t.w.rec.holds == s.w.rec.holds && t.w.rec.exhausted == s.w.rec.exhausted
    && t.w.rec.nextRestart == s.w.rec.nextRestart
  }

  lemma AlikeAfterFailure(s: Sys, e: Error)
    requires Legal(s.w.rec.state, Failed) || s.w.rec.state == Failed
    ensures var r := MarkFailed(s, e, Reconciling); r.Ok? && r.s.w.rec.state == Failed && Alike(s, r.s)
  {
    FailedFrame(s, e, Reconciling);
    hide MarkFailed;
  }

  lemma AlikeAfterMove(s: Sys, to_: State)
    requires Legal(s.w.rec.state, to_)
    ensures var r := Transition(s, to_, Reconciling); r.Ok? && r.s.w.rec.state == to_ && Alike(s, r.s)
  {
    MoveOutcome(s, to_);
    hide Transition;
  }

  lemma AlikeHolds(s: Sys, t: Sys, wait: nat)
    requires Declared(s) && Alike(s, t)
    ensures DeclaredHolds(Later(t, wait)).w.rec.holds == s.w.rec.holds
  {
    assert DeclaredHolds(Later(t, wait)).w.rec.holds == DeclaredHolds(s).w.rec.holds;
  }

  /** A pass over a dead service that nothing holds. */
  lemma UnheldPass(c: Config, s: Sys, attempts: seq<Attempt>)
    requires !Held(s.w.rec.holds)
    ensures var r := Middle(c, s, false, attempts);
            r.Ok? && Alike(s, r.s) && r.s.w.rec.state == if s.w.rec.state == Failed then Failed else Stopped
  {
    hide Transition, MarkFailed, Held, EnsureRunning, RestartAfterFailure;
    match s.w.rec.state
    case Stopping => AlikeAfterMove(s, Stopped);
    case Stopped =>
    case Failed =>
    case Starting | Ready =>
      AlikeAfterFailure(s, StaleState);
      AlikeAfterMove(MarkFailed(s, StaleState, Reconciling).s, Stopped);
    case Running | Maintenance =>
      AlikeAfterFailure(s, RuntimeDied);
      AlikeAfterMove(MarkFailed(s, RuntimeDied, Reconciling).s, Stopped);
  }

  /** A pass that finds the service held and running but its runtime dead, and does not start it. */
  lemma LostPass(c: Config, s: Sys, attempts: seq<Attempt>)
    requires Held(s.w.rec.holds) && (s.w.rec.state == Running || s.w.rec.state == Maintenance)
    requires !ReachesNow(c, s, false) && Declared(s)
    ensures var t := Middle(c, s, false, attempts).s;
            var fits := |Recent(s.w.rec.restartTimes, s.w.now, c.window)| < c.maxRestarts;
            && t.w.rec.state == Failed && t.w.now == s.w.now
            && (c.restart == Never ==> Alike(s, t))
            && (c.restart != Never && !fits ==> t.w.rec.exhausted)
            && (c.restart != Never && fits ==>
                  !t.w.rec.exhausted && t.w.rec.nextRestart == Some(s.w.now + c.backoff)
                  && Count(t.w.rec.holds, RecoveryHold) == 1)
  {
    hide Transition, MarkFailed, EnsureRunning, Held, Recent, Alike;
    assert DeclaredHolds(s).w.rec.holds == s.w.rec.holds;
    AlikeAfterFailure(s, RuntimeDied);
    FailedFrame(s, RuntimeDied, Reconciling);
    var s1 := MarkFailed(s, RuntimeDied, Reconciling).s;
    assert Lost(c, s, attempts) == RestartAfterFailure(c, s1, attempts);
    if c.restart == Never {
      assert Alike(s, s1);
    }
    hide DeclaredHolds, Lost;
  }

  /** What one more pass, `wait` later, decides by. */
  lemma PassLeaves(c: Config, s: Sys, attempts: seq<Attempt>, wait: nat)
    requires Declared(s) && !ReachesNow(c, s, false)
    ensures var t := Middle(c, s, false, attempts).s;
            Reaches(c, Later(t, wait), false, 0) <==> Reaches(c, s, false, wait)
  {
    if !Held(s.w.rec.holds) || s.w.rec.state == Failed {
      QuietPassLeaves(c, s, attempts, wait);
    } else {
      LostPassLeaves(c, s, attempts, wait);
    }
    hide Middle, Reaches, Held;
  }

  lemma QuietPassLeaves(c: Config, s: Sys, attempts: seq<Attempt>, wait: nat)
    requires Declared(s) && !ReachesNow(c, s, false) && (!Held(s.w.rec.holds) || s.w.rec.state == Failed)
    ensures var t := Middle(c, s, false, attempts).s;
            Reaches(c, Later(t, wait), false, 0) <==> Reaches(c, s, false, wait)
  {
    hide EnsureRunning, Held, Recent;
    var t := Middle(c, s, false, attempts).s;
    assert DeclaredHolds(s).w.rec.holds == s.w.rec.holds;
    if !Held(s.w.rec.holds) {
      UnheldPass(c, s, attempts);
    } else {
      assert t == s;
    }
    AlikeHolds(s, t, wait);
    hide Middle, Declared, DeclaredHolds;
  }

  lemma LostPassLeaves(c: Config, s: Sys, attempts: seq<Attempt>, wait: nat)
    requires Declared(s) && !ReachesNow(c, s, false) && Held(s.w.rec.holds) && s.w.rec.state != Failed
    ensures var t := Middle(c, s, false, attempts).s;
            Reaches(c, Later(t, wait), false, 0) <==> Reaches(c, s, false, wait)
  {
    hide Middle, Held, Recent;
    assert DeclaredHolds(s).w.rec.holds == s.w.rec.holds;
    LostPass(c, s, attempts);
    var t := Middle(c, s, false, attempts).s;
    if c.restart == Never {
      AlikeHolds(s, t, wait);
    } else {
      HeldByRecovery(Later(t, wait));
    }
    hide Declared, DeclaredHolds;
  }

  lemma HeldByRecovery(s: Sys)
    ensures Count(s.w.rec.holds, RecoveryHold) == 1 ==> Held(DeclaredHolds(s).w.rec.holds)
  {
    assert Count(DeclaredHolds(s).w.rec.holds, RecoveryHold) == Count(s.w.rec.holds, RecoveryHold);
  }

  /** The last write of a pass changes nothing that matters to the next. */
  lemma LastWrite(c: Config, t: Sys, wait: nat)
    ensures var u := Save(ScheduleIdle(c, t));
            Reaches(c, Later(u, wait), false, 0) <==> Reaches(c, Later(t, wait), false, 0)
  {
    var u := Save(ScheduleIdle(c, t));
    assert u.w.rec == t.w.rec.(idleDeadline := u.w.rec.idleDeadline) && u.w == t.w.(rec := u.w.rec);
  }

  /** Convergence of two passes, exactly: reloading the record, reconciling, and reconciling again `wait` later
      brings the service to running if and only if the runtime survived, or a declared hold survives and the
      policy allows a start by then; so a restart granted by the first pass is made after its backoff. */
  lemma TwoPassesConverge(c: Config, w: World, saves: seq<World>, alive: bool, attempts: seq<Attempt>, wait: nat,
                          more: seq<Attempt>)
    requires Healthy(c, attempts) && Healthy(c, more)
    ensures var s := Sys(w.(rec := Loaded(Persisted(w.rec))), saves);
            var first := Reconcile(c, s, alive, attempts).s;
            var second := Reconcile(c, Later(first, wait), first.w.rec.state == Running, more);
            (second.Ok? && second.s.w.rec.state == Running) <==> WillRunAfter(c, s, alive, wait)
  {
    var s := Sys(w.(rec := Loaded(Persisted(w.rec))), saves);
    ReachesIsWillRun(c, s, alive, wait);
    SecondPass(c, s, alive, attempts, wait, more);
    hide Reconcile, Reaches, WillRunAfter;
  }

  lemma SecondPass(c: Config, s: Sys, alive: bool, attempts: seq<Attempt>, wait: nat, more: seq<Attempt>)
    requires Healthy(c, attempts) && Healthy(c, more)
    ensures var first := Reconcile(c, s, alive, attempts).s;
            var second := Reconcile(c, Later(first, wait), first.w.rec.state == Running, more);
            (second.Ok? && second.s.w.rec.state == Running) <==> Reaches(c, s, alive, wait)
  {
    var r := Reconcile(c, s, alive, attempts);
    ReachesLater(c, s, alive, wait);
    hide Reconcile, Healthy, Reaches, Middle;
    RaisedIsDown(c, s, alive, attempts);
    ReconcileRuns(c, s, alive, attempts);
    ReconcileRuns(c, Later(r.s, wait), r.s.w.rec.state == Running, more);
    if ReachesNow(c, s, alive) {
      ReconcileSettles(c, Later(r.s, wait), true, more);
    } else {
      NotRunYet(c, s, alive, attempts, wait);
    }
  }

  lemma ReachesLater(c: Config, s: Sys, alive: bool, wait: nat)
    ensures ReachesNow(c, s, alive) ==> Reaches(c, s, alive, wait)
    ensures ReachesNow(c, s, alive) <==> Reaches(c, s, alive, 0)
    ensures alive ==> ReachesNow(c, s, alive)
  {
    hide Recent, Held, DeclaredHolds;
  }

  /** A reconciliation that raises leaves the service down. */
  lemma RaisedIsDown(c: Config, s: Sys, alive: bool, attempts: seq<Attempt>)
    ensures var r := Reconcile(c, s, alive, attempts); r.Raise? ==> r.s.w.rec.state != Running
  {
    hide Reconcile, Middle;
    ReconcileIsMiddle(c, s, alive, attempts);
    var t := DeclaredHolds(s);
    MiddleOutcome(c, t, alive, attempts);
    if !alive {
      MiddleRaises(c, t, attempts);
    }
  }

  lemma MiddleRaises(c: Config, s: Sys, attempts: seq<Attempt>)
    ensures var r := Middle(c, s, false, attempts); r.Raise? ==> r.s.w.rec.state != Running
  {
    hide EnsureRunning, RestartAfterFailure, Transition, MarkFailed, Frame, Held;
    SettleDead(c, s, attempts);
    SettleRaises(c, s, attempts);
    var s1 := Settle(c, s, false, attempts).s;
    EnsureFrame(c, s1, Reconciling, attempts);
    hide Settle;
  }

  lemma SettleRaises(c: Config, s: Sys, attempts: seq<Attempt>)
    ensures var r := Settle(c, s, false, attempts); r.Raise? ==> r.s.w.rec.state != Running
  {
    hide EnsureRunning, RestartAfterFailure, Transition, MarkFailed, Frame, Held;
    match s.w.rec.state
    case Stopping => MoveOutcome(s, Stopped);
    case Starting | Ready => ResetOutcome(s);
    case Running | Maintenance =>
      FailedFrame(s, RuntimeDied, Reconciling);
      var s1 := MarkFailed(s, RuntimeDied, Reconciling).s;
      MoveOutcome(s1, Stopped);
      RestartFrame(c, s1, attempts);
    case Stopped | Failed =>
  }

  lemma NotRunYet(c: Config, s: Sys, alive: bool, attempts: seq<Attempt>, wait: nat)
    requires !ReachesNow(c, s, alive)
    ensures Reaches(c, Later(Reconcile(c, s, alive, attempts).s, wait), false, 0)
            <==> Reaches(c, s, alive, wait)
  {
    hide Reconcile, Middle;
    ReconcileIsMiddle(c, s, alive, attempts);
    DeclaredIsStable(s);
    var t := DeclaredHolds(s);
    assert Reaches(c, t, false, wait) <==> Reaches(c, s, false, wait);
    assert ReachesNow(c, t, false) <==> ReachesNow(c, s, false);
    PassLeaves(c, t, attempts, wait);
    LastWrite(c, Middle(c, t, false, attempts).s, wait);
    hide Reaches, DeclaredHolds;
  }
}
