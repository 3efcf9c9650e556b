/** The recovery hold: when exactly it is always dropped, and how long it stays otherwise. */
module SupervisorBackoff {
  import opened Wrappers
  import opened Lifecycle
  import Schedule
  import opened SupervisorModel
  import opened SupervisorFrames
  import opened SupervisorConvergence
  import Readiness = SupervisorReadiness
  import opened SupervisorInvariants

  predicate Clean(s: Sys) { RecoveryHold !in s.w.rec.holds }

  /** The configurations in which a granted restart is over before the call that granted it, or none is. */
  predicate Tidy(c: Config) { c.backoff == 0 || c.restart == Never || c.maxRestarts == 0 }

  predicate Ended(r: Res) { r.Raise? ==> r.e != Unfinished }

  lemma MovesKeepHolds()
    ensures forall s: Sys, to_: State, why: Why :: Transition(s, to_, why).s.w.rec.holds == s.w.rec.holds
    ensures forall s: Sys, e: Error, why: Why ::
              MarkFailed(s, e, why).s.w.rec.holds == s.w.rec.holds
              && (match MarkFailed(s, e, why)
                  case Ok(t) => t.w.rec.state == Failed
                  case Raise(_, f) => f == InvalidTransition)
  {
  }

  lemma {:induction false} EnsureIsClean(c: Config, s: Sys, why: Why, attempts: seq<Attempt>)
    requires Tidy(c) && Ended(EnsureRunning(c, s, why, attempts))
    ensures var r := EnsureRunning(c, s, why, attempts);
            && (Clean(s) ==> Clean(r.s))
            && (s.w.rec.state == Failed && r.Raise? && c.restart != Never ==> Clean(r.s))
    decreases |attempts|, 0
  {
    var state := s.w.rec.state;
    if (state == Stopped || state == Failed) && attempts != [] {
      hide EnsureRunning, TryStart, Transition, MarkFailed, RestartAfterFailure, Frame;
      EnsureUnfolds(c, s, why, attempts);
      BeganFrame(s, why, attempts[0], c);
      var s1 := Transition(s, Starting, why).s;
      var a := TryStart(c, s1.w.now, attempts[0]);
      var s2 := At(s1, a.at);
      StartedFrame(s2, why);
      if a.error.Some? {
        FailedFrame(s2, a.error.value, StartFailure);
        RestartIsClean(c, MarkFailed(s2, a.error.value, StartFailure).s, attempts[1..]);
      }
    }
  }

  lemma {:induction false} RestartIsClean(c: Config, s: Sys, attempts: seq<Attempt>)
    requires Tidy(c) && s.w.rec.state == Failed && Ended(RestartAfterFailure(c, s, attempts))
    ensures var r := RestartAfterFailure(c, s, attempts);
            && (c.restart != Never || Clean(s) ==> Clean(r.s))
    decreases |attempts|, 1
  {
    var s1 := Grant(c, s, Recent(s.w.rec.restartTimes, s.w.now, c.window));
    if c.restart != Never && |Recent(s.w.rec.restartTimes, s.w.now, c.window)| < c.maxRestarts {
      EnsureFrame(c, s1, Recovery, attempts);
      EnsureIsClean(c, s1, Recovery, attempts);
    }
  }

  lemma SettleIsClean(c: Config, s: Sys, alive: bool, attempts: seq<Attempt>)
    requires Tidy(c) && Clean(s) && Ended(Settle(c, s, alive, attempts))
    ensures Clean(Settle(c, s, alive, attempts).s)
  {
    if !alive && (s.w.rec.state == Running || s.w.rec.state == Maintenance) {
      LostIsClean(c, s, attempts);
    } else {
      MovesKeepHolds();
      hide Lost, RestartAfterFailure, Held, Transition, MarkFailed;
    }
  }

  lemma LostIsClean(c: Config, s: Sys, attempts: seq<Attempt>)
    requires Tidy(c) && Clean(s) && Ended(Lost(c, s, attempts))
    requires s.w.rec.state == Running || s.w.rec.state == Maintenance
    ensures Clean(Lost(c, s, attempts).s)
  {
    hide RestartAfterFailure, Held, MarkFailed, Transition;
    FailedFrame(s, RuntimeDied, Reconciling);
    var s1 := MarkFailed(s, RuntimeDied, Reconciling).s;
    MoveOutcome(s1, Stopped);
    if Held(s1.w.rec.holds) {
      RestartIsClean(c, s1, attempts);
    }
  }

  lemma MiddleIsClean(c: Config, s: Sys, alive: bool, attempts: seq<Attempt>)
    requires Tidy(c) && Clean(s) && Ended(Middle(c, s, alive, attempts))
    ensures Clean(Middle(c, s, alive, attempts).s)
  {
    hide EnsureRunning, Settle, Adopt;
    var r1 := Settle(c, s, alive, attempts);
    SettleIsClean(c, s, alive, attempts);
    if r1.s.w.rec.state == Failed { AdoptOutcome(r1.s); }
    var s2 := (if r1.s.w.rec.state == Failed && alive then Adopt(r1.s) else r1).s;
    if Ended(EnsureRunning(c, s2, Reconciling, attempts)) {
      EnsureIsClean(c, s2, Reconciling, attempts);
    }
  }

  /** Starts under the reserved reason `recovery` are not public operations either. */
  ghost predicate Ordinary(op: Op) {
    match op
    case DoStart(reason, _) => reason != RecoveryHold
    case Crash(during, _, _) => Ordinary(during)
    case _ => true
  }

  lemma {:induction false} MarkDueIsClean(c: Config, s: Sys, at: nat, i: nat)
    requires i <= |c.jobs| && Clean(s)
    ensures Clean(MarkDue(c, s, at, i).s)
    decreases |c.jobs| - i
  {
    hide Schedule.IsDue;
    if i < |c.jobs| {
      MarkDueIsClean(c, s, at, i + 1);
      MarkDueIsClean(c, Launch(s, c.jobs[i].name, at), at, i + 1);
    }
  }

  lemma TickIsClean(c: Config, s: Sys, lag: nat, reply: Reply, attempts: seq<Attempt>)
    requires Tidy(c) && Clean(s) && Ended(TickService(c, s, lag, reply, attempts))
    ensures Clean(TickService(c, s, lag, reply, attempts).s)
  {
    StopsKeepHolds();
    hide EnsureRunning, MarkDue, StopLocked, IdleExpired;
    var at := if lag <= s.w.now then s.w.now - lag else 0;
    var s1 := (if IdleExpired(s, at) then StopLocked(s, IdleTimeout, reply) else Ok(s)).s;
    assert Clean(s1);
    if Ended(EnsureRunning(c, s1, Recovery, attempts)) {
      EnsureIsClean(c, s1, Recovery, attempts);
    }
    var r2 := RetryFailed(c, s1, at, attempts);
    if r2.Ok? {
      MarkDueIsClean(c, r2.s, at, 0);
    }
  }

  lemma FinishIsClean(c: Config, s: Sys, name: string, ok: bool, reply: Reply, attempts: seq<Attempt>)
    requires Tidy(c) && Clean(s) && Ended(Finish(c, s, name, ok, reply, attempts))
    ensures Clean(Finish(c, s, name, ok, reply, attempts).s)
  {
    MovesKeepHolds();
    hide RestartAfterFailure, Transition, MarkFailed;
    if !ok {
      FailureIsClean(c, s, name, reply, attempts);
      hide Finish;
    } else {
      StopsKeepHolds();
      hide StopLocked;
    }
  }

  lemma StopsKeepHolds()
    ensures forall s: Sys, why: Why, reply: Reply :: StopLocked(s, why, reply).s.w.rec.holds == s.w.rec.holds
  {
    MovesKeepHolds();
    hide MarkFailed, Transition;
  }

  lemma FailureIsClean(c: Config, s: Sys, name: string, reply: Reply, attempts: seq<Attempt>)
    requires Tidy(c) && Clean(s) && Ended(Finish(c, s, name, false, reply, attempts))
    ensures Clean(Finish(c, s, name, false, reply, attempts).s)
  {
    MovesKeepHolds();
    var ok := false;
    hide RestartAfterFailure, Transition, MarkFailed;
    if name in s.w.inFlight && FindJob(c.jobs, name).Some? && !ok {
      var r := s.w.rec;
      var s1 := s.(w := s.w.(inFlight := s.w.inFlight - {name},
                             rec := r.(results := r.results[name := JobResult(s.w.now, ok)],
                                       lastRun := r.lastRun[name := s.w.now])));
      var r2 := MarkFailed(s1, JobFailed, JobBroke(name));
      var s3 := RemoveHold(r2.s, MaintenanceHold);
      var s4 := s3.(w := s3.w.(running := s3.w.running - {name}));
      if r2.Ok? {
        RestartIsClean(c, s4, attempts);
      }
    }
  }

  lemma StartIsClean(c: Config, s: Sys, reason: Hold, attempts: seq<Attempt>)
    requires Tidy(c) && Clean(s) && reason != RecoveryHold && Ended(Start(c, s, reason, attempts))
    ensures Clean(Start(c, s, reason, attempts).s)
  {
    hide EnsureRunning;
    var s1 := Intent(s, reason);
    var s2 := if Count(s1.w.rec.holds, reason) == 0 then AddHold(s1, reason) else s1;
    EnsureIsClean(c, s2, Requested(reason), attempts);
  }

  lemma AcquireIsClean(c: Config, s: Sys, attempts: seq<Attempt>)
    requires Tidy(c) && Clean(s) && Ended(Acquire(c, s, attempts))
    ensures Clean(Acquire(c, s, attempts).s)
  {
    hide EnsureRunning;
    var id := s.w.nextId;
    var s1 := s.(w := s.w.(rec := s.w.rec.(sessions := s.w.rec.sessions[id := s.w.now]), nextId := id + 1));
    if Ended(EnsureRunning(c, AddHold(s1, SessionsHold), ForSession, attempts)) {
      EnsureIsClean(c, AddHold(s1, SessionsHold), ForSession, attempts);
    }
  }

  lemma NotifyIsClean(c: Config, s: Sys, attempts: seq<Attempt>)
    requires Tidy(c) && Clean(s) && Ended(NotifyFailure(c, s, attempts))
    ensures Clean(NotifyFailure(c, s, attempts).s)
  {
    hide RestartAfterFailure, MarkFailed;
    MovesKeepHolds();
    var r := MarkFailed(s, RuntimeDied, RuntimeFailure);
    if r.Ok? {
      RestartIsClean(c, r.s, attempts);
    }
  }

  lemma BeginIsClean(c: Config, s: Sys, job: string, attempts: seq<Attempt>)
    requires Tidy(c) && Clean(s) && Ended(Begin(c, s, job, attempts))
    ensures Clean(Begin(c, s, job, attempts).s)
  {
    hide EnsureRunning;
    var s1 := AddHold(s.(w := s.w.(running := s.w.running + {job})), MaintenanceHold);
    if Ended(EnsureRunning(c, s1, ForJob(job), attempts)) {
      EnsureIsClean(c, s1, ForJob(job), attempts);
    }
  }

  lemma StepIsClean(c: Config, s: Sys, op: Op)
    requires Tidy(c) && Clean(s) && Ordinary(op) && Ended(Step(c, s, op))
    ensures Clean(Step(c, s, op).s)
  {
    hide Start, Stop, Acquire, Release, NotifyFailure, Begin, Finish, Reconcile, TickService, Reboot, Tidy;
    match op
    case DoStart(reason, attempts) => StartIsClean(c, s, reason, attempts);
    case DoAcquire(attempts) => AcquireIsClean(c, s, attempts);
    case DoNotify(attempts) => NotifyIsClean(c, s, attempts);
    case DoBegin(job, attempts) => BeginIsClean(c, s, job, attempts);
    case DoReconcile(alive, attempts) => ReconcileIsClean(c, s, alive, attempts);
    case DoRelease(id) => ReleaseIsClean(c, s, id);
    case DoTick(lag, reply, attempts) => TickIsClean(c, s, lag, reply, attempts);
    case DoFinish(job, ok, reply, attempts) => FinishIsClean(c, s, job, ok, reply, attempts);
    case DoStop(force, reason, reply) => StopIsClean(s, force, reason, reply);
    case Crash(during, keep, downtime) => RebootIsClean(s, Step(c, s, during).s, keep, downtime);
    case _ =>
  }

  lemma ReconcileIsClean(c: Config, s: Sys, alive: bool, attempts: seq<Attempt>)
    requires Tidy(c) && Clean(s) && Ended(Reconcile(c, s, alive, attempts))
    ensures Clean(Reconcile(c, s, alive, attempts).s)
  {
    DeclaredIsClean(s);
    hide Reconcile, Middle, DeclaredHolds, Tidy;
    ReconcileIsMiddle(c, s, alive, attempts);
    MiddleIsClean(c, DeclaredHolds(s), alive, attempts);
    IdleOutcome(c, Middle(c, DeclaredHolds(s), alive, attempts).s);
  }

  lemma ReleaseIsClean(c: Config, s: Sys, id: nat)
    requires Clean(s)
    ensures Clean(Release(c, s, id).s)
  {
    hide Held;
  }

  lemma DeclaredIsClean(s: Sys)
    requires Clean(s)
    ensures Clean(DeclaredHolds(s))
  {
  }

  lemma RebootIsClean(s: Sys, after: Sys, keep: nat, downtime: nat)
    ensures Clean(Reboot(s, after, keep, downtime))
  {
  }

  lemma StopIsClean(s: Sys, force: bool, reason: Hold, reply: Reply)
    requires Clean(s)
    ensures Clean(Stop(s, force, reason, reply).s)
  {
    StopsKeepHolds();
    hide StopLocked, Held;
  }

  /** Every call of the run returned. */
  ghost predicate AllEnded(c: Config, s: Sys, ops: seq<Op>)
    decreases |ops|
  {
    ops == [] || (Ended(Step(c, s, ops[0])) && AllEnded(c, Step(c, s, ops[0]).s, ops[1..]))
  }

  lemma {:induction false} RunIsClean(c: Config, s: Sys, ops: seq<Op>)
    requires Tidy(c) && Clean(s) && AllEnded(c, s, ops) && forall op | op in ops :: Ordinary(op)
    ensures RecoveryHold !in Run(c, s, ops).w.rec.holds
    decreases |ops|
  {
    hide Step;
    if ops != [] {
      StepIsClean(c, s, ops[0]);
      RunIsClean(c, Step(c, s, ops[0]).s, ops[1..]);
    }
  }

  /** Exactly when no run of returning calls ever leaves a recovery hold behind: without a backoff, or when
      no restart is ever granted. */
  lemma NoRecoveryHoldIff(c: Config)
    ensures (forall now, mode, ops | AllEnded(c, Init(now, mode), ops) && (forall op | op in ops :: Ordinary(op)) ::
               RecoveryHold !in Run(c, Init(now, mode), ops).w.rec.holds)
       <==> Tidy(c)
  {
    if Tidy(c) {
      forall now, mode, ops | AllEnded(c, Init(now, mode), ops) && (forall op | op in ops :: Ordinary(op))
        ensures RecoveryHold !in Run(c, Init(now, mode), ops).w.rec.holds
      {
        RunIsClean(c, Init(now, mode), ops);
      }
    } else {
      var ops := GrantLeavesHold(c);
      hide Run, AllEnded;
      assert AllEnded(c, Init(0, OnDemand), ops) && RecoveryHold in Run(c, Init(0, OnDemand), ops).w.rec.holds;
    }
  }

  /** One start and one failure notice. */
  lemma GrantLeavesHold(c: Config) returns (ops: seq<Op>)
    requires !Tidy(c)
    ensures AllEnded(c, Init(0, OnDemand), ops) && (forall op | op in ops :: Ordinary(op))
    ensures RecoveryHold in Run(c, Init(0, OnDemand), ops).w.rec.holds
  {
    var a := Attempt(Reply(0, true), (k: nat) => Check(0, IsReady), 0);
    ops := [DoStart(AdminHold, [a]), DoNotify([])];
    var s0 := Init(0, OnDemand);
    var s1 := FirstStart(c, a);
    FirstNotice(c, s1);
    hide Step;
    assert ops[1..] == [DoNotify([])] && ops[1..][1..] == [];
    assert Run(c, s0, ops) == Run(c, s1, [DoNotify([])]) == Run(c, Step(c, s1, DoNotify([])).s, []);
    assert AllEnded(c, Step(c, s1, DoNotify([])).s, []);
  }

  lemma FirstStart(c: Config, a: Attempt) returns (s1: Sys)
    requires a == Attempt(Reply(0, true), a.checks, 0) && a.checks(0) == Check(0, IsReady)
    ensures var r := Step(c, Init(0, OnDemand), DoStart(AdminHold, [a])); r == Ok(s1)
    ensures s1.w.rec.state == Running && s1.w.rec.restartTimes == []
  {
    assert TryStart(c, 0, a).error == None;
    hide TryStart;
    var s := AddHold(Intent(Init(0, OnDemand), AdminHold), AdminHold);
    var r := EnsureRunning(c, s, Requested(AdminHold), [a]);
    EnsureUnfolds(c, s, Requested(AdminHold), [a]);
    s1 := r.s;
    hide EnsureRunning;
    assert r.Ok? && s1.w.rec.state == Running && s1.w.rec.restartTimes == [];
  }

  lemma FirstNotice(c: Config, s: Sys)
    requires !Tidy(c) && s.w.rec.state == Running && s.w.rec.restartTimes == []
    ensures var r := Step(c, s, DoNotify([])); r.Ok? && RecoveryHold in r.s.w.rec.holds
  {
    assert Recent([], s.w.now, c.window) == [];
    hide MarkFailed, EnsureRunning, Recent, Frame;
    FailedFrame(s, RuntimeDied, RuntimeFailure);
    var s1 := MarkFailed(s, RuntimeDied, RuntimeFailure).s;
    assert RestartAfterFailure(c, s1, []) == Ok(Grant(c, s1, []));
  }

  // ---------------------------------------------------------------- how long it stays

  /** A service in use by nothing but a recovery that is over. */
  predicate Lingers(s: Sys) { Count(s.w.rec.holds, RecoveryHold) > 0 && Active(s.w.rec.state) }

  /** Operations that neither fail the service, nor force a stop, nor end the process. */
  predicate Uneventful(op: Op) {
    match op
    case DoStop(force, _, _) => !force
    case DoNotify(_) => false
    case DoFinish(_, ok, _, _) => ok
    case DoReconcile(alive, _) => alive
    case Crash(_, _, _) => false
    case _ => true
  }

  /** The hold is still there, and nothing was stopped for idleness meanwhile. */
  ghost predicate LingersOn(s: Sys, t: Sys) {
    && Count(t.w.rec.holds, RecoveryHold) == Count(s.w.rec.holds, RecoveryHold) && Active(t.w.rec.state)
    && NotForIdleness(s, t)
  }

  lemma LingersTrans(s: Sys, t: Sys, u: Sys)
    requires LingersOn(s, t) && LingersOn(t, u)
    ensures LingersOn(s, u)
  {
  }

  lemma BeginLingers(c: Config, s: Sys, job: string, attempts: seq<Attempt>)
    requires Lingers(s)
    ensures LingersOn(s, Begin(c, s, job, attempts).s)
  {
    hide FindJob, RestartAfterFailure;
    var s1 := AddHold(s.(w := s.w.(running := s.w.running + {job})), MaintenanceHold);
    assert LingersOn(s, s1);
    EnsureFrame(c, s1, ForJob(job), attempts);
    hide EnsureRunning, Frame;
  }

  lemma FinishLingers(c: Config, s: Sys, job: string, reply: Reply, attempts: seq<Attempt>)
    requires Lingers(s)
    ensures LingersOn(s, Finish(c, s, job, true, reply, attempts).s)
  {
    hide FindJob, RestartAfterFailure, MarkFailed, StopLocked;
    if job in s.w.inFlight {
      var r := s.w.rec;
      var s1 := s.(w := s.w.(inFlight := s.w.inFlight - {job},
                             rec := r.(results := r.results[job := JobResult(s.w.now, true)],
                                       lastRun := r.lastRun[job := s.w.now])));
      var s3 := RemoveHold(Transition(s1, Running, JobDone(job)).s, MaintenanceHold);
      assert s3.w.rec.holds[RecoveryHold] > 0;
    }
  }

  lemma ReconcileLingers(c: Config, s: Sys, attempts: seq<Attempt>)
    requires Lingers(s)
    ensures LingersOn(s, Reconcile(c, s, true, attempts).s)
  {
    hide RestartAfterFailure, MarkFailed, EnsureRunning, Lost, ResetStale;
    assert LingersOn(s, DeclaredHolds(s));
  }

  lemma {:induction false} MarkDueLingers(c: Config, s: Sys, at: nat, i: nat)
    requires Lingers(s) && i <= |c.jobs|
    ensures LingersOn(s, MarkDue(c, s, at, i).s)
    decreases |c.jobs| - i
  {
    hide Schedule.IsDue;
    if i < |c.jobs| {
      MarkDueLingers(c, s, at, i + 1);
      var t := Launch(s, c.jobs[i].name, at);
      assert LingersOn(s, t);
      MarkDueLingers(c, t, at, i + 1);
      LingersTrans(s, t, MarkDue(c, t, at, i + 1).s);
    }
  }

  lemma TickLingers(c: Config, s: Sys, lag: nat, reply: Reply, attempts: seq<Attempt>)
    requires Lingers(s)
    ensures LingersOn(s, TickService(c, s, lag, reply, attempts).s)
  {
    hide MarkDue, EnsureRunning, StopLocked, LingersOn;
    var at := if lag <= s.w.now then s.w.now - lag else 0;
    assert s.w.rec.holds[RecoveryHold] > 0;
    assert Held(s.w.rec.holds);
    hide Held;
    assert TickService(c, s, lag, reply, attempts) == MarkDue(c, s, at, 0);
    MarkDueLingers(c, s, at, 0);
  }

  lemma StartLingers(c: Config, s: Sys, reason: Hold, attempts: seq<Attempt>)
    requires Lingers(s)
    ensures LingersOn(s, Start(c, s, reason, attempts).s)
  {
    var s1 := Intent(s, reason);
    var s2 := if Count(s1.w.rec.holds, reason) == 0 then AddHold(s1, reason) else s1;
    assert LingersOn(s, s2);
    assert EnsureRunning(c, s2, Requested(reason), attempts) == Ok(s2);
    hide EnsureRunning, AddHold, Intent;
  }

  lemma StopLingers(s: Sys, reason: Hold, reply: Reply)
    requires Lingers(s)
    ensures LingersOn(s, Stop(s, false, reason, reply).s)
  {
    hide StopLocked;
    var s1 := Withdraw(s, false, reason);
    assert s1.w.rec.holds[RecoveryHold] > 0;
    assert Held(s1.w.rec.holds);
    hide Held;
  }

  lemma PassiveLingers(s: Sys, dt: nat, mode: Mode)
    requires Lingers(s)
    ensures LingersOn(s, Later(s, dt)) && LingersOn(s, s.(w := s.w.(mode := mode)))
  {
  }

  lemma SessionLingers(c: Config, s: Sys, attempts: seq<Attempt>, id: nat)
    requires Lingers(s)
    ensures LingersOn(s, Acquire(c, s, attempts).s)
    ensures LingersOn(s, Release(c, s, id).s)
  {
    hide RestartAfterFailure, MarkFailed;
  }

  lemma StepLingers(c: Config, s: Sys, op: Op)
    requires Lingers(s) && Uneventful(op)
    ensures LingersOn(s, Step(c, s, op).s)
  {
    hide Start, Stop, Acquire, Release, NotifyFailure, Begin, Finish, Reconcile, TickService, LingersOn, Lingers, Later;
    match op
    case Advance(dt) => PassiveLingers(s, dt, s.w.mode);
    case SetMode(mode) => PassiveLingers(s, 0, mode);
    case DoStart(reason, attempts) => StartLingers(c, s, reason, attempts);
    case DoStop(force, reason, reply) => StopLingers(s, reason, reply);
    case DoAcquire(attempts) => SessionLingers(c, s, attempts, 0);
    case DoRelease(id) => SessionLingers(c, s, [], id);
    case DoBegin(job, attempts) => BeginLingers(c, s, job, attempts);
    case DoFinish(job, ok, reply, attempts) => FinishLingers(c, s, job, reply, attempts);
    case DoReconcile(alive, attempts) => ReconcileLingers(c, s, attempts);
    case DoTick(lag, reply, attempts) => TickLingers(c, s, lag, reply, attempts);
  }

  lemma {:induction false} RunLingers(c: Config, s: Sys, ops: seq<Op>)
    requires Lingers(s) && forall op | op in ops :: Uneventful(op)
    ensures LingersOn(s, Run(c, s, ops))
    decreases |ops|
  {
    hide Step;
    if ops != [] {
      var t := Step(c, s, ops[0]).s;
      StepLingers(c, s, ops[0]);
      RunLingers(c, t, ops[1..]);
      LingersTrans(s, t, Run(c, t, ops[1..]));
    }
  }

  /** With a backoff the hold outlives the recovery: a failure notice grants a restart, the next
      reconciliation after the backoff makes it, the service runs, and over every run without another
      failure, a forced stop or a crash the hold stays and no tick stops the service for idleness. */
  lemma BackoffLeavesRecoveryHold(c: Config, s: Sys, attempts: seq<Attempt>, wait: nat, ops: seq<Op>)
    requires c.backoff > 0 && c.restart != Never && Healthy(c, attempts) && wait >= c.backoff
    requires s.w.rec.state == Running && |Recent(s.w.rec.restartTimes, s.w.now, c.window)| < c.maxRestarts
    requires forall op | op in ops :: Uneventful(op)
    ensures var failed := NotifyFailure(c, s, attempts).s;
            var r := Reconcile(c, Later(failed, wait), false, attempts);
            var t := Run(c, r.s, ops);
            && r.Ok? && r.s.w.rec.state == Running
            && Count(t.w.rec.holds, RecoveryHold) == 1 && Active(t.w.rec.state)
            && forall i | |r.s.w.journal| <= i < |t.w.journal| :: t.w.journal[i].why != IdleTimeout
  {
    hide Run;
    RecoveredHolds(c, s, attempts, wait);
    hide Reconcile, NotifyFailure;
    RunLingers(c, Reconcile(c, Later(NotifyFailure(c, s, attempts).s, wait), false, attempts).s, ops);
  }

  lemma RecoveredHolds(c: Config, s: Sys, attempts: seq<Attempt>, wait: nat)
    requires c.backoff > 0 && c.restart != Never && Healthy(c, attempts) && wait >= c.backoff
    requires s.w.rec.state == Running && |Recent(s.w.rec.restartTimes, s.w.now, c.window)| < c.maxRestarts
    ensures var r := Reconcile(c, Later(NotifyFailure(c, s, attempts).s, wait), false, attempts);
            r.Ok? && r.s.w.rec.state == Running && Count(r.s.w.rec.holds, RecoveryHold) == 1
  {
    NoticeHolds(c, s, attempts);
    hide NotifyFailure;
    var failed := Later(NotifyFailure(c, s, attempts).s, wait);
    var t := DeclaredHolds(failed);
    assert t.w.rec.holds[RecoveryHold] == 1;
    HealthyStart(c, t, Reconciling, attempts);
    HealthyKeepsHolds(c, t, attempts);
    hide EnsureRunning;
    var r := Reconcile(c, failed, false, attempts);
    assert r.s.w.rec.holds == t.w.rec.holds;
  }

  lemma NoticeHolds(c: Config, s: Sys, attempts: seq<Attempt>)
    requires c.backoff > 0 && c.restart != Never
    requires s.w.rec.state == Running && |Recent(s.w.rec.restartTimes, s.w.now, c.window)| < c.maxRestarts
    ensures var t := NotifyFailure(c, s, attempts).s;
            && t.w.rec.state == Failed && Count(t.w.rec.holds, RecoveryHold) == 1 && !t.w.rec.exhausted
            && t.w.rec.nextRestart == Some(t.w.now + c.backoff)
  {
  }

  lemma HealthyKeepsHolds(c: Config, s: Sys, attempts: seq<Attempt>)
    requires Healthy(c, attempts) && s.w.rec.state == Failed
    ensures EnsureRunning(c, s, Reconciling, attempts).s.w.rec.holds == s.w.rec.holds
  {
    hide TryStart, Transition, MarkFailed, RestartAfterFailure;
    BeganFrame(s, Reconciling, attempts[0], c);
    var s1 := Transition(s, Starting, Reconciling).s;
    Readiness.SucceedsIff(c, s1.w.now, attempts[0]);
    StartedFrame(At(s1, TryStart(c, s1.w.now, attempts[0]).at), Reconciling);
  }
}
