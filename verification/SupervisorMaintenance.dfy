/** Maintenance runs in two locked regions with the lock dropped in between: what may interleave. */
module SupervisorMaintenance {
  import opened Wrappers
  import opened Lifecycle
  import Schedule
  import opened SupervisorModel
  import opened SupervisorFrames
  import opened SupervisorConvergence

  /** A job in flight is the only one, owns the only job key and a maintenance hold, and keeps the
      service in maintenance. */
  ghost predicate JobsInOrder(s: Sys) {
    && s.w.running == s.w.inFlight.Keys
    && (forall a, b | a in s.w.inFlight && b in s.w.inFlight :: a == b)
    && (s.w.inFlight != map[] ==> s.w.rec.state == Maintenance && Count(s.w.rec.holds, MaintenanceHold) > 0)
  }

  /** The operations that break a job in flight: reconciliation, forced stops, failure notices. */
  ghost predicate Harmless(s: Sys, op: Op) {
    s.w.inFlight == map[] ||
    match op
    case DoReconcile(_, _) => false
    case DoNotify(_) => false
    case DoStop(force, _, _) => !force
    case _ => true
  }

  /** What every harmless operation other than finishing does to a job in flight: nothing. */
  ghost predicate JobKept(s: Sys, t: Sys) {
    && t.w.running == s.w.running && t.w.inFlight == s.w.inFlight
    && (s.w.inFlight != map[] ==>
          && t.w.rec.state == Maintenance
          && Count(t.w.rec.holds, MaintenanceHold) >= Count(s.w.rec.holds, MaintenanceHold))
  }

  lemma KeptInOrder(s: Sys, t: Sys)
    requires JobsInOrder(s) && JobKept(s, t)
    ensures JobsInOrder(t)
  {
  }

  lemma EnsureKeepsJob(c: Config, s: Sys, why: Why, attempts: seq<Attempt>)
    requires JobsInOrder(s)
    ensures JobKept(s, EnsureRunning(c, s, why, attempts).s)
  {
    hide EnsureRunning;
    EnsureFrame(c, s, why, attempts);
    FrameCounts(s, EnsureRunning(c, s, why, attempts).s, MaintenanceHold);
  }

  lemma RestartKeepsJob(c: Config, s: Sys, attempts: seq<Attempt>)
    requires JobsInOrder(s) && s.w.inFlight == map[]
    ensures JobKept(s, RestartAfterFailure(c, s, attempts).s)
  {
    var prior := Recent(s.w.rec.restartTimes, s.w.now, c.window);
    hide EnsureRunning;
    EnsureFrame(c, Grant(c, s, prior), Recovery, attempts);
  }

  lemma StartKeepsJob(c: Config, s: Sys, reason: Hold, attempts: seq<Attempt>)
    requires JobsInOrder(s)
    ensures JobKept(s, Start(c, s, reason, attempts).s)
  {
    hide EnsureRunning;
    var s1 := Intent(s, reason);
    var s2 := if Count(s1.w.rec.holds, reason) == 0 then AddHold(s1, reason) else s1;
    assert JobKept(s, s2);
    EnsureKeepsJob(c, s2, Requested(reason), attempts);
  }

  lemma StopKeepsJob(s: Sys, force: bool, reason: Hold, reply: Reply)
    requires JobsInOrder(s) && (force ==> s.w.inFlight == map[])
    ensures JobKept(s, Stop(s, force, reason, reply).s)
  {
    var s1 := Withdraw(s, force, reason);
    assert JobKept(s, s1);
    if s.w.inFlight != map[] {
      assert MaintenanceHold in s1.w.rec.holds && s1.w.rec.holds[MaintenanceHold] > 0;
      assert Held(s1.w.rec.holds);
    }
    hide Held, StopLocked;
    StopLockedOutside(s1, Requested(reason), reply);
  }

  lemma AcquireKeepsJob(c: Config, s: Sys, attempts: seq<Attempt>)
    requires JobsInOrder(s)
    ensures JobKept(s, Acquire(c, s, attempts).s)
  {
    hide EnsureRunning;
    var r := s.w.rec;
    var id := s.w.nextId;
    var s2 := AddHold(s.(w := s.w.(rec := r.(sessions := r.sessions[id := s.w.now]), nextId := id + 1)), SessionsHold);
    assert JobKept(s, s2);
    EnsureKeepsJob(c, s2, ForSession, attempts);
  }

  lemma ReleaseKeepsJob(c: Config, s: Sys, id: nat)
    requires JobsInOrder(s)
    ensures JobKept(s, Release(c, s, id).s)
  {
  }

  lemma {:induction false} MarkDueKeepsJob(c: Config, s: Sys, at: nat, i: nat)
    requires JobsInOrder(s) && i <= |c.jobs|
    ensures JobKept(s, MarkDue(c, s, at, i).s)
    decreases |c.jobs| - i
  {
    hide Schedule.IsDue;
    if i < |c.jobs| {
      MarkDueKeepsJob(c, s, at, i + 1);
      MarkDueKeepsJob(c, Launch(s, c.jobs[i].name, at), at, i + 1);
    }
  }

  lemma TickKeepsJob(c: Config, s: Sys, lag: nat, reply: Reply, attempts: seq<Attempt>)
    requires JobsInOrder(s)
    ensures JobKept(s, TickService(c, s, lag, reply, attempts).s)
  {
    hide EnsureRunning, MarkDue, StopLocked;
    var at := if lag <= s.w.now then s.w.now - lag else 0;
    var s1 := (if IdleExpired(s, at) then StopLocked(s, IdleTimeout, reply) else Ok(s)).s;
    StopLockedOutside(s, IdleTimeout, reply);
    assert JobKept(s, s1);
    hide IdleExpired;
    EnsureKeepsJob(c, s1, Recovery, attempts);
    var s2 := RetryFailed(c, s1, at, attempts).s;
    MarkDueKeepsJob(c, s2, at, 0);
  }

  /** A second maintenance request finds the service in maintenance and is turned away without a trace. */
  lemma SecondBeginIsRefused(c: Config, s: Sys, name: string, attempts: seq<Attempt>)
    requires JobsInOrder(s) && s.w.inFlight != map[]
    ensures var r := Begin(c, s, name, attempts); r.Raise? && JobKept(s, r.s)
    ensures var r := Begin(c, s, name, attempts); r.s.w.rec.holds == s.w.rec.holds
  {
    var h := s.w.rec.holds;
    var more: Holds := h[MaintenanceHold := Count(h, MaintenanceHold) + 1];
    assert more[MaintenanceHold := Count(h, MaintenanceHold)] == h;
    if FindJob(c.jobs, name).Some? && name !in s.w.running {
      assert s.w.running + {name} - {name} == s.w.running;
    }
  }

  /** A first request either fails and leaves no job key, or puts exactly its own job in flight. */
  lemma BeginStartsJob(c: Config, s: Sys, name: string, attempts: seq<Attempt>)
    requires JobsInOrder(s) && s.w.inFlight == map[]
    ensures var r := Begin(c, s, name, attempts);
            && JobsInOrder(r.s)
            && (r.Raise? ==> r.s.w.inFlight == map[])
            && (r.Ok? ==> r.s.w.inFlight == map[name := Active(s.w.rec.state)] && FindJob(c.jobs, name).Some?
                          && Count(r.s.w.rec.holds, MaintenanceHold) == Count(s.w.rec.holds, MaintenanceHold) + 1)
  {
    hide EnsureRunning, Held;
    var s1 := AddHold(s.(w := s.w.(running := s.w.running + {name})), MaintenanceHold);
    EnsureFrame(c, s1, ForJob(name), attempts);
    FrameCounts(s1, EnsureRunning(c, s1, ForJob(name), attempts).s, MaintenanceHold);
    assert s.w.running + {name} - {name} == {};
    assert s.w.running + {name} == {name};
  }

  /** Finishing a job that was not disturbed removes exactly its key and one maintenance hold, and its
      transition out of maintenance is legal. */
  lemma FinishIsLegal(c: Config, s: Sys, name: string, ok: bool, reply: Reply, attempts: seq<Attempt>)
    requires JobsInOrder(s) && name in s.w.inFlight && FindJob(c.jobs, name).Some?
    ensures var r := Finish(c, s, name, ok, reply, attempts);
            && r != Raise(r.s, InvalidTransition)
            && r.s.w.inFlight == map[] && r.s.w.running == {}
            && Count(r.s.w.rec.holds, MaintenanceHold) == Count(s.w.rec.holds, MaintenanceHold) - 1
            && (forall h | h != MaintenanceHold && h != RecoveryHold ::
                  Count(r.s.w.rec.holds, h) == Count(s.w.rec.holds, h))
  {
    var s4 := Cleared(s, name, ok);
    ClearedIsLegal(c, s, name, ok);
    if !ok {
      RestartCounts(c, s4, attempts);
      hide RestartAfterFailure, Frame, StopLocked, ScheduleIdle;
    } else {
      StopCounts(c, s4, JobDone(name), reply);
      hide RestartAfterFailure, MarkFailed, StopLocked, ScheduleIdle;
    }
  }

  lemma StopCounts(c: Config, s: Sys, why: Why, reply: Reply)
    requires s.w.rec.state == Running
    ensures var r := StopLocked(s, why, reply);
            && r != Raise(r.s, InvalidTransition) && r.s.w.inFlight == s.w.inFlight && r.s.w.running == s.w.running
            && r.s.w.rec.holds == s.w.rec.holds
    ensures var t := ScheduleIdle(c, s);
            t.w.inFlight == s.w.inFlight && t.w.running == s.w.running && t.w.rec.holds == s.w.rec.holds
  {
    var s1 := Transition(s, Stopping, why);
    assert s1.Ok? && s1.s.w.rec.state == Stopping && s1.s.w.rec.holds == s.w.rec.holds;
    StopLockedOutside(s, why, reply);
    DriverStopCounts(s1.s, why, reply);
    hide Transition, StopDriver;
  }

  lemma DriverStopCounts(s: Sys, why: Why, reply: Reply)
    requires s.w.rec.state == Stopping
    ensures var r := StopDriver(s, why, reply); r != Raise(r.s, InvalidTransition) && r.s.w.rec.holds == s.w.rec.holds
  {
  }

  lemma RestartCounts(c: Config, s: Sys, attempts: seq<Attempt>)
    requires s.w.rec.state == Failed
    ensures var r := RestartAfterFailure(c, s, attempts);
            && r != Raise(r.s, InvalidTransition) && r.s.w.inFlight == s.w.inFlight && r.s.w.running == s.w.running
            && forall h | h != RecoveryHold :: Count(r.s.w.rec.holds, h) == Count(s.w.rec.holds, h)
  {
    hide RestartAfterFailure;
    RestartFrame(c, s, attempts);
    forall h | h != RecoveryHold
      ensures Count(RestartAfterFailure(c, s, attempts).s.w.rec.holds, h) == Count(s.w.rec.holds, h)
    {
      FrameCounts(s, RestartAfterFailure(c, s, attempts).s, h);
    }
  }

  /** The state in which the finishing region has dropped the hold and the key. */
  function Cleared(s: Sys, name: string, ok: bool): Sys
    requires name in s.w.inFlight
  {
    var r := s.w.rec;
    var s1 := s.(w := s.w.(inFlight := s.w.inFlight - {name},
                           rec := r.(results := r.results[name := JobResult(s.w.now, ok)],
                                     lastRun := r.lastRun[name := s.w.now])));
    var s2 := (if ok then Transition(s1, Running, JobDone(name)) else MarkFailed(s1, JobFailed, JobBroke(name))).s;
    var s3 := RemoveHold(s2, MaintenanceHold);
    s3.(w := s3.w.(running := s3.w.running - {name}))
  }

  lemma ClearedIsLegal(c: Config, s: Sys, name: string, ok: bool)
    requires JobsInOrder(s) && name in s.w.inFlight
    ensures var s4 := Cleared(s, name, ok);
            && s4.w.rec.state == (if ok then Running else Failed)
            && s4.w.inFlight == map[] && s4.w.running == {}
            && Count(s4.w.rec.holds, MaintenanceHold) == Count(s.w.rec.holds, MaintenanceHold) - 1
            && (forall h | h != MaintenanceHold :: Count(s4.w.rec.holds, h) == Count(s.w.rec.holds, h))
  {
    assert s.w.inFlight - {name} == map[];
    assert s.w.running - {name} == {};
  }

  lemma {:induction false} StepKeepsOrder(c: Config, s: Sys, op: Op)
    requires JobsInOrder(s) && Harmless(s, op)
    ensures JobsInOrder(Step(c, s, op).s)
    ensures s.w.inFlight != map[] && !op.DoFinish? && !op.Crash? ==> JobKept(s, Step(c, s, op).s)
    decreases op
  {
    hide Start, Stop, Acquire, Release, NotifyFailure, Begin, Finish, Reconcile, TickService, JobsInOrder;
    match op
    case Advance(dt) => PassiveKeepsJob(s, dt, s.w.mode);
    case SetMode(mode) => PassiveKeepsJob(s, 0, mode);
    case DoStart(reason, attempts) =>
      StartKeepsJob(c, s, reason, attempts);
      KeptInOrder(s, Start(c, s, reason, attempts).s);
    case DoStop(force, reason, reply) =>
      StopKeepsJob(s, force, reason, reply);
      KeptInOrder(s, Stop(s, force, reason, reply).s);
    case DoAcquire(attempts) =>
      AcquireKeepsJob(c, s, attempts);
      KeptInOrder(s, Acquire(c, s, attempts).s);
    case DoRelease(id) =>
      ReleaseKeepsJob(c, s, id);
      KeptInOrder(s, Release(c, s, id).s);
    case DoNotify(attempts) => NotifyKeepsOrder(c, s, attempts);
    case DoBegin(job, attempts) =>
      if s.w.inFlight == map[] {
        BeginStartsJob(c, s, job, attempts);
      } else {
        SecondBeginIsRefused(c, s, job, attempts);
        KeptInOrder(s, Begin(c, s, job, attempts).s);
      }
    case DoFinish(job, ok, reply, attempts) => FinishKeepsOrder(c, s, job, ok, reply, attempts);
    case DoReconcile(alive, attempts) => ReconcileKeepsOrder(c, s, alive, attempts);
    case DoTick(lag, reply, attempts) =>
      TickKeepsJob(c, s, lag, reply, attempts);
      KeptInOrder(s, TickService(c, s, lag, reply, attempts).s);
    case Crash(during, keep, downtime) => RebootInOrder(s, Step(c, s, during).s, keep, downtime);
  }

  lemma PassiveKeepsJob(s: Sys, dt: nat, mode: Mode)
    requires JobsInOrder(s)
    ensures var t := Later(s, dt); JobsInOrder(t) && JobKept(s, t)
    ensures var t := s.(w := s.w.(mode := mode)); JobsInOrder(t) && JobKept(s, t)
  {
  }

  lemma RebootInOrder(s: Sys, after: Sys, keep: nat, downtime: nat)
    ensures JobsInOrder(Reboot(s, after, keep, downtime))
  {
  }

  lemma NotifyKeepsOrder(c: Config, s: Sys, attempts: seq<Attempt>)
    requires JobsInOrder(s) && s.w.inFlight == map[]
    ensures JobsInOrder(NotifyFailure(c, s, attempts).s)
  {
    hide RestartAfterFailure;
    RestartKeepsJob(c, MarkFailed(s, RuntimeDied, RuntimeFailure).s, attempts);
  }

  lemma FinishKeepsOrder(c: Config, s: Sys, name: string, ok: bool, reply: Reply, attempts: seq<Attempt>)
    requires JobsInOrder(s)
    ensures JobsInOrder(Finish(c, s, name, ok, reply, attempts).s)
  {
    if FindJob(c.jobs, name).Some? && name in s.w.inFlight {
      hide Finish;
      FinishIsLegal(c, s, name, ok, reply, attempts);
    }
  }

  lemma ReconcileKeepsOrder(c: Config, s: Sys, alive: bool, attempts: seq<Attempt>)
    requires JobsInOrder(s) && s.w.inFlight == map[]
    ensures JobsInOrder(Reconcile(c, s, alive, attempts).s)
  {
    hide Reconcile, Middle;
    ReconcileIsMiddle(c, s, alive, attempts);
    MiddleOutcome(c, DeclaredHolds(s), alive, attempts);
  }

  // ---------------------------------------------------------------- the theorems

  /** No operation of the run disturbs a job that is in flight when it happens. */
  ghost predicate Undisturbed(c: Config, s: Sys, ops: seq<Op>)
    decreases |ops|
  {
    ops == [] || (Harmless(s, ops[0]) && Undisturbed(c, Step(c, s, ops[0]).s, ops[1..]))
  }

  /** Over every run without disturbance, crashes included: at most one job is in flight, the job keys are
      exactly the jobs in flight, and the service is in maintenance and held while one is. */
  lemma {:induction false} AtMostOneJob(c: Config, s: Sys, ops: seq<Op>)
    requires JobsInOrder(s) && Undisturbed(c, s, ops)
    ensures var w := Run(c, s, ops).w;
            && w.running == w.inFlight.Keys
            && (forall a, b | a in w.inFlight && b in w.inFlight :: a == b)
            && (w.inFlight != map[] ==> w.rec.state == Maintenance && Count(w.rec.holds, MaintenanceHold) > 0)
    decreases |ops|
  {
    hide Step;
    if ops != [] {
      StepKeepsOrder(c, s, ops[0]);
      AtMostOneJob(c, Step(c, s, ops[0]).s, ops[1..]);
    }
  }

  lemma {:induction false} JobSurvives(c: Config, s: Sys, ops: seq<Op>)
    requires JobsInOrder(s) && s.w.inFlight != map[] && Undisturbed(c, s, ops)
    requires forall op | op in ops :: !op.DoFinish? && !op.Crash?
    ensures JobsInOrder(Run(c, s, ops)) && JobKept(s, Run(c, s, ops))
    decreases |ops|
  {
    hide Step;
    if ops != [] {
      StepKeepsOrder(c, s, ops[0]);
      JobSurvives(c, Step(c, s, ops[0]).s, ops[1..]);
    }
  }

  /** A whole maintenance run, with any harmless operations while the driver works: the job finishes
      legally, its key and its hold go, and a successful one stops the service exactly when the service
      was inactive before, the job asks for it and nobody else holds the service by then. */
  lemma MaintenanceRun(c: Config, s: Sys, name: string, attempts: seq<Attempt>, between: seq<Op>,
                       reply: Reply, more: seq<Attempt>)
    requires JobsInOrder(s) && s.w.inFlight == map[] && Begin(c, s, name, attempts).Ok?
    requires Undisturbed(c, Begin(c, s, name, attempts).s, between)
    requires forall op | op in between :: !op.DoFinish? && !op.Crash?
    requires reply.ok
    ensures var job := FindJob(c.jobs, name).value;
            var t := Run(c, Begin(c, s, name, attempts).s, between);
            var r := Finish(c, t, name, true, reply, more);
            && t.w.rec.state == Maintenance && t.w.running == {name}
            && r.Ok? && r.s.w.inFlight == map[] && r.s.w.running == {}
            && Count(r.s.w.rec.holds, MaintenanceHold) == Count(t.w.rec.holds, MaintenanceHold) - 1
            && r.s.w.rec.state ==
                 (if !Active(s.w.rec.state) && job.shutdownAfter && !Held(r.s.w.rec.holds) then Stopped else Running)
  {
    hide Begin, Step;
    BeginStartsJob(c, s, name, attempts);
    var s1 := Begin(c, s, name, attempts).s;
    assert name in s1.w.inFlight;
    JobSurvives(c, s1, between);
    var t := Run(c, s1, between);
    ClearedIsLegal(c, t, name, true);
    FinishIsLegal(c, t, name, true, reply, more);
    hide Run;
    FinishOutcome(c, t, name, reply, more);
  }

  lemma FinishOutcome(c: Config, t: Sys, name: string, reply: Reply, more: seq<Attempt>)
    requires JobsInOrder(t) && name in t.w.inFlight && FindJob(c.jobs, name).Some? && reply.ok
    ensures var r := Finish(c, t, name, true, reply, more);
            && r.Ok?
            && r.s.w.rec.state ==
                 (if !t.w.inFlight[name] && FindJob(c.jobs, name).value.shutdownAfter && !Held(r.s.w.rec.holds)
                  then Stopped else Running)
  {
    ClearedIsLegal(c, t, name, true);
    var s4 := Cleared(t, name, true);
    assert Finish(c, t, name, true, reply, more) ==
           (if !t.w.inFlight[name] && FindJob(c.jobs, name).value.shutdownAfter && !Held(s4.w.rec.holds)
            then StopLocked(s4, JobDone(name), reply) else Ok(ScheduleIdle(c, s4)));
  }
}
