/** Maintenance job keys that are left behind: exactly when, and what they do from then on. */
module SupervisorJobKeys {
  import opened Wrappers
  import opened Lifecycle
  import opened SupervisorModel
  import opened SupervisorFrames
  import opened SupervisorConvergence
  import opened SupervisorMaintenance
  import Schedule

  /** The key is taken and no thread is left that would give it back. */
  predicate Leaked(s: Sys, name: string) { name in s.w.running && name !in s.w.inFlight }

  // ---------------------------------------------------------------- how a key is left behind

  /** Exactly when the finishing region of a job is illegal: a successful job finds a state that has no
      transition to running, a failed one a state that neither is failed nor can become it. Then neither
      the key nor any hold is given back. */
  lemma FinishIllegalIff(c: Config, s: Sys, name: string, ok: bool, reply: Reply, attempts: seq<Attempt>)
    requires name in s.w.inFlight && FindJob(c.jobs, name).Some?
    ensures var r := Finish(c, s, name, ok, reply, attempts);
            var illegal := if ok then !Legal(s.w.rec.state, Running)
                           else s.w.rec.state != Failed && !Legal(s.w.rec.state, Failed);
            && (r == Raise(r.s, InvalidTransition) <==> illegal)
            && (illegal ==> r.s.w.running == s.w.running && r.s.w.rec.holds == s.w.rec.holds && name !in r.s.w.inFlight)
  {
    if ok {
      SuccessIllegalIff(c, s, name, reply, attempts);
    } else {
      FailureIllegalIff(c, s, name, reply, attempts);
    }
    hide Finish;
  }

  lemma SuccessIllegalIff(c: Config, s: Sys, name: string, reply: Reply, attempts: seq<Attempt>)
    requires name in s.w.inFlight && FindJob(c.jobs, name).Some?
    ensures var r := Finish(c, s, name, true, reply, attempts);
            && (r == Raise(r.s, InvalidTransition) <==> !Legal(s.w.rec.state, Running))
            && (!Legal(s.w.rec.state, Running) ==>
                  r.s.w.running == s.w.running && r.s.w.rec.holds == s.w.rec.holds && name !in r.s.w.inFlight)
  {
    hide MarkFailed, RestartAfterFailure, ScheduleIdle, FindJob, RemoveHold;
    if Legal(s.w.rec.state, Running) {
      var s2 := Transition(Recorded(s, name, true), Running, JobDone(name)).s;
      var s4 := Freed(s2, name);
      RemovesShape(s2, name);
      StopsLegally(s4, JobDone(name), reply);
    }
    hide StopLocked, Freed;
  }

  function Recorded(s: Sys, name: string, ok: bool): Sys {
    var r := s.w.rec;
    s.(w := s.w.(inFlight := s.w.inFlight - {name},
                 rec := r.(results := r.results[name := JobResult(s.w.now, ok)],
                           lastRun := r.lastRun[name := s.w.now])))
  }

  function Freed(s: Sys, name: string): Sys {
    var s3 := RemoveHold(s, MaintenanceHold);
    s3.(w := s3.w.(running := s3.w.running - {name}))
  }

  lemma RemovesShape(s: Sys, name: string)
    ensures Freed(s, name).w.rec.state == s.w.rec.state
  {
  }

  lemma StopsLegally(s: Sys, why: Why, reply: Reply)
    requires s.w.rec.state == Running
    ensures StopLocked(s, why, reply) != Raise(StopLocked(s, why, reply).s, InvalidTransition)
  {
  }

  lemma FailureIllegalIff(c: Config, s: Sys, name: string, reply: Reply, attempts: seq<Attempt>)
    requires name in s.w.inFlight && FindJob(c.jobs, name).Some?
    ensures var r := Finish(c, s, name, false, reply, attempts);
            var illegal := s.w.rec.state != Failed && !Legal(s.w.rec.state, Failed);
            && (r == Raise(r.s, InvalidTransition) <==> illegal)
            && (illegal ==> r.s.w.running == s.w.running && r.s.w.rec.holds == s.w.rec.holds && name !in r.s.w.inFlight)
  {
    hide StopLocked, RestartAfterFailure, ScheduleIdle, FindJob, RemoveHold;
    var s1 := Recorded(s, name, false);
    if s.w.rec.state == Failed || Legal(s.w.rec.state, Failed) {
      var s2 := MarkFailed(s1, JobFailed, JobBroke(name)).s;
      RemovesShape(s2, name);
      RestartFrame(c, Freed(s2, name), attempts);
    }
    hide Freed, Frame;
  }

  // ---------------------------------------------------------------- nothing gives it back

  /** The memory of the process: which jobs have a key and which have a thread. */
  predicate SameMemory(s: Sys, t: Sys) { t.w.running == s.w.running && t.w.inFlight == s.w.inFlight }

  lemma StopMemory(s: Sys, force: bool, reason: Hold, reply: Reply)
    ensures SameMemory(s, Stop(s, force, reason, reply).s)
  {
    hide StopLocked;
    StopLockedOutside(Withdraw(s, force, reason), Requested(reason), reply);
  }

  lemma StartMemory(c: Config, s: Sys, reason: Hold, attempts: seq<Attempt>)
    ensures SameMemory(s, Start(c, s, reason, attempts).s)
  {
    hide EnsureRunning;
    var s1 := Intent(s, reason);
    var s2 := if Count(s1.w.rec.holds, reason) == 0 then AddHold(s1, reason) else s1;
    StartsOutside(c, s2, Requested(reason), attempts);
  }

  lemma AcquireMemory(c: Config, s: Sys, attempts: seq<Attempt>)
    ensures SameMemory(s, Acquire(c, s, attempts).s)
  {
    SmallMoves(c);
    hide EnsureRunning, AddHold, RemoveHold;
    var id := s.w.nextId;
    var s1 := s.(w := s.w.(rec := s.w.rec.(sessions := s.w.rec.sessions[id := s.w.now]), nextId := id + 1));
    StartsOutside(c, AddHold(s1, SessionsHold), ForSession, attempts);
  }

  lemma NotifyMemory(c: Config, s: Sys, attempts: seq<Attempt>)
    ensures SameMemory(s, NotifyFailure(c, s, attempts).s)
  {
    SmallMoves(c);
    hide MarkFailed, RestartAfterFailure;
    StartsOutside(c, MarkFailed(s, RuntimeDied, RuntimeFailure).s, Recovery, attempts);
  }

  lemma ReconcileMemory(c: Config, s: Sys, alive: bool, attempts: seq<Attempt>)
    ensures SameMemory(s, Reconcile(c, s, alive, attempts).s)
  {
    hide Reconcile, Middle;
    ReconcileIsMiddle(c, s, alive, attempts);
    MiddleOutcome(c, DeclaredHolds(s), alive, attempts);
  }

  lemma {:induction false} MarkDueMemory(c: Config, s: Sys, at: nat, i: nat)
    requires i <= |c.jobs|
    ensures SameMemory(s, MarkDue(c, s, at, i).s)
    decreases |c.jobs| - i
  {
    hide Schedule.IsDue;
    if i < |c.jobs| {
      MarkDueMemory(c, s, at, i + 1);
      MarkDueMemory(c, Launch(s, c.jobs[i].name, at), at, i + 1);
    }
  }

  lemma TickMemory(c: Config, s: Sys, lag: nat, reply: Reply, attempts: seq<Attempt>)
    ensures SameMemory(s, TickService(c, s, lag, reply, attempts).s)
  {
    hide EnsureRunning, MarkDue, StopLocked;
    var at := if lag <= s.w.now then s.w.now - lag else 0;
    StopLockedOutside(s, IdleTimeout, reply);
    var s1 := (if IdleExpired(s, at) then StopLocked(s, IdleTimeout, reply) else Ok(s)).s;
    StartsOutside(c, s1, Recovery, attempts);
    MarkDueMemory(c, RetryFailed(c, s1, at, attempts).s, at, 0);
  }

  lemma BeginStaysLeaked(c: Config, s: Sys, job: string, attempts: seq<Attempt>, name: string)
    requires Leaked(s, name)
    ensures Leaked(Begin(c, s, job, attempts).s, name)
  {
    SmallMoves(c);
    hide EnsureRunning, AddHold, RemoveHold, Transition, FindJob;
    var s1 := AddHold(s.(w := s.w.(running := s.w.running + {job})), MaintenanceHold);
    StartsOutside(c, s1, ForJob(job), attempts);
  }

  lemma FinishStaysLeaked(c: Config, s: Sys, job: string, ok: bool, reply: Reply, attempts: seq<Attempt>, name: string)
    requires Leaked(s, name)
    ensures Leaked(Finish(c, s, job, ok, reply, attempts).s, name)
  {
    SmallMoves(c);
    hide StopLocked, RestartAfterFailure, RemoveHold, MarkFailed, Transition, ScheduleIdle, FindJob;
    if job in s.w.inFlight {
      var s1 := Recorded(s, job, ok);
      var s2 := (if ok then Transition(s1, Running, JobDone(job)) else MarkFailed(s1, JobFailed, JobBroke(job))).s;
      var s4 := Freed(s2, job);
      StopLockedOutside(s4, JobDone(job), reply);
      RemovesShape(s2, job);
      StartsOutside(c, s4, Recovery, attempts);
    }
  }

  lemma StepStaysLeaked(c: Config, s: Sys, op: Op, name: string)
    requires Leaked(s, name) && !op.Crash?
    ensures Leaked(Step(c, s, op).s, name)
  {
    hide Start, Stop, Acquire, Release, NotifyFailure, Begin, Finish, Reconcile, TickService;
    match op
    case Advance(_) =>
    case SetMode(_) =>
    case DoStart(reason, attempts) => StartMemory(c, s, reason, attempts);
    case DoStop(force, reason, reply) => StopMemory(s, force, reason, reply);
    case DoAcquire(attempts) => AcquireMemory(c, s, attempts);
    case DoRelease(id) => ReleaseMemory(c, s, id);
    case DoNotify(attempts) => NotifyMemory(c, s, attempts);
    case DoBegin(job, attempts) => BeginStaysLeaked(c, s, job, attempts, name);
    case DoFinish(job, ok, reply, attempts) => FinishStaysLeaked(c, s, job, ok, reply, attempts, name);
    case DoReconcile(alive, attempts) => ReconcileMemory(c, s, alive, attempts);
    case DoTick(lag, reply, attempts) => TickMemory(c, s, lag, reply, attempts);
  }

  lemma ReleaseMemory(c: Config, s: Sys, id: nat)
    ensures SameMemory(s, Release(c, s, id).s)
  {
    SmallMoves(c);
    hide RemoveHold, ScheduleIdle;
  }

  lemma {:induction false} StaysLeaked(c: Config, s: Sys, ops: seq<Op>, name: string)
    requires Leaked(s, name) && forall op | op in ops :: !op.Crash?
    ensures Leaked(Run(c, s, ops), name)
    decreases |ops|
  {
    hide Step, Leaked;
    if ops != [] {
      StepStaysLeaked(c, s, ops[0], name);
      StaysLeaked(c, Step(c, s, ops[0]).s, ops[1..], name);
    }
  }

  /** A key that was left behind blocks its job for good: until the process dies, over every run, each
      request for the job is refused as if the job were running. */
  lemma LeakedKeyBlocksJob(c: Config, s: Sys, ops: seq<Op>, name: string, attempts: seq<Attempt>)
    requires Leaked(s, name) && (forall op | op in ops :: !op.Crash?) && FindJob(c.jobs, name).Some?
    ensures var t := Run(c, s, ops); Leaked(t, name) && Begin(c, t, name, attempts) == Raise(t, Busy)
  {
    StaysLeaked(c, s, ops, name);
    hide Run;
  }

  /** Why reconciliation is excluded from maintenance runs: any reconciliation while a job is in flight,
      whatever it finds, makes the finish of that job illegal if it was successful, and the job is refused
      from then on. */
  lemma ReconcileLeaksJob(c: Config, s: Sys, name: string, alive: bool, attempts: seq<Attempt>, reply: Reply,
                          more: seq<Attempt>, ops: seq<Op>, last: seq<Attempt>)
    requires name in s.w.inFlight && name in s.w.running && FindJob(c.jobs, name).Some?
    requires forall op | op in ops :: !op.Crash?
    ensures var r := Finish(c, Reconcile(c, s, alive, attempts).s, name, true, reply, more);
            var t := Run(c, r.s, ops);
            r == Raise(r.s, InvalidTransition) && Begin(c, t, name, last) == Raise(t, Busy)
  {
    ReconcileMemory(c, s, alive, attempts);
    ReconcileSettles(c, s, alive, attempts);
    hide Reconcile, Finish, Run, Begin;
    var t := Reconcile(c, s, alive, attempts).s;
    FinishIllegalIff(c, t, name, true, reply, more);
    LeakedKeyBlocksJob(c, Finish(c, t, name, true, reply, more).s, ops, name, last);
  }
}
