/** What an operation that returns has written: the state file holds the record the process has. */
module SupervisorSaves {
  import opened Wrappers
  import opened Lifecycle
  import opened SupervisorModel
  import opened SupervisorFrames
  import opened SupervisorConvergence

  /** The last record that was written is the present one. */
  predicate Saved(s: Sys) { s.saves != [] && s.saves[|s.saves| - 1].rec == s.w.rec }

  lemma PrimitivesSave(c: Config)
    ensures forall s: Sys :: Saved(Save(s))
    ensures forall s: Sys, to_: State, why: Why :: Transition(s, to_, why).Ok? ==> Saved(Transition(s, to_, why).s)
    ensures forall s: Sys, e: Error, why: Why :: MarkFailed(s, e, why).Ok? ==> Saved(MarkFailed(s, e, why).s)
    ensures forall s: Sys, h: Hold :: Saved(AddHold(s, h)) && Saved(RemoveHold(s, h))
    ensures forall s: Sys :: Saved(s) ==> Saved(ScheduleIdle(c, s))
  {
    hide Legal, Held;
  }

  lemma {:induction false} EnsureSaves(c: Config, s: Sys, why: Why, attempts: seq<Attempt>)
    requires Saved(s)
    ensures var r := EnsureRunning(c, s, why, attempts); r.Ok? ==> Saved(r.s)
    decreases |attempts|, 1
  {
    EnsureFrame(c, s, why, attempts);
    if !Active(s.w.rec.state) {
      DownSaves(c, s, why, attempts);
    }
    hide EnsureRunning, Frame, Saved;
  }

  lemma {:induction false} RestartSaves(c: Config, s: Sys, attempts: seq<Attempt>)
    requires Saved(s)
    ensures var r := RestartAfterFailure(c, s, attempts); r.Ok? ==> Saved(r.s)
    decreases |attempts|, 2
  {
    PrimitivesSave(c);
    var s1 := Grant(c, s, Recent(s.w.rec.restartTimes, s.w.now, c.window));
    hide Saved, Recent, EnsureRunning, Save;
    EnsureSaves(c, s1, Recovery, attempts);
  }

  /** Sessions and stops, failures and maintenance, and reconciliations: whatever returns has saved its record. */
  predicate Writes(op: Op) {
    op.DoStop? || op.DoAcquire? || op.DoRelease? || op.DoNotify? || op.DoBegin? || op.DoFinish? || op.DoReconcile?
  }

  lemma ReturnsSaved(c: Config, s: Sys, op: Op)
    requires Writes(op) && Step(c, s, op).Ok?
    ensures Saved(Step(c, s, op).s)
  {
    hide Saved, Stop, Acquire, Release, NotifyFailure, Begin, Finish, Reconcile;
    match op
    case DoStop(force, reason, reply) => StopSaves(c, s, force, reason, reply);
    case DoAcquire(attempts) => AcquireSaves(c, s, attempts);
    case DoRelease(id) => ReleaseSaves(c, s, id);
    case DoNotify(attempts) => NotifySaves(c, s, attempts);
    case DoBegin(job, attempts) => BeginSaves(c, s, job, attempts);
    case DoFinish(job, ok, reply, attempts) => FinishSaves(c, s, job, ok, reply, attempts);
    case DoReconcile(alive, attempts) => ReconcileSaves(c, s, alive, attempts);
  }

  /** A start has saved its record too, unless it had nothing to do: the service was up and held for the reason. */
  lemma StartSaved(c: Config, s: Sys, reason: Hold, attempts: seq<Attempt>)
    requires Start(c, s, reason, attempts).Ok?
    requires !Active(s.w.rec.state) || Count(s.w.rec.holds, reason) == 0
    ensures Saved(Start(c, s, reason, attempts).s)
  {
    hide *;
    var s1 := Asked(c, s, reason, attempts);
    if Active(s1.w.rec.state) {
      EnsureSaves(c, s1, Requested(reason), attempts);
    } else {
      DownSaves(c, s1, Requested(reason), attempts);
    }
  }

  /** What a start works on, which is saved if a hold was added. */
  lemma Asked(c: Config, s: Sys, reason: Hold, attempts: seq<Attempt>) returns (s1: Sys)
    ensures Start(c, s, reason, attempts) == EnsureRunning(c, s1, Requested(reason), attempts)
    ensures s1.w.rec.state == s.w.rec.state && (Count(s.w.rec.holds, reason) == 0 ==> Saved(s1))
  {
    hide EnsureRunning;
    var s0 := Intent(s, reason);
    s1 := if Count(s0.w.rec.holds, reason) == 0 then AddHold(s0, reason) else s0;
  }

  /** A start that brings a service up saves in the end, whatever was saved before. */
  lemma {:induction false} DownSaves(c: Config, s: Sys, why: Why, attempts: seq<Attempt>)
    requires !Active(s.w.rec.state)
    ensures var r := EnsureRunning(c, s, why, attempts); r.Ok? ==> Saved(r.s)
    decreases |attempts|, 0
  {
    PrimitivesSave(c);
    hide Saved, TryStart, Transition, MarkFailed, RestartAfterFailure, Save;
    EnsureFrame(c, s, why, attempts);
    var state := s.w.rec.state;
    if (state == Stopped || state == Failed) && attempts != [] {
      EnsureUnfolds(c, s, why, attempts);
      BeganFrame(s, why, attempts[0], c);
      var s1 := Transition(s, Starting, why).s;
      var a := TryStart(c, s1.w.now, attempts[0]);
      if a.error.Some? {
        FailedFrame(At(s1, a.at), a.error.value, StartFailure);
        RestartSaves(c, MarkFailed(At(s1, a.at), a.error.value, StartFailure).s, attempts[1..]);
      }
    }
    hide Frame;
  }

  lemma StopSaves(c: Config, s: Sys, force: bool, reason: Hold, reply: Reply)
    requires Stop(s, force, reason, reply).Ok?
    ensures Saved(Stop(s, force, reason, reply).s)
  {
    StopLockedSaves(c, Withdraw(s, force, reason), Requested(reason), reply);
    hide Saved, StopLocked, Held;
  }

  lemma StopLockedSaves(c: Config, s: Sys, why: Why, reply: Reply)
    ensures var r := StopLocked(s, why, reply); r.Ok? ==> Saved(r.s)
  {
    PrimitivesSave(c);
    hide Saved, Transition, MarkFailed, Save;
  }

  lemma AcquireSaves(c: Config, s: Sys, attempts: seq<Attempt>)
    requires Acquire(c, s, attempts).Ok?
    ensures Saved(Acquire(c, s, attempts).s)
  {
    hide Saved, EnsureRunning, AddHold, RemoveHold, Transition, MarkFailed, ScheduleIdle, Save;
    PrimitivesSave(c);
    var q := s.w.rec;
    var s1 := s.(w := s.w.(rec := q.(sessions := q.sessions[s.w.nextId := s.w.now]), nextId := s.w.nextId + 1));
    EnsureSaves(c, AddHold(s1, SessionsHold), ForSession, attempts);
  }

  lemma ReleaseSaves(c: Config, s: Sys, id: nat)
    requires Release(c, s, id).Ok?
    ensures Saved(Release(c, s, id).s)
  {
    PrimitivesSave(c);
    hide Saved, RemoveHold, ScheduleIdle;
  }

  lemma NotifySaves(c: Config, s: Sys, attempts: seq<Attempt>)
    requires NotifyFailure(c, s, attempts).Ok?
    ensures Saved(NotifyFailure(c, s, attempts).s)
  {
    PrimitivesSave(c);
    hide Saved, MarkFailed, RestartAfterFailure;
    RestartSaves(c, MarkFailed(s, RuntimeDied, RuntimeFailure).s, attempts);
  }

  lemma BeginSaves(c: Config, s: Sys, job: string, attempts: seq<Attempt>)
    requires Begin(c, s, job, attempts).Ok?
    ensures Saved(Begin(c, s, job, attempts).s)
  {
    PrimitivesSave(c);
    hide EnsureRunning, AddHold, RemoveHold, Transition, FindJob, Save;
  }

  lemma FinishSaves(c: Config, s: Sys, job: string, ok: bool, reply: Reply, attempts: seq<Attempt>)
    requires Finish(c, s, job, ok, reply, attempts).Ok?
    ensures Saved(Finish(c, s, job, ok, reply, attempts).s)
  {
    FinishLast(c, s, job, ok, reply, attempts);
    hide Saved, Finish;
  }

  /** A finish that returns ends with a stop or with a look at the idle timeout, after the hold was given back. */
  lemma FinishLast(c: Config, s: Sys, job: string, ok: bool, reply: Reply, attempts: seq<Attempt>)
    ensures var r := Finish(c, s, job, ok, reply, attempts); r.Ok? ==> Saved(r.s)
  {
    PrimitivesSave(c);
    hide StopLocked, ScheduleIdle, RemoveHold, Transition, MarkFailed, RestartAfterFailure, FindJob, Held, Save;
    forall t: Sys ensures StopLocked(t, JobDone(job), reply).Ok? ==> Saved(StopLocked(t, JobDone(job), reply).s) {
      StopLockedSaves(c, t, JobDone(job), reply);
    }
  }

  lemma ReconcileSaves(c: Config, s: Sys, alive: bool, attempts: seq<Attempt>)
    requires Reconcile(c, s, alive, attempts).Ok?
    ensures Saved(Reconcile(c, s, alive, attempts).s)
  {
    PrimitivesSave(c);
    hide Reconcile, Middle, Saved, Save;
    ReconcileIsMiddle(c, s, alive, attempts);
  }
}
