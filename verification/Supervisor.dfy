/** The lifecycle supervisor of one service as the object it is: fields updated in place, every locked
    operation a method proved to do exactly what SupervisorModel says. */
module Supervisor {
  import opened Wrappers
  import opened Lifecycle
  import opened Schedule
  import opened SupervisorModel
  import Model = SupervisorModel
  import Invariants = SupervisorInvariants
  import Frames = SupervisorFrames

  /** Normal return or a raised exception. */
  datatype Outcome = Done | Thrown(e: Error) {
    predicate IsFailure() { Thrown? }
    function PropagateFailure(): Outcome
      requires Thrown?
    {
      this
    }
  }

  /** `_validate_jobs`: unique names, and schedules that `is_due` accepts right now. */
  method ValidateJobs(jobs: seq<Job>, now: nat) returns (ok: bool)
    ensures ok <==> (forall i, j | 0 <= i < j < |jobs| :: jobs[i].name != jobs[j].name)
                    && forall i | 0 <= i < |jobs| :: IsDue(jobs[i].schedule, now, Some(now)) != Refused
  {
    hide IsDue;
    var names := {};
    for k := 0 to |jobs|
      invariant forall i | 0 <= i < k :: jobs[i].name in names
      invariant forall n | n in names :: exists i | 0 <= i < k :: jobs[i].name == n
      invariant forall i, j | 0 <= i < j < k :: jobs[i].name != jobs[j].name
      invariant forall i | 0 <= i < k :: IsDue(jobs[i].schedule, now, Some(now)) != Refused
    {
      if jobs[k].name in names || IsDue(jobs[k].schedule, now, Some(now)) == Refused {
        return false;
      }
      names := names + {jobs[k].name};
    }
    return true;
  }

  // ---------------------------------------------------------------- what public operations keep

  ghost predicate Stays(c: Config, s: Sys, t: Sys) {
    Invariants.DistinctJobs(c) && Invariants.Good(c, s) ==> Invariants.Good(c, t)
  }

  lemma StartStaysValid(c: Config, s: Sys, reason: Hold, attempts: seq<Attempt>)
    ensures reason != SessionsHold ==> Stays(c, s, Model.Start(c, s, reason, attempts).s)
  {
    if Invariants.DistinctJobs(c) && Invariants.Good(c, s) && reason != SessionsHold {
      Invariants.StartKeeps(c, s, reason, attempts);
    }
  }

  lemma StopStaysValid(c: Config, s: Sys, force: bool, reason: Hold, reply: Reply)
    ensures Stays(c, s, Model.Stop(s, force, reason, reply).s)
  {
    if Invariants.DistinctJobs(c) && Invariants.Good(c, s) {
      Invariants.StopKeeps(c, s, force, reason, reply);
    }
  }

  lemma AcquireStaysValid(c: Config, s: Sys, attempts: seq<Attempt>)
    ensures Stays(c, s, Model.Acquire(c, s, attempts).s)
  {
    if Invariants.DistinctJobs(c) && Invariants.Good(c, s) {
      Invariants.AcquireKeeps(c, s, attempts);
    }
  }

  lemma ReleaseStaysValid(c: Config, s: Sys, id: nat)
    ensures Stays(c, s, Model.Release(c, s, id).s)
  {
    if Invariants.DistinctJobs(c) && Invariants.Good(c, s) {
      Invariants.ReleaseKeeps(c, s, id);
    }
  }

  lemma NotifyFailureStaysValid(c: Config, s: Sys, attempts: seq<Attempt>)
    ensures Stays(c, s, Model.NotifyFailure(c, s, attempts).s)
  {
    if Invariants.DistinctJobs(c) && Invariants.Good(c, s) {
      Invariants.NotifyKeeps(c, s, attempts);
    }
  }

  lemma BeginStaysValid(c: Config, s: Sys, name: string, attempts: seq<Attempt>)
    ensures Stays(c, s, Model.Begin(c, s, name, attempts).s)
  {
    if Invariants.DistinctJobs(c) && Invariants.Good(c, s) {
      Invariants.BeginKeeps(c, s, name, attempts);
    }
  }

  lemma FinishStaysValid(c: Config, s: Sys, name: string, ok: bool, reply: Reply, attempts: seq<Attempt>)
    ensures Stays(c, s, Model.Finish(c, s, name, ok, reply, attempts).s)
  {
    if Invariants.DistinctJobs(c) && Invariants.Good(c, s) {
      Invariants.FinishKeeps(c, s, name, ok, reply, attempts);
    }
  }

  lemma ReconcileStaysValid(c: Config, s: Sys, alive: bool, attempts: seq<Attempt>)
    ensures Stays(c, s, Model.Reconcile(c, s, alive, attempts).s)
  {
    if Invariants.DistinctJobs(c) && Invariants.Good(c, s) {
      Invariants.ReconcileKeeps(c, s, alive, attempts);
    }
  }

  lemma TickServiceStaysValid(c: Config, s: Sys, lag: nat, reply: Reply, attempts: seq<Attempt>)
    ensures Stays(c, s, Model.TickService(c, s, lag, reply, attempts).s)
  {
    if Invariants.DistinctJobs(c) && Invariants.Good(c, s) {
      Invariants.TickKeeps(c, s, lag, reply, attempts);
    }
  }

  class Supervisor {
    const config: Config
    /** The service's `InstanceState`. */
    var instance: Record
    var now: nat
    var mode: Mode
    var running: set<string>
    var inFlight: map<string, bool>
    var nextId: nat
    var journal: seq<Event>
    ghost var grants: seq<nat>
    ghost var resets: nat
    ghost var launches: map<string, seq<nat>>
    ghost var saves: seq<World>

    ghost function View(): Sys
      reads this
    {
      Sys(World(instance, now, mode, running, inFlight, nextId, journal, grants, resets, launches), saves)
    }

    /** What every public operation keeps; see SupervisorInvariants. */
    ghost predicate Valid()
      reads this
    {
      Invariants.DistinctJobs(config) && Invariants.Good(config, View())
    }

    ghost function Report(out: Outcome): Res
      reads this
    {
      match out
      case Done => Ok(View())
      case Thrown(e) => Raise(View(), e)
    }

    /** A supervisor starts from the record it finds, or from a fresh one. */
    constructor (c: Config, file: Option<Record>, at: nat, m: Mode)
      ensures config == c
      ensures View() == if file.Some? then Invariants.Resumed(file.value, at, m) else Init(at, m)
      ensures Valid() <==> Invariants.DistinctJobs(c) && (file.Some? ==> Invariants.Loadable(c, file.value, at))
    {
      config := c;
      instance := if file.Some? then Loaded(file.value) else FRESH;
      now, mode, running, inFlight, nextId, journal := at, m, {}, map[], 0, [];
      grants, resets, launches, saves := if file.Some? then file.value.restartTimes else [], 0, map[], [];
      new;
      hide Invariants.Good, Invariants.Loadable;
      if file.Some? {
        Invariants.LoadedIsGoodIff(c, file.value, at, m);
      } else {
        Invariants.InitIsGood(c, at, m);
      }
    }

    // -------------------------------------------------------------- primitives

    ghost method Persist()
      modifies this`saves
      ensures View() == Save(old(View()))
    {
      saves := saves + [View().w];
    }

    method Transition(to_: State, why: Why) returns (out: Outcome)
      modifies this
      ensures Report(out) == Model.Transition(old(View()), to_, why)
    {
      if !Legal(instance.state, to_) {
        return Thrown(InvalidTransition);
      }
      var before := instance.state;
      instance := instance.(state := to_);
      journal := journal + [Event(before, to_, now, why, Held(instance.holds))];
      Persist();
      return Done;
    }

    method AddHold(h: Hold)
      modifies this
      ensures View() == Model.AddHold(old(View()), h)
    {
      instance := instance.(holds := instance.holds[h := Count(instance.holds, h) + 1]);
      instance := instance.(idleDeadline := None);
      Persist();
    }

    method RemoveHold(h: Hold)
      modifies this
      ensures View() == Model.RemoveHold(old(View()), h)
    {
      var count := Count(instance.holds, h);
      if count <= 1 {
        instance := instance.(holds := instance.holds - {h});
      } else {
        instance := instance.(holds := instance.holds[h := count - 1]);
      }
      Persist();
    }

    method ScheduleIdle()
      modifies this
      ensures View() == Model.ScheduleIdle(config, old(View()))
    {
      if mode != OnDemand || Held(instance.holds) || instance.state != Running {
        return;
      }
      if instance.idleDeadline.Some? {
        return;
      }
      instance := instance.(idleDeadline := Some(now + config.idleTimeout));
      Persist();
    }

    method NoteFailure(e: Error)
      modifies this
      ensures View() == Model.NoteFailure(old(View()), e)
    {
      instance := instance.(lastFailure := Some(e));
      Persist();
    }

    method MarkFailed(e: Error, why: Why) returns (out: Outcome)
      modifies this
      ensures Report(out) == Model.MarkFailed(old(View()), e, why)
    {
      hide Model.Transition, Model.NoteFailure;
      if instance.state != State.Failed {
        out := Transition(State.Failed, why);
        if out.Thrown? {
          return;
        }
      }
      assert Model.MarkFailed(old(View()), e, why) == Ok(Model.NoteFailure(View(), e));
      NoteFailure(e);
      return Done;
    }

    method DropRecovery()
      modifies this
      ensures View() == Model.DropRecovery(old(View()))
    {
      instance := instance.(holds := instance.holds - {RecoveryHold});
      Persist();
    }

    // -------------------------------------------------------------- start and recovery

    /** The readiness loop. */
    method AwaitReady(checks: nat -> Check) returns (out: Outcome)
      modifies this`now
      ensures var w := Model.AwaitReady(config.poll, checks, old(now), old(now) + config.startupTimeout, 0);
              now == w.at && out == (if w.error.None? then Done else Thrown(w.error.value))
    {
      var deadline := now + config.startupTimeout;
      var i := 0;
      while true
        invariant now <= deadline
        invariant Model.AwaitReady(config.poll, checks, now, deadline, i)
               == Model.AwaitReady(config.poll, checks, old(now), deadline, 0)
        decreases deadline - now
      {
        now := now + checks(i).takes;
        match checks(i).answer {
          case IsReady => return Done;
          case Broken => return Thrown(DriverFailed);
          case NotYet =>
        }
        if now >= deadline {
          return Thrown(ReadinessTimeout);
        }
        now := now + Min(config.poll, deadline - now);
        i := i + 1;
      }
    }

    /** Start the runtime, wait for it, and clean up after a failure. */
    method TryStart(a: Attempt) returns (out: Outcome)
      modifies this`now
      ensures var w := Model.TryStart(config, old(now), a);
              now == w.at && out == (if w.error.None? then Done else Thrown(w.error.value))
    {
      now := now + a.start.takes;
      if a.start.ok {
        out := AwaitReady(a.checks);
      } else {
        out := Thrown(DriverFailed);
      }
      if out.Thrown? {
        now := now + a.cleanup;
      }
    }

    method RecordStart()
      modifies this
      ensures View() == Model.Started(old(View()))
    {
      instance := instance.(lastStart := Some(now), lastFailure := None, nextRestart := None, exhausted := false);
      Persist();
    }

    method EnsureRunning(why: Why, attempts: seq<Attempt>) returns (out: Outcome)
      modifies this
      ensures Report(out) == Model.EnsureRunning(config, old(View()), why, attempts)
      decreases |attempts|, 0
    {
      if Active(instance.state) {
        return Done;
      }
      if instance.state == Starting || instance.state == Stopping {
        return Thrown(Busy);
      }
      if attempts == [] {
        return Thrown(Unfinished);
      }
      hide Model.EnsureRunning;
      out := MakeStart(why, attempts);
    }

    /** The part of a start that is made at all. */
    method MakeStart(why: Why, attempts: seq<Attempt>) returns (out: Outcome)
      requires (instance.state == Stopped || instance.state == State.Failed) && attempts != []
      modifies this
      ensures Report(out) == Model.EnsureRunning(config, old(View()), why, attempts)
      decreases |attempts|, -1
    {
      Frames.EnsureUnfolds(config, View(), why, attempts);
      Frames.BeganFrame(View(), why, attempts[0], config);
      hide Model.EnsureRunning, Model.Transition, Model.TryStart, Model.RestartAfterFailure, Model.Started,
           Model.MarkFailed,
           Frames.Frame;
      out := Transition(Starting, why);
      label began:
      var tried := TryStart(attempts[0]);
      assert View() == At(old@began(View()), Model.TryStart(config, old@began(now), attempts[0]).at);
      if tried.Done? {
        ComeUp(why);
        return Done;
      }
      Frames.FailedFrame(View(), tried.e, StartFailure);
      out := MarkFailed(tried.e, StartFailure);
      :- RestartAfterFailure(attempts[1..]);
      if instance.state == State.Failed {
        return Thrown(tried.e);
      }
    }

    /** A start that succeeded. */
    method ComeUp(why: Why)
      requires instance.state == Starting
      modifies this
      ensures View() == Model.Started(Model.Transition(Model.Transition(old(View()), Ready, why).s, Running, why).s)
    {
      Frames.StartedFrame(View(), why);
      hide Model.Transition, Model.Started, Frames.Frame;
      var up := Transition(Ready, why);
      up := Transition(Running, why);
      RecordStart();
    }

    method RestartAfterFailure(attempts: seq<Attempt>) returns (out: Outcome)
      modifies this
      ensures Report(out) == Model.RestartAfterFailure(config, old(View()), attempts)
      decreases |attempts|, 1
    {
      hide Model.EnsureRunning, Model.Recent, Model.DropRecovery, Model.Save;
      if config.restart == Never {
        return Done;
      }
      instance := instance.(restartTimes := Recent(instance.restartTimes, now, config.window));
      if |instance.restartTimes| >= config.maxRestarts {
        instance := instance.(lastFailure := Some(RestartLimit), exhausted := true, nextRestart := None);
        instance := instance.(holds := instance.holds - {RecoveryHold});
        Persist();
        return Thrown(RestartLimit);
      }
      instance := instance.(restartTimes := instance.restartTimes + [now]);
      grants := grants + [now];
      instance := instance.(exhausted := false);
      instance := instance.(holds := instance.holds[RecoveryHold := 1]);
      instance := instance.(nextRestart := Some(now + config.backoff));
      Persist();
      if config.backoff == 0 {
        :- EnsureRunning(Recovery, attempts);
        if instance.state == Running {
          DropRecovery();
        }
      }
      return Done;
    }

    /** The part of `start` that records an administrator's intent. */
    method Intend(reason: Hold)
      modifies this`instance, this`grants, this`resets
      ensures View() == Model.Intent(old(View()), reason)
    {
      if reason == AdminHold {
        instance := instance.(adminIntent := true);
        if instance.state == State.Failed {
          instance := instance.(exhausted := false, restartTimes := []);
          grants, resets := [], resets + 1;
        }
      }
    }

    method Start(reason: Hold, attempts: seq<Attempt>) returns (out: Outcome)
      modifies this
      ensures Report(out) == Model.Start(config, old(View()), reason, attempts)
      ensures old(Valid()) && reason != SessionsHold ==> Valid()
    {
      hide Invariants.Good, Invariants.DistinctJobs;
      StartStaysValid(config, View(), reason, attempts);
      hide Model.EnsureRunning, Model.AddHold, Model.Intent;
      Intend(reason);
      if Count(instance.holds, reason) == 0 {
        AddHold(reason);
      }
      out := EnsureRunning(Requested(reason), attempts);
    }

    // -------------------------------------------------------------- stop and sessions

    method StopLocked(why: Why, reply: Reply) returns (out: Outcome)
      modifies this
      ensures Report(out) == Model.StopLocked(old(View()), why, reply)
    {
      hide Model.Transition, Model.MarkFailed;
      if instance.state == Stopped {
        Persist();
        return Done;
      }
      if instance.state == State.Failed {
        out := Transition(Stopped, why);
        return;
      }
      if !Active(instance.state) {
        return Thrown(Busy);
      }
      out := Halt(why, reply);
    }

    /** A stop of an active service. */
    method Halt(why: Why, reply: Reply) returns (out: Outcome)
      requires Active(instance.state)
      modifies this
      ensures Report(out) == Model.StopLocked(old(View()), why, reply)
    {
      hide Model.Transition, Model.MarkFailed;
      hide Model.StopDriver;
      :- Transition(Stopping, why);
      out := StopDriver(why, reply);
    }

    method StopDriver(why: Why, reply: Reply) returns (out: Outcome)
      modifies this
      ensures Report(out) == Model.StopDriver(old(View()), why, reply)
    {
      hide Model.Transition, Model.MarkFailed;
      now := now + reply.takes;
      if !reply.ok {
        :- MarkFailed(DriverFailed, StopFailure);
        return Thrown(DriverFailed);
      }
      :- Transition(Stopped, why);
      instance := instance.(lastStop := Some(now), idleDeadline := None);
      Persist();
      return Done;
    }

    /** The part of `stop` before the service is touched. */
    method Withdraw(force: bool, reason: Hold)
      modifies this`instance
      ensures View() == Model.Withdraw(old(View()), force, reason)
    {
      if reason == AdminHold {
        instance := instance.(adminIntent := false, holds := instance.holds - {AdminHold});
      }
      if force {
        instance := instance.(holds := map[], sessions := map[]);
      }
    }

    method Stop(force: bool, reason: Hold, reply: Reply) returns (out: Outcome)
      modifies this
      ensures Report(out) == Model.Stop(old(View()), force, reason, reply)
      ensures old(Valid()) ==> Valid()
    {
      hide Invariants.Good, Invariants.DistinctJobs;
      StopStaysValid(config, View(), force, reason, reply);
      hide Model.StopLocked, Model.Withdraw;
      Withdraw(force, reason);
      if Held(instance.holds) && !force {
        return Thrown(Busy);
      }
      out := StopLocked(Requested(reason), reply);
    }

    method Acquire(attempts: seq<Attempt>) returns (out: Outcome, id: nat)
      modifies this
      ensures Report(out) == Model.Acquire(config, old(View()), attempts) && id == old(nextId)
      ensures old(Valid()) ==> Valid()
    {
      hide Invariants.Good, Invariants.DistinctJobs;
      AcquireStaysValid(config, View(), attempts);
      hide Model.EnsureRunning, Model.AddHold, Model.RemoveHold;
      id := nextId;
      if config.sharing == SingleSession && instance.sessions != map[] {
        return Thrown(Busy), id;
      }
      nextId := nextId + 1;
      instance := instance.(sessions := instance.sessions[id := now]);
      AddHold(SessionsHold);
      out := EnsureRunning(ForSession, attempts);
      if out.Thrown? {
        instance := instance.(sessions := instance.sessions - {id});
        RemoveHold(SessionsHold);
      }
    }

    method Release(id: nat) returns (out: Outcome)
      modifies this
      ensures Report(out) == Model.Release(config, old(View()), id)
      ensures old(Valid()) ==> Valid()
    {
      hide Invariants.Good, Invariants.DistinctJobs;
      ReleaseStaysValid(config, View(), id);
      hide Model.RemoveHold, Model.ScheduleIdle;
      if id !in instance.sessions {
        return Thrown(UnknownSession);
      }
      instance := instance.(sessions := instance.sessions - {id});
      RemoveHold(SessionsHold);
      ScheduleIdle();
      return Done;
    }

    method NotifyFailure(attempts: seq<Attempt>) returns (out: Outcome)
      modifies this
      ensures Report(out) == Model.NotifyFailure(config, old(View()), attempts)
      ensures old(Valid()) ==> Valid()
    {
      hide Invariants.Good, Invariants.DistinctJobs;
      NotifyFailureStaysValid(config, View(), attempts);
      hide Model.MarkFailed, Model.RestartAfterFailure;
      :- MarkFailed(RuntimeDied, RuntimeFailure);
      out := RestartAfterFailure(attempts);
    }

    // -------------------------------------------------------------- maintenance

    method Enter(name: string, attempts: seq<Attempt>) returns (out: Outcome)
      modifies this
      ensures Report(out) == Model.Enter(config, old(View()), name, attempts)
    {
      hide Model.EnsureRunning, Model.Transition;
      :- EnsureRunning(ForJob(name), attempts);
      out := Transition(Maintenance, ForJob(name));
    }

    /** `run_maintenance` up to the point where the lock is dropped and the driver called. */
    method Begin(name: string, attempts: seq<Attempt>) returns (out: Outcome)
      modifies this
      ensures Report(out) == Model.Begin(config, old(View()), name, attempts)
      ensures old(Valid()) ==> Valid()
    {
      hide Invariants.Good, Invariants.DistinctJobs;
      BeginStaysValid(config, View(), name, attempts);
      hide Model.Enter, Model.AddHold, Model.RemoveHold, Model.FindJob;
      var job := FindJob(config.jobs, name);
      if job.None? {
        return Thrown(UnknownJob);
      }
      if name in running {
        return Thrown(Busy);
      }
      var wasActive := Active(instance.state);
      if !wasActive && !job.value.wakeIfStopped {
        return Thrown(JobForbidden);
      }
      running := running + {name};
      AddHold(MaintenanceHold);
      out := Enter(name, attempts);
      if out.Thrown? {
        RemoveHold(MaintenanceHold);
        running := running - {name};
      } else {
        inFlight := inFlight[name := wasActive];
      }
    }

    /** The rest of `run_maintenance`, from the driver's answer on. */
    method Finish(name: string, ok: bool, reply: Reply, attempts: seq<Attempt>) returns (out: Outcome)
      modifies this
      ensures Report(out) == Model.Finish(config, old(View()), name, ok, reply, attempts)
      ensures old(Valid()) ==> Valid()
    {
      hide Invariants.Good, Invariants.DistinctJobs;
      FinishStaysValid(config, View(), name, ok, reply, attempts);
      hide Model.Transition, Model.MarkFailed, Model.RestartAfterFailure, Model.RemoveHold, Model.ScheduleIdle,
           Model.StopLocked, Model.FindJob;
      var job := FindJob(config.jobs, name);
      if job.None? || name !in inFlight {
        return Thrown(UnknownJob);
      }
      var wasActive := inFlight[name];
      inFlight := inFlight - {name};
      instance := instance.(results := instance.results[name := JobResult(now, ok)],
                            lastRun := instance.lastRun[name := now]);
      if ok {
        :- Transition(Running, JobDone(name));
      } else {
        :- MarkFailed(JobFailed, JobBroke(name));
      }
      out := Conclude(name, ok, !wasActive && job.value.shutdownAfter, reply, attempts);
    }

    /** What follows the finishing transition. */
    method Conclude(name: string, ok: bool, mayStop: bool, reply: Reply, attempts: seq<Attempt>) returns (out: Outcome)
      modifies this
      ensures var s3 := Model.RemoveHold(old(View()), MaintenanceHold);
              var s4 := s3.(w := s3.w.(running := s3.w.running - {name}));
              Report(out) ==
                if !ok then (match Model.RestartAfterFailure(config, s4, attempts)
                             case Ok(s5) => Raise(s5, JobFailed)
                             case Raise(s5, e) => Raise(s5, e))
                else if mayStop && !Held(s4.w.rec.holds) then Model.StopLocked(s4, JobDone(name), reply)
                else Ok(Model.ScheduleIdle(config, s4))
    {
      hide Model.RestartAfterFailure, Model.RemoveHold, Model.ScheduleIdle, Model.StopLocked;
      RemoveHold(MaintenanceHold);
      running := running - {name};
      if !ok {
        :- RestartAfterFailure(attempts);
        return Thrown(JobFailed);
      }
      if mayStop && !Held(instance.holds) {
        out := StopLocked(JobDone(name), reply);
      } else {
        ScheduleIdle();
        out := Done;
      }
    }

    // -------------------------------------------------------------- reconcile and tick

    method Adopt() returns (out: Outcome)
      modifies this
      ensures Report(out) == Model.Adopt(old(View()))
    {
      hide Model.Transition;
      :- Transition(Starting, Reconciling);
      :- Transition(Ready, Reconciling);
      out := Transition(Running, Reconciling);
    }

    method ResetStale() returns (out: Outcome)
      modifies this
      ensures Report(out) == Model.ResetStale(old(View()))
    {
      hide Model.Transition, Model.MarkFailed;
      :- MarkFailed(StaleState, Reconciling);
      out := Transition(Stopped, Reconciling);
    }

    method Lost(attempts: seq<Attempt>) returns (out: Outcome)
      modifies this
      ensures Report(out) == Model.Lost(config, old(View()), attempts)
    {
      hide Model.Transition, Model.MarkFailed, Model.RestartAfterFailure;
      :- MarkFailed(RuntimeDied, Reconciling);
      if Held(instance.holds) {
        out := RestartAfterFailure(attempts);
      } else {
        out := Transition(Stopped, Reconciling);
      }
    }

    method Settle(alive: bool, attempts: seq<Attempt>) returns (out: Outcome)
      modifies this
      ensures Report(out) == Model.Settle(config, old(View()), alive, attempts)
    {
      hide Model.Transition, Model.ResetStale, Model.Lost, Model.Adopt;
      out := Done;
      if instance.state == Stopping {
        out := Transition(if alive then State.Failed else Stopped, Reconciling);
      } else if instance.state == Starting || instance.state == Ready {
        if alive {
          if instance.state == Starting {
            :- Transition(Ready, Reconciling);
          }
          out := Transition(Running, Reconciling);
        } else {
          out := ResetStale();
        }
      } else if (instance.state == Running || instance.state == Maintenance) && !alive {
        out := Lost(attempts);
      } else if instance.state == Maintenance && alive {
        out := Transition(Running, Reconciling);
      } else if instance.state == Stopped && alive {
        out := Adopt();
      }
    }

    method Converge(attempts: seq<Attempt>) returns (out: Outcome)
      modifies this
      ensures Report(out) == Model.Converge(config, old(View()), attempts)
    {
      hide Model.EnsureRunning;
      out := Done;
      if Held(instance.holds) && instance.state == Stopped {
        out := EnsureRunning(Reconciling, attempts);
      } else if Held(instance.holds) && instance.state == State.Failed && !instance.exhausted {
        if instance.nextRestart.None? || now >= instance.nextRestart.value {
          out := EnsureRunning(Reconciling, attempts);
        }
      }
    }

    /** The holds that mode and intent declare. */
    method Declare()
      modifies this`instance
      ensures View() == DeclaredHolds(old(View()))
    {
      if mode == AlwaysOn {
        instance := instance.(holds := instance.holds[AlwaysOnHold := 1]);
      } else {
        instance := instance.(holds := instance.holds - {AlwaysOnHold});
      }
      if instance.adminIntent {
        instance := instance.(holds := instance.holds[AdminHold := 1]);
      }
    }

    method Reconcile(alive: bool, attempts: seq<Attempt>) returns (out: Outcome)
      modifies this
      ensures Report(out) == Model.Reconcile(config, old(View()), alive, attempts)
      ensures old(Valid()) ==> Valid()
    {
      hide Invariants.Good, Invariants.DistinctJobs;
      ReconcileStaysValid(config, View(), alive, attempts);
      hide Model.Settle, Model.Adopt, Model.Converge, Model.ScheduleIdle, Model.DeclaredHolds;
      Declare();
      :- Settle(alive, attempts);
      if instance.state == State.Failed && alive {
        :- Adopt();
      }
      :- Converge(attempts);
      ScheduleIdle();
      Persist();
      return Done;
    }

    /** A due job is marked as run before it is launched. */
    method RecordLaunch(name: string, at: nat)
      modifies this
      ensures View() == Model.Launch(old(View()), name, at)
    {
      instance := instance.(lastRun := instance.lastRun[name := at]);
      launches := launches[name := Lookup(launches, name).GetOr([]) + [at]];
      Persist();
    }

    /** The loop over the declared jobs. */
    method MarkDue(at: nat) returns (out: Outcome, due: seq<string>)
      modifies this
      ensures Report(out) == Model.MarkDue(config, old(View()), at, 0)
    {
      hide Model.Launch, IsDue;
      due := [];
      var i := 0;
      while i < |config.jobs|
        invariant 0 <= i <= |config.jobs|
        invariant Model.MarkDue(config, View(), at, i) == Model.MarkDue(config, old(View()), at, 0)
      {
        var job := config.jobs[i];
        if job.name !in running {
          match IsDue(job.schedule, at, Lookup(instance.lastRun, job.name)) {
            case Refused => return Thrown(ScheduleError), due;
            case Due(yes) =>
              if yes {
                RecordLaunch(job.name, at);
                due := due + [job.name];
              }
          }
        }
        i := i + 1;
      }
      return Done, due;
    }

    /** The restart whose backoff is over. */
    method RetryFailed(at: nat, attempts: seq<Attempt>) returns (out: Outcome)
      modifies this
      ensures Report(out) == Model.RetryFailed(config, old(View()), at, attempts)
    {
      hide Model.EnsureRunning;
      if instance.state == State.Failed && instance.nextRestart.Some? && at >= instance.nextRestart.value {
        :- EnsureRunning(Recovery, attempts);
        if instance.state == Running {
          DropRecovery();
        }
      }
      return Done;
    }

    /** The per-service part of `tick`; returns the jobs it launches. */
    method TickService(lag: nat, reply: Reply, attempts: seq<Attempt>) returns (out: Outcome, due: seq<string>)
      modifies this
      ensures Report(out) == Model.TickService(config, old(View()), lag, reply, attempts)
      ensures old(Valid()) ==> Valid()
    {
      hide Invariants.Good, Invariants.DistinctJobs;
      TickServiceStaysValid(config, View(), lag, reply, attempts);
      hide Model.StopLocked, Model.RetryFailed, Model.MarkDue;
      due := [];
      var at := if lag <= now then now - lag else 0;
      if instance.idleDeadline.Some? && at >= instance.idleDeadline.value && !Held(instance.holds)
         && instance.state == Running {
        out := StopLocked(IdleTimeout, reply);
        if out.Thrown? {
          return;
        }
      }
      out := RetryFailed(at, attempts);
      if out.Done? {
        out, due := MarkDue(at);
      }
    }
  }
}
