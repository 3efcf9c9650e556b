/** What each locked operation of the lifecycle supervisor does to one service
    (scripts/ubb_supervisor/supervisor.py), as functions from state to state.
    The driver and the clock are arbitrary: their answers are parameters. */
module SupervisorModel {
  import opened Wrappers
  import opened Lifecycle
  import opened Schedule

  type Positive = n: nat | n > 0 witness 1

  datatype Job = Job(name: string, schedule: string, wakeIfStopped: bool, shutdownAfter: bool)

  /** The lifecycle section of a service declaration; `mode` is state, because it can be overridden. */
  datatype Config = Config(
    sharing: Sharing, idleTimeout: nat, startupTimeout: nat, poll: Positive,
    restart: Restart, maxRestarts: nat, window: nat, backoff: nat, jobs: seq<Job>)

  datatype Why =
    | Requested(reason: Hold) | ForSession | ForJob(job: string) | JobDone(job: string) | JobBroke(job: string)
    | StartFailure | StopFailure | RuntimeFailure | Recovery | Reconciling | IdleTimeout

  /** One line of events.jsonl; `held` records whether any hold was active at that moment. */
  datatype Event = Event(before: State, after: State, at: nat, why: Why, held: bool)

  /** Everything the process knows about the service, with three histories no code reads:
      restart grants since the last administrative reset, the number of those resets,
      and the scheduled launches of each job. */
  datatype World = World(
    rec: Record, now: nat, mode: Mode,
    running: set<string>, inFlight: map<string, bool>, nextId: nat,
    journal: seq<Event>, grants: seq<nat>, resets: nat, launches: map<string, seq<nat>>)

  /** The world together with every world whose record was written to the state file, in order. */
  datatype Sys = Sys(w: World, saves: seq<World>)

  /** Normal return, or an exception leaving a state behind; `:-` propagates the exception. */
  datatype Res = Ok(s: Sys) | Raise(s: Sys, e: Error) {
    predicate IsFailure() { Raise? }
    function PropagateFailure(): Res
      requires Raise?
    {
      this
    }
    function Extract(): Sys
      requires Ok?
    {
      s
    }
  }

  // ---------------------------------------------------------------- driver answers

  datatype Reply = Reply(takes: nat, ok: bool)
  datatype Answer = NotYet | IsReady | Broken
  datatype Check = Check(takes: nat, answer: Answer)

  /** The driver's behaviour over one start: the start call, its readiness checks, the cleanup. */
  datatype Attempt = Attempt(start: Reply, checks: nat -> Check, cleanup: nat)

  datatype Waited = Waited(at: nat, error: Option<Error>)

  /** The readiness loop from check `i` on: poll, give up at the deadline, sleep in between. */
  function AwaitReady(poll: Positive, checks: nat -> Check, now: nat, deadline: nat, i: nat): Waited
    decreases if deadline < now then 0 else deadline - now
  {
    var t := now + checks(i).takes;
    match checks(i).answer
    case IsReady => Waited(t, None)
    case Broken => Waited(t, Some(DriverFailed))
    case NotYet =>
      if t >= deadline then Waited(t, Some(ReadinessTimeout))
      else AwaitReady(poll, checks, t + Min(poll, deadline - t), deadline, i + 1)
  }

  /** One start attempt: when it is over and how it failed, if it did. */
  function TryStart(c: Config, now: nat, a: Attempt): Waited {
    var started := now + a.start.takes;
    var waited := if a.start.ok then AwaitReady(c.poll, a.checks, started, started + c.startupTimeout, 0)
                  else Waited(started, Some(DriverFailed));
    if waited.error.None? then waited else waited.(at := waited.at + a.cleanup)
  }

  // ---------------------------------------------------------------- primitive effects

  function Save(s: Sys): Sys { s.(saves := s.saves + [s.w]) }

  function Put(s: Sys, r: Record): Sys { s.(w := s.w.(rec := r)) }

  function At(s: Sys, t: nat): Sys
    requires t >= s.w.now
  {
    s.(w := s.w.(now := t))
  }

  function Later(s: Sys, dt: nat): Sys { s.(w := s.w.(now := s.w.now + dt)) }

  function Transition(s: Sys, to_: State, why: Why): Res {
    var r := s.w.rec;
    if !Legal(r.state, to_) then Raise(s, InvalidTransition)
    else
      var e := Event(r.state, to_, s.w.now, why, Held(r.holds));
      Ok(Save(s.(w := s.w.(rec := r.(state := to_), journal := s.w.journal + [e]))))
  }

  function AddHold(s: Sys, h: Hold): Sys {
    var r := s.w.rec;
    Save(Put(s, r.(holds := r.holds[h := Count(r.holds, h) + 1], idleDeadline := None)))
  }

  function RemoveHold(s: Sys, h: Hold): Sys {
    var r := s.w.rec;
    var n := Count(r.holds, h);
    Save(Put(s, r.(holds := if n <= 1 then r.holds - {h} else r.holds[h := n - 1])))
  }

  function ScheduleIdle(c: Config, s: Sys): Sys {
    var r := s.w.rec;
    if s.w.mode != OnDemand || Held(r.holds) || r.state != Running || r.idleDeadline.Some? then s
    else Save(Put(s, r.(idleDeadline := Some(s.w.now + c.idleTimeout))))
  }

  function MarkFailed(s: Sys, e: Error, why: Why): Res {
    var s1 :- if s.w.rec.state != Failed then Transition(s, Failed, why) else Ok(s);
    Ok(NoteFailure(s1, e))
  }

  function NoteFailure(s: Sys, e: Error): Sys { Save(Put(s, s.w.rec.(lastFailure := Some(e)))) }

  function DropRecovery(s: Sys): Sys {
    Save(Put(s, s.w.rec.(holds := s.w.rec.holds - {RecoveryHold})))
  }

  // ---------------------------------------------------------------- start and recovery

  /** The restart times still inside the window. */
  function Recent(times: seq<nat>, now: nat, window: nat): seq<nat> {
    if times == [] then []
    else (if now <= times[0] + window then [times[0]] else []) + Recent(times[1..], now, window)
  }

  lemma {:induction false} NoneAged(times: seq<nat>, now: nat, window: nat)
    requires forall i | 0 <= i < |times| :: now <= times[i] + window
    ensures Recent(times, now, window) == times
  {
    if times != [] {
      NoneAged(times[1..], now, window);
    }
  }

  function Exhaust(s: Sys, prior: seq<nat>): Sys {
    var r := s.w.rec;
    Save(Put(s, r.(restartTimes := prior, lastFailure := Some(RestartLimit), exhausted := true,
                   nextRestart := None, holds := r.holds - {RecoveryHold})))
  }

  function Grant(c: Config, s: Sys, prior: seq<nat>): Sys {
    var r := s.w.rec;
    Save(s.(w := s.w.(
      rec := r.(restartTimes := prior + [s.w.now], exhausted := false, holds := r.holds[RecoveryHold := 1],
                nextRestart := Some(s.w.now + c.backoff)),
      grants := s.w.grants + [s.w.now])))
  }

  function Started(s: Sys): Sys {
    Save(Put(s, s.w.rec.(lastStart := Some(s.w.now), lastFailure := None, nextRestart := None, exhausted := false)))
  }

  lemma {:induction false} WaitingTakesTime(poll: Positive, checks: nat -> Check, now: nat, deadline: nat, i: nat)
    ensures var r := AwaitReady(poll, checks, now, deadline, i);
            r.at >= now && r.error in {None, Some(DriverFailed), Some(ReadinessTimeout)}
    decreases if deadline < now then 0 else deadline - now
  {
    var t := now + checks(i).takes;
    if checks(i).answer == NotYet && t < deadline {
      WaitingTakesTime(poll, checks, t + Min(poll, deadline - t), deadline, i + 1);
    }
  }

  lemma AttemptTakesTime(c: Config, now: nat, a: Attempt)
    ensures var r := TryStart(c, now, a);
            r.at >= now && r.error in {None, Some(DriverFailed), Some(ReadinessTimeout)}
  {
    var started := now + a.start.takes;
    WaitingTakesTime(c.poll, a.checks, started, started + c.startupTimeout, 0);
  }

  /** `_ensure_running_locked`. `attempts` is the driver's behaviour over the starts this call makes;
      a call that needs more of them than it lists has not returned yet (`Unfinished`). */
  function EnsureRunning(c: Config, s: Sys, why: Why, attempts: seq<Attempt>): Res
    decreases |attempts|, 0
  {
    var state := s.w.rec.state;
    if Active(state) then Ok(s)
    else if state == Starting || state == Stopping then Raise(s, Busy)
    else if attempts == [] then Raise(s, Unfinished)
    else
      var s1 :- Transition(s, Starting, why);
      var a := TryStart(c, s1.w.now, attempts[0]);
      AttemptTakesTime(c, s1.w.now, attempts[0]);
      var s2 := At(s1, a.at);
      match a.error
      case None =>
        var s3 :- Transition(s2, Ready, why);
        var s4 :- Transition(s3, Running, why);
        Ok(Started(s4))
      case Some(e) =>
        var s3 :- MarkFailed(s2, e, StartFailure);
        var s4 :- RestartAfterFailure(c, s3, attempts[1..]);
        if s4.w.rec.state == Failed then Raise(s4, e) else Ok(s4)
  }

  /** `_restart_after_failure_locked`. */
  function RestartAfterFailure(c: Config, s: Sys, attempts: seq<Attempt>): Res
    decreases |attempts|, 1
  {
    if c.restart == Never then Ok(s)
    else
      var prior := Recent(s.w.rec.restartTimes, s.w.now, c.window);
      if |prior| >= c.maxRestarts then Raise(Exhaust(s, prior), RestartLimit)
      else
        var s1 := Grant(c, s, prior);
        if c.backoff != 0 then Ok(s1)
        else
          var s2 :- EnsureRunning(c, s1, Recovery, attempts);
          Ok(if s2.w.rec.state == Running then DropRecovery(s2) else s2)
  }

  /** What an administrative start records before anything else. */
  function Intent(s: Sys, reason: Hold): Sys {
    var r := s.w.rec;
    if reason != AdminHold then s
    else if r.state != Failed then Put(s, r.(adminIntent := true))
    else s.(w := s.w.(rec := r.(adminIntent := true, exhausted := false, restartTimes := []),
                      grants := [], resets := s.w.resets + 1))
  }

  /** `start`. */
  function Start(c: Config, s: Sys, reason: Hold, attempts: seq<Attempt>): Res {
    var s1 := Intent(s, reason);
    var s2 := if Count(s1.w.rec.holds, reason) == 0 then AddHold(s1, reason) else s1;
    EnsureRunning(c, s2, Requested(reason), attempts)
  }

  // ---------------------------------------------------------------- stop

  function StopLocked(s: Sys, why: Why, reply: Reply): Res {
    var state := s.w.rec.state;
    if state == Stopped then Ok(Save(s))
    else if state == Failed then Transition(s, Stopped, why)
    else if !Active(state) then Raise(s, Busy)
    else
      var s1 :- Transition(s, Stopping, why);
      StopDriver(s1, why, reply)
  }

  /** The driver is asked to stop the service, and its answer decides. */
  function StopDriver(s: Sys, why: Why, reply: Reply): Res {
    var s1 := Later(s, reply.takes);
    if reply.ok then
      var s2 :- Transition(s1, Stopped, why);
      Ok(Save(Put(s2, s2.w.rec.(lastStop := Some(s2.w.now), idleDeadline := None))))
    else
      var s2 :- MarkFailed(s1, DriverFailed, StopFailure);
      Raise(s2, DriverFailed)
  }

  /** What `stop` withdraws before the service is touched: the administrator's intent, or with force
      every hold and session. */
  function Withdraw(s: Sys, force: bool, reason: Hold): Sys {
    var r := s.w.rec;
    var r1 := if reason == AdminHold then r.(adminIntent := false, holds := r.holds - {AdminHold}) else r;
    Put(s, if force then r1.(holds := map[], sessions := map[]) else r1)
  }

  /** `stop`. */
  function Stop(s: Sys, force: bool, reason: Hold, reply: Reply): Res {
    var s1 := Withdraw(s, force, reason);
    if Held(s1.w.rec.holds) && !force then Raise(s1, Busy)
    else StopLocked(s1, Requested(reason), reply)
  }

  // ---------------------------------------------------------------- sessions

  /** The new session is number `nextId` of the state before. */
  function Acquire(c: Config, s: Sys, attempts: seq<Attempt>): Res {
    var r := s.w.rec;
    if c.sharing == SingleSession && r.sessions != map[] then Raise(s, Busy)
    else
      var id := s.w.nextId;
      var s1 := s.(w := s.w.(rec := r.(sessions := r.sessions[id := s.w.now]), nextId := id + 1));
      match EnsureRunning(c, AddHold(s1, SessionsHold), ForSession, attempts)
      case Ok(s2) => Ok(s2)
      case Raise(s2, e) =>
        Raise(RemoveHold(Put(s2, s2.w.rec.(sessions := s2.w.rec.sessions - {id})), SessionsHold), e)
  }

  function Release(c: Config, s: Sys, id: nat): Res {
    var r := s.w.rec;
    if id !in r.sessions then Raise(s, UnknownSession)
    else Ok(ScheduleIdle(c, RemoveHold(Put(s, r.(sessions := r.sessions - {id})), SessionsHold)))
  }

  // ---------------------------------------------------------------- failures and maintenance

  function NotifyFailure(c: Config, s: Sys, attempts: seq<Attempt>): Res {
    var s1 :- MarkFailed(s, RuntimeDied, RuntimeFailure);
    RestartAfterFailure(c, s1, attempts)
  }

  function FindJob(jobs: seq<Job>, name: string): (j: Option<Job>)
    ensures j.Some? ==> j.value in jobs && j.value.name == name
    ensures j.None? ==> forall x :: x in jobs ==> x.name != name
  {
    if jobs == [] then None
    else if jobs[0].name == name then Some(jobs[0])
    else FindJob(jobs[1..], name)
  }

  /** The first locked region of `run_maintenance`. What the calling thread remembers
      (was the service active before?) is kept in `inFlight`. */
  function Begin(c: Config, s: Sys, name: string, attempts: seq<Attempt>): Res {
    match FindJob(c.jobs, name)
    case None => Raise(s, UnknownJob)
    case Some(job) =>
      if name in s.w.running then Raise(s, Busy)
      else
        var wasActive := Active(s.w.rec.state);
        if !wasActive && !job.wakeIfStopped then Raise(s, JobForbidden)
        else
          var s1 := AddHold(s.(w := s.w.(running := s.w.running + {name})), MaintenanceHold);
          match Enter(c, s1, name, attempts)
          case Ok(s2) => Ok(s2.(w := s2.w.(inFlight := s2.w.inFlight[name := wasActive])))
          case Raise(s2, e) =>
            var s3 := RemoveHold(s2, MaintenanceHold);
            Raise(s3.(w := s3.w.(running := s3.w.running - {name})), e)
  }

  function Enter(c: Config, s: Sys, name: string, attempts: seq<Attempt>): Res {
    var s1 :- EnsureRunning(c, s, ForJob(name), attempts);
    Transition(s1, Maintenance, ForJob(name))
  }

  /** The second locked region of `run_maintenance`, after the driver ran the job. */
  function Finish(c: Config, s: Sys, name: string, ok: bool, reply: Reply, attempts: seq<Attempt>): Res {
    match FindJob(c.jobs, name)
    case None => Raise(s, UnknownJob)
    case Some(job) =>
      if name !in s.w.inFlight then Raise(s, UnknownJob)
      else
        var r := s.w.rec;
        var wasActive := s.w.inFlight[name];
        var s1 := s.(w := s.w.(inFlight := s.w.inFlight - {name},
                               rec := r.(results := r.results[name := JobResult(s.w.now, ok)],
                                         lastRun := r.lastRun[name := s.w.now])));
        var s2 :- if ok then Transition(s1, Running, JobDone(name)) else MarkFailed(s1, JobFailed, JobBroke(name));
        var s3 := RemoveHold(s2, MaintenanceHold);
        var s4 := s3.(w := s3.w.(running := s3.w.running - {name}));
        if !ok then
          var s5 :- RestartAfterFailure(c, s4, attempts);
          Raise(s5, JobFailed)
        else if !wasActive && job.shutdownAfter && !Held(s4.w.rec.holds) then StopLocked(s4, JobDone(name), reply)
        else Ok(ScheduleIdle(c, s4))
  }

  // ---------------------------------------------------------------- reconcile and tick

  function Adopt(s: Sys): Res {
    var s1 :- Transition(s, Starting, Reconciling);
    var s2 :- Transition(s1, Ready, Reconciling);
    Transition(s2, Running, Reconciling)
  }

  /** The holds declared by configuration and intent, as `_reconcile_locked` reinstates them. */
  function DeclaredHolds(s: Sys): Sys {
    var r := s.w.rec;
    var h := if s.w.mode == AlwaysOn then r.holds[AlwaysOnHold := 1] else r.holds - {AlwaysOnHold};
    Put(s, r.(holds := if r.adminIntent then h[AdminHold := 1] else h))
  }

  /** Bring the recorded state in line with the driver's liveness. */
  function Settle(c: Config, s: Sys, alive: bool, attempts: seq<Attempt>): Res {
    match s.w.rec.state
    case Stopping => Transition(s, if alive then Failed else Stopped, Reconciling)
    case Starting =>
      if alive then
        var s1 :- Transition(s, Ready, Reconciling);
        Transition(s1, Running, Reconciling)
      else ResetStale(s)
    case Ready => if alive then Transition(s, Running, Reconciling) else ResetStale(s)
    case Running => if alive then Ok(s) else Lost(c, s, attempts)
    case Maintenance => if alive then Transition(s, Running, Reconciling) else Lost(c, s, attempts)
    case Stopped => if alive then Adopt(s) else Ok(s)
    case Failed => Ok(s)
  }

  function ResetStale(s: Sys): Res {
    var s1 :- MarkFailed(s, StaleState, Reconciling);
    Transition(s1, Stopped, Reconciling)
  }

  function Lost(c: Config, s: Sys, attempts: seq<Attempt>): Res {
    var s1 :- MarkFailed(s, RuntimeDied, Reconciling);
    if Held(s1.w.rec.holds) then RestartAfterFailure(c, s1, attempts) else Transition(s1, Stopped, Reconciling)
  }

  /** Restart what holds still ask for. */
  function Converge(c: Config, s: Sys, attempts: seq<Attempt>): Res {
    var r := s.w.rec;
    if Held(r.holds) && r.state == Stopped then EnsureRunning(c, s, Reconciling, attempts)
    else if Held(r.holds) && r.state == Failed && !r.exhausted
            && (r.nextRestart.None? || s.w.now >= r.nextRestart.value)
    then EnsureRunning(c, s, Reconciling, attempts)
    else Ok(s)
  }

  /** `_reconcile_locked`. */
  function Reconcile(c: Config, s: Sys, alive: bool, attempts: seq<Attempt>): Res {
    var s1 :- Settle(c, DeclaredHolds(s), alive, attempts);
    var s2 :- if s1.w.rec.state == Failed && alive then Adopt(s1) else Ok(s1);
    var s3 :- Converge(c, s2, attempts);
    Ok(Save(ScheduleIdle(c, s3)))
  }

  /** Mark the jobs that are due at `at`, from job `i` on. */
  function MarkDue(c: Config, s: Sys, at: nat, i: nat): Res
    requires i <= |c.jobs|
    decreases |c.jobs| - i
  {
    if i == |c.jobs| then Ok(s)
    else
      var job := c.jobs[i];
      if job.name in s.w.running then MarkDue(c, s, at, i + 1)
      else
        match IsDue(job.schedule, at, Lookup(s.w.rec.lastRun, job.name))
        case Refused => Raise(s, ScheduleError)
        case Due(due) => MarkDue(c, if due then Launch(s, job.name, at) else s, at, i + 1)
  }

  function Launch(s: Sys, name: string, at: nat): Sys {
    var before := Lookup(s.w.launches, name).GetOr([]);
    Save(s.(w := s.w.(rec := s.w.rec.(lastRun := s.w.rec.lastRun[name := at]),
                      launches := s.w.launches[name := before + [at]])))
  }

  /** The per-service region of `tick`, which runs after its `reconcile`. The tick read the clock
      `lag` before it reached this service. */
  function TickService(c: Config, s: Sys, lag: nat, reply: Reply, attempts: seq<Attempt>): Res {
    var at := if lag <= s.w.now then s.w.now - lag else 0;
    var s1 :- if IdleExpired(s, at) then StopLocked(s, IdleTimeout, reply) else Ok(s);
    var s2 :- RetryFailed(c, s1, at, attempts);
    MarkDue(c, s2, at, 0)
  }

  predicate IdleExpired(s: Sys, at: nat) {
    var r := s.w.rec;
    r.idleDeadline.Some? && at >= r.idleDeadline.value && !Held(r.holds) && r.state == Running
  }

  function RetryFailed(c: Config, s: Sys, at: nat, attempts: seq<Attempt>): Res {
    var r := s.w.rec;
    if r.state == Failed && r.nextRestart.Some? && at >= r.nextRestart.value then
      var s1 :- EnsureRunning(c, s, Recovery, attempts);
      Ok(if s1.w.rec.state == Running then DropRecovery(s1) else s1)
    else Ok(s)
  }

  // ---------------------------------------------------------------- runs

  /** The atomic steps of the supervisor: one per locked region, the passing of time,
      an override of the lifecycle mode, and a crash of the process in the middle of a step. */
  datatype Op =
    | Advance(dt: nat)
    | SetMode(mode: Mode)
    | DoStart(reason: Hold, attempts: seq<Attempt>)
    | DoStop(force: bool, reason: Hold, reply: Reply)
    | DoAcquire(attempts: seq<Attempt>)
    | DoRelease(id: nat)
    | DoNotify(attempts: seq<Attempt>)
    | DoBegin(job: string, attempts: seq<Attempt>)
    | DoFinish(job: string, ok: bool, reply: Reply, attempts: seq<Attempt>)
    | DoReconcile(alive: bool, attempts: seq<Attempt>)
    | DoTick(lag: nat, reply: Reply, attempts: seq<Attempt>)
    | Crash(during: Op, keep: nat, downtime: nat)

  function Step(c: Config, s: Sys, op: Op): Res
    decreases op
  {
    match op
    case Advance(dt) => Ok(Later(s, dt))
    case SetMode(mode) => Ok(s.(w := s.w.(mode := mode)))
    case DoStart(reason, attempts) => Start(c, s, reason, attempts)
    case DoStop(force, reason, reply) => Stop(s, force, reason, reply)
    case DoAcquire(attempts) => Acquire(c, s, attempts)
    case DoRelease(id) => Release(c, s, id)
    case DoNotify(attempts) => NotifyFailure(c, s, attempts)
    case DoBegin(job, attempts) => Begin(c, s, job, attempts)
    case DoFinish(job, ok, reply, attempts) => Finish(c, s, job, ok, reply, attempts)
    case DoReconcile(alive, attempts) => Reconcile(c, s, alive, attempts)
    case DoTick(lag, reply, attempts) => TickService(c, s, lag, reply, attempts)
    case Crash(during, keep, downtime) =>
      var after := Step(c, s, during).s;
      Ok(Reboot(s, after, keep, downtime))
  }

  const BLANK := World(FRESH, 0, OnDemand, {}, map[], 0, [], [], 0, map[])

  /** A new process reads the state file as the last surviving write left it. Of the writes made after
      `s` on the way to `after`, `keep` reached the disk. The mode override has a file of its own;
      session numbers are never reused. */
  function Reboot(s: Sys, after: Sys, keep: nat, downtime: nat): Sys {
    var n := Min(|s.saves| + keep, |after.saves|);
    var disk := if n == 0 then BLANK else after.saves[n - 1];
    var resume := (if disk.now < s.w.now then s.w.now else disk.now) + downtime;
    Sys(disk.(rec := Loaded(Persisted(disk.rec)), now := resume, mode := after.w.mode,
              running := {}, inFlight := map[], nextId := after.w.nextId),
        after.saves[..n])
  }

  function Run(c: Config, s: Sys, ops: seq<Op>): Sys
    decreases |ops|
  {
    if ops == [] then s else Run(c, Step(c, s, ops[0]).s, ops[1..])
  }

  /** A supervisor built over an empty state directory at time `now`. */
  function Init(now: nat, mode: Mode): Sys { Sys(BLANK.(now := now, mode := mode), []) }
}
