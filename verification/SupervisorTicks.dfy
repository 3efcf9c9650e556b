/** What reconciliations and ticks do for a service: its holds, its idle timeout, its retries and its jobs. */
module SupervisorTicks {
  import opened Wrappers
  import opened Lifecycle
  import opened Schedule
  import opened SupervisorModel
  import opened SupervisorFrames
  import opened SupervisorReadiness
  import opened SupervisorConvergence
  import opened SupervisorOutcomes
  import Invariants = SupervisorInvariants

  // ---------------------------------------------------------------- reconciliation

  /** After any reconciliation, whatever it finds and however it ends: the service is held once by its mode if it
      is always on and not at all otherwise, by the administrator who wants it, and as before by anybody else. */
  lemma ReconcileHolds(c: Config, s: Sys, alive: bool, attempts: seq<Attempt>)
    ensures var r := Reconcile(c, s, alive, attempts); var q, t := s.w.rec, r.s.w.rec;
            && Count(t.holds, AlwaysOnHold) == (if s.w.mode == AlwaysOn then 1 else 0)
            && Count(t.holds, AdminHold) == (if q.adminIntent then 1 else Count(q.holds, AdminHold))
            && t.adminIntent == q.adminIntent && t.sessions == q.sessions
            && forall h | h != AlwaysOnHold && h != AdminHold && h != RecoveryHold ::
                 Count(t.holds, h) == Count(q.holds, h)
  {
    var d := DeclaredHolds(s);
    var m := Middle(c, d, alive, attempts).s;
    MiddleOutcome(c, d, alive, attempts);
    forall h | h != RecoveryHold ensures Count(m.w.rec.holds, h) == Count(d.w.rec.holds, h) {
      FrameCounts(d, m, h);
    }
    hide Middle, Settled;
    ReconcileIsMiddle(c, s, alive, attempts);
    SupervisorConvergence.IdleOutcome(c, m);
    hide ScheduleIdle, Reconcile;
  }

  /** A dead service that nobody wants is stopped, unless it has failed and stays so. */
  lemma UnwantedStops(c: Config, s: Sys, attempts: seq<Attempt>)
    requires !Wanted(s)
    ensures var r := Reconcile(c, s, false, attempts);
            r.Ok? && r.s.w.rec.state == if s.w.rec.state == Failed then Failed else Stopped
  {
    WantedIsHeld(s);
    hide Reconcile, Middle, Wanted, Held;
    ReconcileIsMiddle(c, s, false, attempts);
    UnheldPass(c, DeclaredHolds(s), attempts);
    SupervisorConvergence.IdleOutcome(c, Middle(c, DeclaredHolds(s), false, attempts).s);
  }

  // ---------------------------------------------------------------- ticks

  /** Nothing holds the service, and its deadline has come. */
  ghost predicate Expired(s: Sys, at: nat) {
    && (forall h :: Count(s.w.rec.holds, h) == 0)
    && s.w.rec.idleDeadline.Some? && s.w.rec.idleDeadline.value <= at
  }

  /** The restart of a failed service is due. */
  predicate RetryDue(s: Sys, at: nat) {
    s.w.rec.state == Failed && s.w.rec.nextRestart.Some? && s.w.rec.nextRestart.value <= at
  }

  /** A tick stops a running service whose idle deadline has come and which nothing holds. */
  lemma IdleTickStops(c: Config, s: Sys, lag: nat, reply: Reply, attempts: seq<Attempt>)
    requires lag <= s.w.now && s.w.rec.state == Running && Expired(s, s.w.now - lag)
    ensures var r := TickService(c, s, lag, reply, attempts); var t := r.s.w.rec;
            if reply.ok then t.state == Stopped && t.lastStop == Some(s.w.now + reply.takes)
            else r == Raise(r.s, DriverFailed) && t.state == Failed
  {
    hide *;
    var at := s.w.now - lag;
    IdleExpiredIff(s, at);
    RunningIsActive(s.w.rec.state);
    TickUnfolds(c, s, lag, reply, attempts);
    StopLockedOutcome(s, IdleTimeout, reply);
    var s1 := StopLocked(s, IdleTimeout, reply).s;
    RetryOutcome(c, s1, at, attempts);
    RetriesFailed(s1, at);
    MarkDueState(c, s1, at, 0);
  }

  /** A tick starts a failed service whose restart is due, which is then no longer held for recovery. */
  lemma DueTickRestarts(c: Config, s: Sys, lag: nat, reply: Reply, attempts: seq<Attempt>)
    requires lag <= s.w.now && RetryDue(s, s.w.now - lag) && attempts != [] && ComesUp(c, attempts[0])
    ensures var t := TickService(c, s, lag, reply, attempts).s.w.rec;
            t.state == Running && t.holds == s.w.rec.holds - {RecoveryHold} && t.nextRestart == None
  {
    hide *;
    var at := s.w.now - lag;
    IdleExpiredIff(s, at);
    RetriesFailed(s, at);
    TickUnfolds(c, s, lag, reply, attempts);
    RetryOutcome(c, s, at, attempts);
    MarkDueState(c, RetryFailed(c, s, at, attempts).s, at, 0);
  }

  /** In any other case a tick leaves state and holds alone. */
  lemma TickLeaves(c: Config, s: Sys, lag: nat, reply: Reply, attempts: seq<Attempt>)
    requires lag <= s.w.now && !RetryDue(s, s.w.now - lag)
    requires !(s.w.rec.state == Running && Expired(s, s.w.now - lag))
    ensures var t := TickService(c, s, lag, reply, attempts).s.w.rec;
            t.state == s.w.rec.state && t.holds == s.w.rec.holds
  {
    hide *;
    var at := s.w.now - lag;
    IdleExpiredIff(s, at);
    TickUnfolds(c, s, lag, reply, attempts);
    RetryOutcome(c, s, at, attempts);
    MarkDueState(c, s, at, 0);
  }

  lemma RetriesFailed(s: Sys, at: nat)
    ensures RetryDue(s, at) ==> s.w.rec.state == Failed
  {
  }

  /** A reconciliation that finds a running service alive only declares its holds and looks at its deadline. */
  lemma RunningReconcile(c: Config, s: Sys, attempts: seq<Attempt>)
    requires s.w.rec.state == Running
    ensures Reconcile(c, s, true, attempts) == Ok(Save(ScheduleIdle(c, DeclaredHolds(s))))
  {
    hide EnsureRunning, ScheduleIdle;
  }

  /** So a service that is there on demand is stopped by the first tick, with its reconciliation, that comes an idle
      timeout or more after its last session was released. */
  lemma ReleasedServiceStops(c: Config, s: Sys, id: nat, wait: nat, reply: Reply, attempts: seq<Attempt>,
                             more: seq<Attempt>)
    requires s.w.rec.state == Running && s.w.mode == OnDemand && id in s.w.rec.sessions && !s.w.rec.adminIntent
    requires s.w.rec.idleDeadline == None && Count(s.w.rec.holds, SessionsHold) == 1
    requires forall h | h != SessionsHold :: Count(s.w.rec.holds, h) == 0
    requires wait >= c.idleTimeout && reply.ok
    ensures var released := Release(c, s, id).s;
            var reconciled := Reconcile(c, Later(released, wait), true, attempts).s;
            TickService(c, reconciled, 0, reply, more).s.w.rec.state == Stopped
  {
    ReleaseOutcome(c, s, id);
    hide Release, Reconcile, TickService;
    var s1 := Later(Release(c, s, id).s, wait);
    assert forall h :: Count(s1.w.rec.holds, h) == 0;
    ReleaseKeepsMode(c, s, id);
    RunningReconcile(c, s1, attempts);
    DeclaredCounts(s1);
    SupervisorOutcomes.IdleOutcome(c, DeclaredHolds(s1));
    hide ScheduleIdle, DeclaredHolds, Count;
    IdleTickStops(c, Reconcile(c, s1, true, attempts).s, 0, reply, more);
  }

  lemma ReleaseKeepsMode(c: Config, s: Sys, id: nat)
    ensures var t := Release(c, s, id).s;
            t.w.mode == s.w.mode && t.w.now == s.w.now && t.w.rec.adminIntent == s.w.rec.adminIntent
  {
  }

  lemma DeclaredCounts(s: Sys)
    requires s.w.mode == OnDemand && !s.w.rec.adminIntent
    ensures var t := DeclaredHolds(s);
            && t.w == s.w.(rec := s.w.rec.(holds := t.w.rec.holds))
            && forall h :: Count(t.w.rec.holds, h) == if h == AlwaysOnHold then 0 else Count(s.w.rec.holds, h)
  {
  }

  lemma RunningIsActive(state: State)
    ensures state == Running ==> Active(state)
  {
  }

  lemma TickUnfolds(c: Config, s: Sys, lag: nat, reply: Reply, attempts: seq<Attempt>)
    requires lag <= s.w.now
    ensures var at := s.w.now - lag;
            var first := if IdleExpired(s, at) then StopLocked(s, IdleTimeout, reply) else Ok(s);
            var second := RetryFailed(c, first.s, at, attempts);
            TickService(c, s, lag, reply, attempts) ==
              if first.Raise? then first else if second.Raise? then second else MarkDue(c, second.s, at, 0)
  {
    hide IdleExpired, StopLocked, RetryFailed, MarkDue;
  }

  lemma IdleExpiredIff(s: Sys, at: nat)
    ensures IdleExpired(s, at) <==> s.w.rec.state == Running && Expired(s, at)
  {
    var holds := s.w.rec.holds;
    if Held(holds) {
      var h :| h in holds && holds[h] > 0;
      assert Count(holds, h) > 0;
    }
  }

  lemma RetryOutcome(c: Config, s: Sys, at: nat, attempts: seq<Attempt>)
    ensures var r := RetryFailed(c, s, at, attempts); var q, t := s.w.rec, r.s.w.rec;
            && (!RetryDue(s, at) ==> r == Ok(s))
            && (RetryDue(s, at) && attempts != [] && ComesUp(c, attempts[0]) ==>
                  r.Ok? && t.state == Running && t.holds == q.holds - {RecoveryHold} && t.nextRestart == None)
  {
    if s.w.rec.state == Failed && attempts != [] && ComesUp(c, attempts[0]) {
      UpStart(c, s, Recovery, attempts);
    }
    hide EnsureRunning, ComesUp;
  }

  lemma {:induction false} MarkDueState(c: Config, s: Sys, at: nat, i: nat)
    requires i <= |c.jobs|
    ensures var r := MarkDue(c, s, at, i); r.s.w.rec == s.w.rec.(lastRun := r.s.w.rec.lastRun)
    decreases |c.jobs| - i
  {
    hide IsDue;
    if i < |c.jobs| {
      MarkDueState(c, s, at, i + 1);
      MarkDueState(c, Launch(s, c.jobs[i].name, at), at, i + 1);
    }
  }

  // ---------------------------------------------------------------- jobs

  ghost function LaunchesOf(s: Sys, name: string): seq<nat> { Invariants.LaunchesOf(s.w.launches, name) }

  /** Job `k` is not running and it is time for it. */
  ghost predicate JobRipe(c: Config, s: Sys, at: nat, k: nat)
    requires k < |c.jobs|
  {
    var plan := Parse(c.jobs[k].schedule);
    c.jobs[k].name !in s.w.running && plan.Some? && Ripe(plan.value, at, Lookup(s.w.rec.lastRun, c.jobs[k].name))
  }

  /** What the tick does for the name of a job: one launch at its time if `ripe`, and nothing otherwise. */
  ghost predicate Launched(s: Sys, t: Sys, at: nat, name: string, ripe: bool) {
    && LaunchesOf(t, name) == (if ripe then LaunchesOf(s, name) + [at] else LaunchesOf(s, name))
    && Lookup(t.w.rec.lastRun, name) == (if ripe then Some(at) else Lookup(s.w.rec.lastRun, name))
  }

  /** Of the jobs from `i` on, those that are ripe and no others. */
  ghost predicate RipeJob(c: Config, s: Sys, at: nat, i: nat, name: string) {
    exists k: nat | i <= k < |c.jobs| :: c.jobs[k].name == name && JobRipe(c, s, at, k)
  }

  lemma {:induction false} MarkDueLaunches(c: Config, s: Sys, at: nat, i: nat)
    requires i <= |c.jobs| && Invariants.DistinctJobs(c) && MarkDue(c, s, at, i).Ok?
    ensures forall name :: Launched(s, MarkDue(c, s, at, i).s, at, name, RipeJob(c, s, at, i, name))
    decreases |c.jobs| - i
  {
    hide *;
    if i == |c.jobs| {
      NoneLeft(c, s, at);
    } else {
      MarkDueUnfolds(c, s, at, i);
      var job, ripe := c.jobs[i].name, JobRipe(c, s, at, i);
      var s1 := if ripe then Launch(s, job, at) else s;
      MarkDueLaunches(c, s1, at, i + 1);
      forall name ensures Launched(s, MarkDue(c, s, at, i).s, at, name, RipeJob(c, s, at, i, name)) {
        OneLaunch(s, job, at, ripe, name);
        OneRipe(c, s, s1, at, i, name);
        LaunchedOn(s, s1, MarkDue(c, s, at, i).s, at, name, ripe && name == job, RipeJob(c, s1, at, i + 1, name));
      }
    }
  }

  lemma NoneLeft(c: Config, s: Sys, at: nat)
    ensures MarkDue(c, s, at, |c.jobs|) == Ok(s)
    ensures forall name :: Launched(s, s, at, name, RipeJob(c, s, at, |c.jobs|, name))
  {
  }

  lemma MarkDueUnfolds(c: Config, s: Sys, at: nat, i: nat)
    requires i < |c.jobs| && MarkDue(c, s, at, i).Ok?
    ensures MarkDue(c, s, at, i)
         == MarkDue(c, if JobRipe(c, s, at, i) then Launch(s, c.jobs[i].name, at) else s, at, i + 1)
  {
    hide IsDue, Ripe, Parse, Launch;
    DueIffRipe(c.jobs[i].schedule, at, Lookup(s.w.rec.lastRun, c.jobs[i].name));
  }

  lemma OneLaunch(s: Sys, job: string, at: nat, ripe: bool, name: string)
    ensures var t := if ripe then Launch(s, job, at) else s;
            t.w.running == s.w.running && Launched(s, t, at, name, ripe && name == job)
  {
  }

  lemma LaunchedOn(s: Sys, s1: Sys, t: Sys, at: nat, name: string, first: bool, later: bool)
    requires Launched(s, s1, at, name, first) && Launched(s1, t, at, name, later) && !(first && later)
    ensures Launched(s, t, at, name, first || later)
  {
  }

  /** The job at `i` is looked at once, and its launch does not touch what decides on the others. */
  lemma OneRipe(c: Config, s: Sys, s1: Sys, at: nat, i: nat, name: string)
    requires i < |c.jobs| && Invariants.DistinctJobs(c)
    requires s1 == if JobRipe(c, s, at, i) then Launch(s, c.jobs[i].name, at) else s
    ensures var first := JobRipe(c, s, at, i) && name == c.jobs[i].name;
            && (RipeJob(c, s, at, i, name) <==> first || RipeJob(c, s1, at, i + 1, name))
            && !(first && RipeJob(c, s1, at, i + 1, name))
  {
    hide *;
    LaunchOther(s, c.jobs[i].name, at);
    NextRipe(c, s, s1, at, i, name);
    NotTwice(c, s1, at, i);
  }

  lemma LaunchOther(s: Sys, job: string, at: nat)
    ensures var t := Launch(s, job, at);
            && t.w.running == s.w.running
            && forall name | name != job :: Lookup(t.w.rec.lastRun, name) == Lookup(s.w.rec.lastRun, name)
  {
  }

  lemma NotTwice(c: Config, s: Sys, at: nat, i: nat)
    requires i < |c.jobs| && Invariants.DistinctJobs(c)
    ensures !RipeJob(c, s, at, i + 1, c.jobs[i].name)
  {
    hide JobRipe;
  }

  lemma NextRipe(c: Config, s: Sys, s1: Sys, at: nat, i: nat, name: string)
    requires i < |c.jobs| && Invariants.DistinctJobs(c) && s1.w.running == s.w.running
    requires forall n | n != c.jobs[i].name :: Lookup(s1.w.rec.lastRun, n) == Lookup(s.w.rec.lastRun, n)
    ensures RipeJob(c, s, at, i, name) <==>
              RipeJob(c, s1, at, i + 1, name) || (name == c.jobs[i].name && JobRipe(c, s, at, i))
  {
    hide Ripe, Parse;
    forall k: nat | i < k < |c.jobs| ensures JobRipe(c, s, at, k) <==> JobRipe(c, s1, at, k) {
      assert c.jobs[k].name != c.jobs[i].name;
    }
    hide JobRipe;
    if k: nat :| i <= k < |c.jobs| && c.jobs[k].name == name && JobRipe(c, s, at, k) {
      if k > i {
        assert JobRipe(c, s1, at, k);
      }
    }
    if k: nat :| i + 1 <= k < |c.jobs| && c.jobs[k].name == name && JobRipe(c, s1, at, k) {
      assert JobRipe(c, s, at, k);
    }
  }

  /** A tick that does not raise launches exactly the jobs that are not running and for which it is time, once,
      and marks them as run; of all others it keeps launches and last runs. */
  lemma TickLaunches(c: Config, s: Sys, lag: nat, reply: Reply, attempts: seq<Attempt>, name: string)
    requires lag <= s.w.now && Invariants.DistinctJobs(c) && TickService(c, s, lag, reply, attempts).Ok?
    ensures Launched(s, TickService(c, s, lag, reply, attempts).s, s.w.now - lag, name,
                     RipeJob(c, s, s.w.now - lag, 0, name))
  {
    hide *;
    var at := s.w.now - lag;
    TickUnfolds(c, s, lag, reply, attempts);
    var s1 := (if IdleExpired(s, at) then StopLocked(s, IdleTimeout, reply) else Ok(s)).s;
    StopKeepsRuns(s, IdleTimeout, reply);
    var s2 := RetryFailed(c, s1, at, attempts).s;
    RetryKeepsRuns(c, s1, at, attempts);
    SameRunsLaunch(c, s, s1, at, name);
    SameRunsLaunch(c, s1, s2, at, name);
    MarkDueLaunches(c, s2, at, 0);
    SameLaunched(s, s1, s2, MarkDue(c, s2, at, 0).s, at, name, RipeJob(c, s2, at, 0, name));
  }

  predicate SameRuns(s: Sys, t: Sys) {
    t.w.running == s.w.running && t.w.launches == s.w.launches && t.w.rec.lastRun == s.w.rec.lastRun
  }

  lemma SameRunsLaunch(c: Config, s: Sys, t: Sys, at: nat, name: string)
    ensures SameRuns(s, s)
    ensures SameRuns(s, t) ==> (RipeJob(c, s, at, 0, name) <==> RipeJob(c, t, at, 0, name))
  {
    hide Ripe, Parse;
    if SameRuns(s, t) {
      assert forall k: nat | k < |c.jobs| :: JobRipe(c, s, at, k) <==> JobRipe(c, t, at, k);
    }
    hide JobRipe;
  }

  lemma SameLaunched(s: Sys, s1: Sys, s2: Sys, t: Sys, at: nat, name: string, ripe: bool)
    requires SameRuns(s, s1) && SameRuns(s1, s2) && Launched(s2, t, at, name, ripe)
    ensures Launched(s, t, at, name, ripe)
  {
  }

  lemma StopKeepsRuns(s: Sys, why: Why, reply: Reply)
    ensures SameRuns(s, StopLocked(s, why, reply).s)
  {
    var s1 := Transition(s, Stopping, why).s;
    DriverKeepsRuns(s1, why, reply);
    hide StopDriver;
  }

  lemma DriverKeepsRuns(s: Sys, why: Why, reply: Reply)
    ensures SameRuns(s, StopDriver(s, why, reply).s)
  {
  }

  lemma RetryKeepsRuns(c: Config, s: Sys, at: nat, attempts: seq<Attempt>)
    ensures SameRuns(s, RetryFailed(c, s, at, attempts).s)
  {
    EnsureFrame(c, s, Recovery, attempts);
    hide EnsureRunning;
  }
}
