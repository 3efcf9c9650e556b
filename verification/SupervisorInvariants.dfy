/** Bookkeeping, the restart window, schedules and idle stops, over every run of the supervisor. */
module SupervisorInvariants {
  import opened Wrappers
  import opened Lifecycle
  import opened Schedule
  import opened SupervisorModel
  import opened SupervisorFrames

  // ---------------------------------------------------------------- what holds of one world

  /** Every hold count is positive, the session hold counts the sessions, and a single-session
      service has at most one. */
  ghost predicate Booked(c: Config, holds: Holds, sessions: map<nat, nat>, nextId: nat) {
    && (forall k | k in holds :: holds[k] > 0)
    && Count(holds, SessionsHold) == |sessions|
    && (c.sharing == SingleSession ==> |sessions| <= 1)
    && (forall id | id in sessions :: id < nextId)
  }

  /** The stored restart times are the tail of all grants; whatever was dropped is older than the
      window, and more than `maxRestarts` grants never fit in one window. */
  ghost predicate Windowed(c: Config, grants: seq<nat>, times: seq<nat>, now: nat) {
    && |times| <= |grants|
    && times == grants[|grants| - |times|..]
    && (forall i | 0 <= i < |grants| - |times| :: grants[i] + c.window < now)
    && (forall i | 0 <= i < |grants| :: grants[i] <= now)
    && (forall i, j | 0 <= i < j < |grants| :: grants[i] <= grants[j])
    && (forall i, j | 0 <= i && j == i + c.maxRestarts && j < |grants| :: grants[i] + c.window < grants[j])
  }

  /** A transition of a stop: into STOPPING, or straight from FAILED to STOPPED. Reconciliation resets
      dead services to STOPPED whether they are held or not, and starts them again. */
  predicate Stops(after: State, why: Why) { after == Stopping || (after == Stopped && why != Reconciling) }

  /** Only legal transitions happen, and nothing is stopped while a hold is active. */
  ghost predicate Journaled(journal: seq<Event>) {
    forall i | 0 <= i < |journal| ::
      Legal(journal[i].before, journal[i].after) && (Stops(journal[i].after, journal[i].why) ==> !journal[i].held)
  }

  ghost predicate Spread(plan: Option<Plan>, launched: seq<nat>, last: Option<nat>, now: nat) {
    launched == [] ||
    (&& plan.Some? && last.Some? && launched[|launched| - 1] <= last.value && launched[|launched| - 1] <= now
     && (forall i | 0 < i < |launched| :: Apart(plan.value, launched[i - 1], launched[i]))
     && (forall i | 0 <= i < |launched| :: NotEarly(plan.value, launched[i])))
  }

  ghost function LaunchesOf(launches: map<string, seq<nat>>, name: string): seq<nat> {
    Lookup(launches, name).GetOr([])
  }

  ghost predicate Launched(c: Config, launches: map<string, seq<nat>>, lastRun: map<string, nat>, now: nat) {
    forall i | 0 <= i < |c.jobs| ::
      Spread(Parse(c.jobs[i].schedule), LaunchesOf(launches, c.jobs[i].name), Lookup(lastRun, c.jobs[i].name), now)
  }

  ghost predicate Fine(c: Config, w: World) {
    && Booked(c, w.rec.holds, w.rec.sessions, w.nextId)
    && Windowed(c, w.grants, w.rec.restartTimes, w.now)
    && Journaled(w.journal)
    && Launched(c, w.launches, w.rec.lastRun, w.now)
  }

  /** `_validate_jobs`: names are unique. */
  ghost predicate DistinctJobs(c: Config) {
    forall i, j | 0 <= i < j < |c.jobs| :: c.jobs[i].name != c.jobs[j].name
  }

  // ---------------------------------------------------------------- what holds of a history

  /** A session or a maintenance job keeps the service in use. */
  ghost predicate InUse(w: World) {
    Count(w.rec.holds, SessionsHold) > 0 || Count(w.rec.holds, MaintenanceHold) > 0
  }

  /** Every use seen in the file before an idle deadline ended, at the next write, a full idle timeout
      before that deadline. */
  ghost predicate Quiet(c: Config, saves: seq<World>, w: World) {
    w.rec.idleDeadline.Some? ==>
      !InUse(w) &&
      forall i | 0 <= i < |saves| && InUse(saves[i]) ::
        i + 1 < |saves| && saves[i + 1].now + c.idleTimeout <= w.rec.idleDeadline.value
  }

  ghost predicate InOrder(saves: seq<World>, now: nat) {
    && (forall i, j | 0 <= i < j < |saves| :: saves[i].now <= saves[j].now)
    && (forall i | 0 <= i < |saves| :: saves[i].now <= now)
  }

  ghost predicate Good(c: Config, s: Sys) {
    && Fine(c, s.w)
    && Quiet(c, s.saves, s.w)
    && InOrder(s.saves, s.w.now)
    && (forall i | 0 <= i < |s.saves| :: Fine(c, s.saves[i]) && Quiet(c, s.saves[..i + 1], s.saves[i]))
  }

  // ---------------------------------------------------------------- preservation, write by write

  /** How an idle deadline may change: not at all, away, or to a fresh one; never while in use. */
  ghost predicate Calm(c: Config, w: World, w': World) {
    && w.now <= w'.now
    && (w'.rec.idleDeadline.Some? ==> !InUse(w'))
    && (w'.rec.idleDeadline == w.rec.idleDeadline || w'.rec.idleDeadline == None
        || w'.rec.idleDeadline == Some(w'.now + c.idleTimeout))
  }

  lemma SaveKeeps(c: Config, s: Sys, w': World)
    requires Good(c, s) && Fine(c, w') && Calm(c, s.w, w')
    ensures Good(c, Save(s.(w := w')))
  {
    hide Fine;
    var t := Save(s.(w := w'));
    forall i | 0 <= i < |t.saves|
      ensures Fine(c, t.saves[i]) && Quiet(c, t.saves[..i + 1], t.saves[i])
    {
      if i < |s.saves| {
        assert t.saves[..i + 1] == s.saves[..i + 1];
      } else {
        assert t.saves[..i + 1] == t.saves;
        assert Quiet(c, t.saves, w');
      }
    }
  }

  lemma PutKeeps(c: Config, s: Sys, w': World)
    requires Good(c, s) && Fine(c, w') && Calm(c, s.w, w')
    requires w'.rec.idleDeadline == s.w.rec.idleDeadline || w'.rec.idleDeadline == None
    ensures Good(c, s.(w := w'))
  {
  }

  lemma TimePasses(c: Config, s: Sys, t: nat)
    requires Good(c, s) && t >= s.w.now
    ensures Good(c, At(s, t))
  {
    PutKeeps(c, s, s.w.(now := t));
  }

  lemma TransitionKeeps(c: Config, s: Sys, to_: State, why: Why)
    requires Good(c, s) && (Stops(to_, why) ==> !Held(s.w.rec.holds))
    ensures Good(c, Transition(s, to_, why).s)
  {
    var r := Transition(s, to_, why);
    if r.Ok? {
      SaveKeeps(c, s, r.s.w);
    }
  }

  lemma AddHoldKeeps(c: Config, s: Sys, h: Hold)
    requires Good(c, s) && h != SessionsHold
    ensures Good(c, AddHold(s, h))
  {
    SaveKeeps(c, s, AddHold(s, h).w);
  }

  lemma RemoveHoldKeeps(c: Config, s: Sys, h: Hold)
    requires Good(c, s) && h != SessionsHold
    ensures Good(c, RemoveHold(s, h))
  {
    SaveKeeps(c, s, RemoveHold(s, h).w);
  }

  lemma ScheduleIdleKeeps(c: Config, s: Sys)
    requires Good(c, s)
    ensures Good(c, ScheduleIdle(c, s))
  {
    hide Booked, Windowed, Journaled, Launched, InOrder;
    if ScheduleIdle(c, s) != s {
      SaveKeeps(c, s, ScheduleIdle(c, s).w);
    }
  }

  lemma MarkFailedKeeps(c: Config, s: Sys, e: Error, why: Why)
    requires Good(c, s)
    ensures Good(c, MarkFailed(s, e, why).s)
  {
    hide Good;
    TransitionKeeps(c, s, Failed, why);
    var s1 := if s.w.rec.state != Failed then Transition(s, Failed, why) else Ok(s);
    NoteFailureKeeps(c, s1.s, e);
  }

  lemma NoteFailureKeeps(c: Config, s: Sys, e: Error)
    requires Good(c, s)
    ensures Good(c, NoteFailure(s, e))
  {
    SaveKeeps(c, s, NoteFailure(s, e).w);
  }

  lemma StartedKeeps(c: Config, s: Sys)
    requires Good(c, s)
    ensures Good(c, Started(s))
  {
    SaveKeeps(c, s, Started(s).w);
  }

  lemma DropRecoveryKeeps(c: Config, s: Sys)
    requires Good(c, s)
    ensures Good(c, DropRecovery(s))
  {
    SaveKeeps(c, s, DropRecovery(s).w);
  }

  // ---------------------------------------------------------------- the restart window

  /** `recent` is the tail of `times` that is young enough. */
  ghost predicate YoungTail(times: seq<nat>, recent: seq<nat>, now: nat, window: nat) {
    |recent| <= |times| &&
    var m := |times| - |recent|;
    && recent == times[m..]
    && (forall i | 0 <= i < m :: times[i] + window < now)
    && (forall i | m <= i < |times| :: now <= times[i] + window)
  }

  /** Filtering an ordered list by age keeps exactly its tail. */
  lemma {:induction false} RecentIsTail(times: seq<nat>, now: nat, window: nat)
    requires NonDecreasing(times)
    ensures YoungTail(times, Recent(times, now, window), now, window)
  {
    hide YoungTail;
    if times == [] || now <= times[0] + window {
      NoneAged(times, now, window);
      hide Recent;
      WholeIsYoung(times, now, window);
    } else {
      assert [] + Recent(times[1..], now, window) == Recent(times[1..], now, window);
      assert Recent(times, now, window) == Recent(times[1..], now, window);
      hide Recent;
      RecentIsTail(times[1..], now, window);
      OneFurther(times, Recent(times[1..], now, window), now, window);
    }
  }

  lemma WholeIsYoung(times: seq<nat>, now: nat, window: nat)
    requires NonDecreasing(times) && (times == [] || now <= times[0] + window)
    ensures YoungTail(times, times, now, window)
  {
  }

  lemma OneFurther(times: seq<nat>, recent: seq<nat>, now: nat, window: nat)
    requires times != [] && times[0] + window < now && YoungTail(times[1..], recent, now, window)
    ensures YoungTail(times, recent, now, window)
  {
    forall i | 0 < i < |times| ensures times[i] == times[1..][i - 1] {
    }
  }

  lemma TailIsWindowed(c: Config, grants: seq<nat>, times: seq<nat>, now: nat)
    requires Windowed(c, grants, times, now)
    ensures var k := |grants| - |Recent(times, now, c.window)|;
            && 0 <= k && Recent(times, now, c.window) == grants[k..]
            && (forall i | 0 <= i < k :: grants[i] + c.window < now)
  {
    hide Recent;
    RecentIsTail(times, now, c.window);
    TailOfTail(c, grants, times, Recent(times, now, c.window), now);
    hide Windowed, YoungTail;
  }

  lemma TailOfTail(c: Config, grants: seq<nat>, times: seq<nat>, recent: seq<nat>, now: nat)
    requires Windowed(c, grants, times, now) && YoungTail(times, recent, now, c.window)
    ensures |recent| <= |grants| && recent == grants[|grants| - |recent|..]
    ensures forall i | 0 <= i < |grants| - |recent| :: grants[i] + c.window < now
  {
    var k, m := |grants| - |times|, |times| - |recent|;
    assert forall i | 0 <= i < |times| :: times[i] == grants[k + i];
    assert forall i | 0 <= i < |recent| :: recent[i] == times[m + i];
    assert forall i | 0 <= i < k :: grants[i] + c.window < now;
    assert forall i | 0 <= i < m :: times[i] + c.window < now;
    hide Windowed, YoungTail;
    forall i | 0 <= i < |recent| ensures recent[i] == grants[k + m + i] {
      assert recent[i] == times[m + i];
    }
    forall i | 0 <= i < k + m ensures grants[i] + c.window < now {
      if i >= k {
        assert grants[i] == times[i - k];
      }
    }
  }

  /** A granted restart keeps the window bound, because every older grant that counts is in `prior`. */
  lemma GrantIsWindowed(c: Config, grants: seq<nat>, times: seq<nat>, now: nat)
    requires Windowed(c, grants, times, now)
    requires |Recent(times, now, c.window)| < c.maxRestarts
    ensures Windowed(c, grants + [now], Recent(times, now, c.window) + [now], now)
  {
    TailIsWindowed(c, grants, times, now);
    hide Recent;
    AppendedIsWindowed(c, grants, times, Recent(times, now, c.window), now);
    hide Windowed;
  }

  lemma AppendedIsWindowed(c: Config, grants: seq<nat>, times: seq<nat>, prior: seq<nat>, now: nat)
    requires Windowed(c, grants, times, now) && |prior| < c.maxRestarts && |prior| <= |grants|
    requires prior == grants[|grants| - |prior|..]
             && forall i | 0 <= i < |grants| - |prior| :: grants[i] + c.window < now
    ensures Windowed(c, grants + [now], prior + [now], now)
  {
    var grants' := grants + [now];
    assert prior + [now] == grants'[|grants| - |prior|..];
    forall i, j | 0 <= i && j == i + c.maxRestarts && j < |grants'|
      ensures grants'[i] + c.window < grants'[j]
    {
      assert j == |grants| ==> i < |grants| - |prior|;
      assert j < |grants| ==> grants[i] + c.window < grants[j];
    }
  }

  lemma ExhaustKeeps(c: Config, s: Sys)
    requires Good(c, s)
    ensures Good(c, Exhaust(s, Recent(s.w.rec.restartTimes, s.w.now, c.window)))
  {
    hide Journaled, Launched, Recent, InOrder;
    ExhaustIsWindowed(c, s.w.grants, s.w.rec.restartTimes, s.w.now);
    hide Windowed;
    SaveKeeps(c, s, Exhaust(s, Recent(s.w.rec.restartTimes, s.w.now, c.window)).w);
  }

  lemma ExhaustIsWindowed(c: Config, grants: seq<nat>, times: seq<nat>, now: nat)
    requires Windowed(c, grants, times, now)
    ensures Windowed(c, grants, Recent(times, now, c.window), now)
  {
    TailIsWindowed(c, grants, times, now);
    hide Recent;
  }

  lemma GrantKeeps(c: Config, s: Sys)
    requires Good(c, s) && |Recent(s.w.rec.restartTimes, s.w.now, c.window)| < c.maxRestarts
    ensures Good(c, Grant(c, s, Recent(s.w.rec.restartTimes, s.w.now, c.window)))
  {
    hide Windowed, Journaled, Launched, Recent, InOrder;
    GrantIsWindowed(c, s.w.grants, s.w.rec.restartTimes, s.w.now);
    SaveKeeps(c, s, Grant(c, s, Recent(s.w.rec.restartTimes, s.w.now, c.window)).w);
  }

  lemma {:induction false} EnsureKeeps(c: Config, s: Sys, why: Why, attempts: seq<Attempt>)
    requires Good(c, s)
    ensures Good(c, EnsureRunning(c, s, why, attempts).s)
    decreases |attempts|, 0
  {
    hide Good;
    var state := s.w.rec.state;
    if !Active(state) && state != Starting && state != Stopping && attempts != [] {
      hide EnsureRunning, RestartAfterFailure, TryStart, Transition, MarkFailed, Started;
      EnsureUnfolds(c, s, why, attempts);
      TransitionKeeps(c, s, Starting, why);
      var s1 := Transition(s, Starting, why).s;
      AttemptTakesTime(c, s1.w.now, attempts[0]);
      var a := TryStart(c, s1.w.now, attempts[0]);
      TimePasses(c, s1, a.at);
      var s2 := At(s1, a.at);
      match a.error {
        case None => SuccessKeeps(c, s2, why);
        case Some(e) =>
          MarkFailedKeeps(c, s2, e, StartFailure);
          RestartKeeps(c, MarkFailed(s2, e, StartFailure).s, attempts[1..]);
      }
    }
  }

  lemma SuccessKeeps(c: Config, s: Sys, why: Why)
    requires Good(c, s)
    ensures Good(c, Started(Transition(Transition(s, Ready, why).s, Running, why).s))
  {
    hide Good, Transition, Started;
    TransitionKeeps(c, s, Ready, why);
    var s1 := Transition(s, Ready, why).s;
    TransitionKeeps(c, s1, Running, why);
    StartedKeeps(c, Transition(s1, Running, why).s);
  }

  lemma {:induction false} RestartKeeps(c: Config, s: Sys, attempts: seq<Attempt>)
    requires Good(c, s)
    ensures Good(c, RestartAfterFailure(c, s, attempts).s)
    decreases |attempts|, 1
  {
    hide Good;
    var prior := Recent(s.w.rec.restartTimes, s.w.now, c.window);
    if |prior| >= c.maxRestarts {
      ExhaustKeeps(c, s);
    } else {
      GrantKeeps(c, s);
      var s1 := Grant(c, s, prior);
      if c.restart != Never && c.backoff == 0 {
        EnsureKeeps(c, s1, Recovery, attempts);
        DropRecoveryKeeps(c, EnsureRunning(c, s1, Recovery, attempts).s);
      }
    }
  }

  // ---------------------------------------------------------------- operation by operation

  /** Runs of public operations: nobody starts a service under the reserved reason `sessions`. */
  ghost predicate Public(op: Op) {
    match op
    case DoStart(reason, _) => reason != SessionsHold
    case Crash(during, _, _) => Public(during)
    case _ => true
  }

  lemma StartKeeps(c: Config, s: Sys, reason: Hold, attempts: seq<Attempt>)
    requires Good(c, s) && reason != SessionsHold
    ensures Good(c, Start(c, s, reason, attempts).s)
  {
    hide Good, Intent, AddHold, EnsureRunning;
    IntentKeeps(c, s, reason);
    var s1 := Intent(s, reason);
    AddHoldKeeps(c, s1, reason);
    var s2 := if Count(s1.w.rec.holds, reason) == 0 then AddHold(s1, reason) else s1;
    EnsureKeeps(c, s2, Requested(reason), attempts);
  }

  lemma IntentKeeps(c: Config, s: Sys, reason: Hold)
    requires Good(c, s)
    ensures Good(c, Intent(s, reason))
  {
    hide Good;
    if reason == AdminHold {
      if s.w.rec.state == Failed {
        ForgetKeeps(c, s);
      } else {
        IntendKeeps(c, s);
      }
    }
  }

  lemma IntendKeeps(c: Config, s: Sys)
    requires Good(c, s)
    ensures Good(c, Put(s, s.w.rec.(adminIntent := true)))
  {
    hide Booked, Windowed, Journaled, Launched, InOrder;
    PutKeeps(c, s, s.w.(rec := s.w.rec.(adminIntent := true)));
  }

  /** An administrative start out of FAILED starts a new history of grants. */
  lemma ForgetKeeps(c: Config, s: Sys)
    requires Good(c, s)
    ensures Good(c, s.(w := s.w.(rec := s.w.rec.(adminIntent := true, exhausted := false, restartTimes := []),
                                 grants := [], resets := s.w.resets + 1)))
  {
    hide Booked, Journaled, Launched, InOrder;
    assert Windowed(c, [], [], s.w.now);
    hide Windowed;
    PutKeeps(c, s, s.w.(rec := s.w.rec.(adminIntent := true, exhausted := false, restartTimes := []),
                        grants := [], resets := s.w.resets + 1));
  }

  lemma StopLockedKeeps(c: Config, s: Sys, why: Why, reply: Reply)
    requires Good(c, s) && !Held(s.w.rec.holds)
    ensures Good(c, StopLocked(s, why, reply).s)
  {
    var state := s.w.rec.state;
    if state == Stopped {
      SaveKeeps(c, s, s.w);
    } else if state == Failed {
      TransitionKeeps(c, s, Stopped, why);
    } else if Active(state) {
      ActiveStopKeeps(c, s, why, reply);
    }
  }

  lemma ActiveStopKeeps(c: Config, s: Sys, why: Why, reply: Reply)
    requires Good(c, s) && !Held(s.w.rec.holds) && Active(s.w.rec.state)
    ensures Good(c, StopLocked(s, why, reply).s)
  {
    hide Good, Held, MarkFailed;
    MarkFailedKeepsAll(c);
    var s1 := Transition(s, Stopping, why).s;
    var s2 := Later(s1, reply.takes);
    var s3 := Transition(s2, Stopped, why).s;
    StopUnfolds(s, why, reply);
    hide StopLocked, Transition;
    TransitionKeeps(c, s, Stopping, why);
    TimePasses(c, s1, s1.w.now + reply.takes);
    TransitionKeeps(c, s2, Stopped, why);
    StoppedKeeps(c, s3);
  }

  /** What a stop of an active service comes to. */
  lemma StopUnfolds(s: Sys, why: Why, reply: Reply)
    requires Active(s.w.rec.state)
    ensures var s1 := Transition(s, Stopping, why).s;
            var s2 := Later(s1, reply.takes);
            var s3 := Transition(s2, Stopped, why).s;
            && s1.w.rec.state == Stopping && s1.w.rec.holds == s.w.rec.holds
            && StopLocked(s, why, reply).s ==
                 if reply.ok then Save(Put(s3, s3.w.rec.(lastStop := Some(s3.w.now), idleDeadline := None)))
                 else MarkFailed(s2, DriverFailed, StopFailure).s
  {
    hide MarkFailed;
  }

  lemma MarkFailedKeepsAll(c: Config)
    ensures forall s: Sys, e: Error, why: Why :: Good(c, s) ==> Good(c, MarkFailed(s, e, why).s)
  {
    hide Good, MarkFailed;
    forall s: Sys, e: Error, why: Why | Good(c, s) ensures Good(c, MarkFailed(s, e, why).s) {
      MarkFailedKeeps(c, s, e, why);
    }
  }

  lemma StoppedKeeps(c: Config, s: Sys)
    requires Good(c, s)
    ensures Good(c, Save(Put(s, s.w.rec.(lastStop := Some(s.w.now), idleDeadline := None))))
  {
    SaveKeeps(c, s, s.w.(rec := s.w.rec.(lastStop := Some(s.w.now), idleDeadline := None)));
  }

  lemma StopKeeps(c: Config, s: Sys, force: bool, reason: Hold, reply: Reply)
    requires Good(c, s)
    ensures Good(c, Stop(s, force, reason, reply).s)
  {
    var s1 := Withdraw(s, force, reason);
    PutKeeps(c, s, s1.w);
    hide Good, StopLocked;
    if force || !Held(s1.w.rec.holds) {
      StopLockedKeeps(c, s1, Requested(reason), reply);
    }
  }

  lemma AcquireKeeps(c: Config, s: Sys, attempts: seq<Attempt>)
    requires Good(c, s)
    ensures Good(c, Acquire(c, s, attempts).s)
  {
    hide Good, Booked, AddHold, RemoveHold, EnsureRunning;
    var r := s.w.rec;
    if !(c.sharing == SingleSession && r.sessions != map[]) {
      var id := s.w.nextId;
      var s1 := s.(w := s.w.(rec := r.(sessions := r.sessions[id := s.w.now]), nextId := id + 1));
      var s2 := AddHold(s1, SessionsHold);
      NewSessionKeeps(c, s);
      EnsureKeeps(c, s2, ForSession, attempts);
      EnsureFrame(c, s2, ForSession, attempts);
      assert s2.w.rec.sessions == s1.w.rec.sessions by {
        AddHoldShape(s1, SessionsHold);
      }
      var s3 := EnsureRunning(c, s2, ForSession, attempts).s;
      DropSessionKeeps(c, s3, id);
    }
  }

  lemma AddHoldShape(s: Sys, h: Hold)
    ensures AddHold(s, h).w.rec.sessions == s.w.rec.sessions
  {
  }

  lemma NewSessionKeeps(c: Config, s: Sys)
    requires Good(c, s) && (c.sharing == SingleSession ==> s.w.rec.sessions == map[])
    ensures var w := s.w.(rec := s.w.rec.(sessions := s.w.rec.sessions[s.w.nextId := s.w.now]),
                          nextId := s.w.nextId + 1);
            Good(c, AddHold(s.(w := w), SessionsHold))
  {
    var w := s.w.(rec := s.w.rec.(sessions := s.w.rec.sessions[s.w.nextId := s.w.now]), nextId := s.w.nextId + 1);
    SaveKeeps(c, s, AddHold(s.(w := w), SessionsHold).w);
  }

  lemma DropSessionKeeps(c: Config, s: Sys, id: nat)
    requires Good(c, s) && id in s.w.rec.sessions
    ensures Good(c, RemoveHold(Put(s, s.w.rec.(sessions := s.w.rec.sessions - {id})), SessionsHold))
  {
    var sessions := s.w.rec.sessions;
    assert |sessions - {id}| == |sessions| - 1 by {
      assert (sessions - {id}).Keys == sessions.Keys - {id};
      assert |sessions.Keys| == |sessions|;
    }
    SaveKeeps(c, s, RemoveHold(Put(s, s.w.rec.(sessions := sessions - {id})), SessionsHold).w);
  }

  lemma ReleaseKeeps(c: Config, s: Sys, id: nat)
    requires Good(c, s)
    ensures Good(c, Release(c, s, id).s)
  {
    hide Good;
    if id in s.w.rec.sessions {
      DropSessionKeeps(c, s, id);
      ScheduleIdleKeeps(c, RemoveHold(Put(s, s.w.rec.(sessions := s.w.rec.sessions - {id})), SessionsHold));
    }
  }

  lemma NotifyKeeps(c: Config, s: Sys, attempts: seq<Attempt>)
    requires Good(c, s)
    ensures Good(c, NotifyFailure(c, s, attempts).s)
  {
    hide Good;
    MarkFailedKeeps(c, s, RuntimeDied, RuntimeFailure);
    RestartKeeps(c, MarkFailed(s, RuntimeDied, RuntimeFailure).s, attempts);
  }

  /** Job bookkeeping held only in memory. */
  lemma MemoryKeeps(c: Config, s: Sys, running: set<string>, inFlight: map<string, bool>)
    requires Good(c, s)
    ensures Good(c, s.(w := s.w.(running := running, inFlight := inFlight)))
  {
    PutKeeps(c, s, s.w.(running := running, inFlight := inFlight));
  }

  lemma BeginKeeps(c: Config, s: Sys, name: string, attempts: seq<Attempt>)
    requires Good(c, s)
    ensures Good(c, Begin(c, s, name, attempts).s)
  {
    hide Good, EnsureRunning, RestartAfterFailure;
    var s0 := s.(w := s.w.(running := s.w.running + {name}));
    MemoryKeeps(c, s, s0.w.running, s.w.inFlight);
    var s1 := AddHold(s0, MaintenanceHold);
    AddHoldKeeps(c, s0, MaintenanceHold);
    EnsureKeeps(c, s1, ForJob(name), attempts);
    TransitionKeeps(c, EnsureRunning(c, s1, ForJob(name), attempts).s, Maintenance, ForJob(name));
    var s2 := Enter(c, s1, name, attempts).s;
    MemoryKeeps(c, s2, s2.w.running, s2.w.inFlight[name := Active(s.w.rec.state)]);
    RemoveHoldKeeps(c, s2, MaintenanceHold);
    var s3 := RemoveHold(s2, MaintenanceHold);
    MemoryKeeps(c, s3, s3.w.running - {name}, s3.w.inFlight);
  }

  lemma RecordKeeps(c: Config, s: Sys, name: string, ok: bool)
    requires Good(c, s)
    ensures var r := s.w.rec;
            Good(c, s.(w := s.w.(inFlight := s.w.inFlight - {name},
                                 rec := r.(results := r.results[name := JobResult(s.w.now, ok)],
                                           lastRun := r.lastRun[name := s.w.now]))))
  {
    hide Booked, Windowed, Journaled, Parse, Apart, NotEarly;
    var r := s.w.rec;
    PutKeeps(c, s, s.w.(inFlight := s.w.inFlight - {name},
                        rec := r.(results := r.results[name := JobResult(s.w.now, ok)],
                                  lastRun := r.lastRun[name := s.w.now])));
  }

  lemma FinishKeeps(c: Config, s: Sys, name: string, ok: bool, reply: Reply, attempts: seq<Attempt>)
    requires Good(c, s)
    ensures Good(c, Finish(c, s, name, ok, reply, attempts).s)
  {
    hide Good, RestartAfterFailure, StopLocked, ScheduleIdle;
    if FindJob(c.jobs, name).Some? && name in s.w.inFlight {
      RecordKeeps(c, s, name, ok);
      var r := s.w.rec;
      var s1 := s.(w := s.w.(inFlight := s.w.inFlight - {name},
                             rec := r.(results := r.results[name := JobResult(s.w.now, ok)],
                                       lastRun := r.lastRun[name := s.w.now])));
      TransitionKeeps(c, s1, Running, JobDone(name));
      MarkFailedKeeps(c, s1, JobFailed, JobBroke(name));
      var s2 := (if ok then Transition(s1, Running, JobDone(name)) else MarkFailed(s1, JobFailed, JobBroke(name))).s;
      RemoveHoldKeeps(c, s2, MaintenanceHold);
      var s3 := RemoveHold(s2, MaintenanceHold);
      MemoryKeeps(c, s3, s3.w.running - {name}, s3.w.inFlight);
      var s4 := s3.(w := s3.w.(running := s3.w.running - {name}));
      RestartKeeps(c, s4, attempts);
      ScheduleIdleKeeps(c, s4);
      if !Held(s4.w.rec.holds) {
        StopLockedKeeps(c, s4, JobDone(name), reply);
      }
    }
  }

  lemma DeclaredKeeps(c: Config, s: Sys)
    requires Good(c, s)
    ensures Good(c, DeclaredHolds(s))
  {
    PutKeeps(c, s, DeclaredHolds(s).w);
  }

  lemma AdoptKeeps(c: Config, s: Sys)
    requires Good(c, s)
    ensures Good(c, Adopt(s).s)
  {
    hide Good;
    TransitionKeeps(c, s, Starting, Reconciling);
    var s1 := Transition(s, Starting, Reconciling).s;
    TransitionKeeps(c, s1, Ready, Reconciling);
    TransitionKeeps(c, Transition(s1, Ready, Reconciling).s, Running, Reconciling);
  }

  lemma SettleKeeps(c: Config, s: Sys, alive: bool, attempts: seq<Attempt>)
    requires Good(c, s)
    ensures Good(c, Settle(c, s, alive, attempts).s)
  {
    hide Good, Adopt, RestartAfterFailure, Transition, MarkFailed;
    AdoptKeeps(c, s);
    forall to_ | to_ != Stopping ensures Good(c, Transition(s, to_, Reconciling).s) {
      TransitionKeeps(c, s, to_, Reconciling);
    }
    TransitionKeeps(c, Transition(s, Ready, Reconciling).s, Running, Reconciling);
    MarkFailedKeeps(c, s, StaleState, Reconciling);
    TransitionKeeps(c, MarkFailed(s, StaleState, Reconciling).s, Stopped, Reconciling);
    MarkFailedKeeps(c, s, RuntimeDied, Reconciling);
    var lost := MarkFailed(s, RuntimeDied, Reconciling).s;
    RestartKeeps(c, lost, attempts);
    TransitionKeeps(c, lost, Stopped, Reconciling);
  }

  lemma ReconcileKeeps(c: Config, s: Sys, alive: bool, attempts: seq<Attempt>)
    requires Good(c, s)
    ensures Good(c, Reconcile(c, s, alive, attempts).s)
  {
    hide Good, Settle, Adopt, DeclaredHolds, ScheduleIdle, EnsureRunning, RestartAfterFailure;
    DeclaredKeeps(c, s);
    SettleKeeps(c, DeclaredHolds(s), alive, attempts);
    var s1 := Settle(c, DeclaredHolds(s), alive, attempts).s;
    AdoptKeeps(c, s1);
    var s2 := (if s1.w.rec.state == Failed && alive then Adopt(s1) else Ok(s1)).s;
    EnsureKeeps(c, s2, Reconciling, attempts);
    var s3 := Converge(c, s2, attempts).s;
    ScheduleIdleKeeps(c, s3);
    ResaveKeeps(c, ScheduleIdle(c, s3));
  }

  lemma ResaveKeeps(c: Config, s: Sys)
    requires Good(c, s)
    ensures Good(c, Save(s))
  {
    SaveKeeps(c, s, s.w);
  }

  lemma LaunchKeeps(c: Config, s: Sys, at: nat, k: nat)
    requires Good(c, s) && DistinctJobs(c) && k < |c.jobs| && at <= s.w.now
    requires IsDue(c.jobs[k].schedule, at, Lookup(s.w.rec.lastRun, c.jobs[k].name)) == Due(true)
    ensures Good(c, Launch(s, c.jobs[k].name, at))
  {
    hide Windowed, IsDue, Parse, Spread, InOrder;
    var w' := Launch(s, c.jobs[k].name, at).w;
    forall i | 0 <= i < |c.jobs|
      ensures Spread(Parse(c.jobs[i].schedule), LaunchesOf(w'.launches, c.jobs[i].name),
                     Lookup(w'.rec.lastRun, c.jobs[i].name), w'.now)
    {
      if i == k {
        LaunchSpreads(c.jobs[k].schedule, LaunchesOf(s.w.launches, c.jobs[k].name),
                      Lookup(s.w.rec.lastRun, c.jobs[k].name), s.w.now, at);
      }
    }
    SaveKeeps(c, s, w');
  }

  lemma LaunchSpreads(schedule: string, launched: seq<nat>, last: Option<nat>, now: nat, at: nat)
    requires Spread(Parse(schedule), launched, last, now) && at <= now
    requires IsDue(schedule, at, last) == Due(true)
    ensures Spread(Parse(schedule), launched + [at], Some(at), now)
  {
    hide IsDue, Parse, Apart, NotEarly;
    DueIsNotEarly(schedule, last, at);
    if launched != [] {
      assert NotEarly(Parse(schedule).value, launched[|launched| - 1]);
      DueKeepsDistance(schedule, launched[|launched| - 1], last.value, at);
    }
  }

  lemma {:induction false} MarkDueKeeps(c: Config, s: Sys, at: nat, i: nat)
    requires Good(c, s) && DistinctJobs(c) && i <= |c.jobs| && at <= s.w.now
    ensures Good(c, MarkDue(c, s, at, i).s)
    decreases |c.jobs| - i
  {
    hide Good, IsDue;
    if i < |c.jobs| {
      MarkDueKeeps(c, s, at, i + 1);
      if IsDue(c.jobs[i].schedule, at, Lookup(s.w.rec.lastRun, c.jobs[i].name)) == Due(true) {
        LaunchKeeps(c, s, at, i);
        MarkDueKeeps(c, Launch(s, c.jobs[i].name, at), at, i + 1);
      }
    }
  }

  lemma StopLockedAges(s: Sys, why: Why, reply: Reply)
    ensures StopLocked(s, why, reply).s.w.now >= s.w.now
  {
  }

  lemma RetryKeeps(c: Config, s: Sys, at: nat, attempts: seq<Attempt>)
    requires Good(c, s)
    ensures Good(c, RetryFailed(c, s, at, attempts).s) && RetryFailed(c, s, at, attempts).s.w.now >= s.w.now
  {
    hide Good, EnsureRunning, RestartAfterFailure;
    EnsureKeeps(c, s, Recovery, attempts);
    EnsureFrame(c, s, Recovery, attempts);
    DropRecoveryKeeps(c, EnsureRunning(c, s, Recovery, attempts).s);
  }

  lemma TickKeeps(c: Config, s: Sys, lag: nat, reply: Reply, attempts: seq<Attempt>)
    requires Good(c, s) && DistinctJobs(c)
    ensures Good(c, TickService(c, s, lag, reply, attempts).s)
  {
    hide Good, StopLocked, RetryFailed, MarkDue;
    var at := if lag <= s.w.now then s.w.now - lag else 0;
    if IdleExpired(s, at) {
      StopLockedKeeps(c, s, IdleTimeout, reply);
    }
    StopLockedAges(s, IdleTimeout, reply);
    var s1 := (if IdleExpired(s, at) then StopLocked(s, IdleTimeout, reply) else Ok(s)).s;
    RetryKeeps(c, s1, at, attempts);
    MarkDueKeeps(c, RetryFailed(c, s1, at, attempts).s, at, 0);
  }

  lemma RebootKeeps(c: Config, s: Sys, after: Sys, keep: nat, downtime: nat)
    requires Good(c, s) && Good(c, after)
    ensures Good(c, Reboot(s, after, keep, downtime))
  {
    hide Fine, Quiet, InOrder;
    var t := Reboot(s, after, keep, downtime);
    var n := |t.saves|;
    assert t.saves == after.saves[..n];
    SavesKeep(c, after, n);
    assert n > 0 ==> t.w.rec.idleDeadline == after.saves[n - 1].rec.idleDeadline && after.saves[n - 1].now <= t.w.now;
    RebootIsFine(c, s, after, keep, downtime);
    hide Loaded, Persisted, Reboot;
    LoadedIsQuiet(c, t);
    InOrderLater(t.saves, if n > 0 then after.saves[n - 1].now else 0, t.w.now);
  }

  lemma RebootIsFine(c: Config, s: Sys, after: Sys, keep: nat, downtime: nat)
    requires forall i | 0 <= i < |after.saves| :: Fine(c, after.saves[i])
    ensures Fine(c, Reboot(s, after, keep, downtime).w) && !InUse(Reboot(s, after, keep, downtime).w)
    ensures Reboot(s, after, keep, downtime).saves == [] ==> Reboot(s, after, keep, downtime).w.rec.idleDeadline == None
  {
    hide Fine;
    var t := Reboot(s, after, keep, downtime);
    if t.saves != [] {
      LoadedFine(c, after.saves[|t.saves| - 1], t.w);
    } else {
      BlankIsFine(c, t.w.now, t.w.mode, t.w.nextId);
    }
  }

  lemma SavesKeep(c: Config, s: Sys, n: nat)
    requires Good(c, s) && n <= |s.saves|
    ensures var saves := s.saves[..n];
            && (forall i | 0 <= i < n :: Fine(c, saves[i]) && Quiet(c, saves[..i + 1], saves[i]))
            && (n > 0 ==> Quiet(c, saves, saves[n - 1]))
            && InOrder(saves, if n > 0 then saves[n - 1].now else 0)
  {
    hide Fine, Quiet;
    var saves := s.saves[..n];
    forall i | 0 <= i < n ensures Fine(c, saves[i]) && Quiet(c, saves[..i + 1], saves[i]) {
      assert saves[..i + 1] == s.saves[..i + 1];
    }
    assert saves[..n] == saves;
  }

  lemma InOrderLater(saves: seq<World>, now: nat, later: nat)
    requires InOrder(saves, now) && now <= later
    ensures InOrder(saves, later)
  {
  }

  lemma LoadedIsQuiet(c: Config, s: Sys)
    requires !InUse(s.w)
    requires s.saves == [] ==> s.w.rec.idleDeadline.None?
    requires s.saves != [] ==> Quiet(c, s.saves, s.saves[|s.saves| - 1])
                               && s.w.rec.idleDeadline == s.saves[|s.saves| - 1].rec.idleDeadline
    ensures Quiet(c, s.saves, s.w)
  {
  }

  lemma LoadedFine(c: Config, disk: World, w: World)
    requires Fine(c, disk) && w.now >= disk.now
    requires w == disk.(rec := Loaded(Persisted(disk.rec)), now := w.now, mode := w.mode,
                        running := {}, inFlight := map[], nextId := w.nextId)
    ensures Fine(c, w) && !InUse(w)
  {
    hide Windowed, Launched;
    ReloadForgetsOnlyTransients(disk.rec);
    FineLater(c, disk, w.now);
    hide Loaded, Persisted;
  }

  lemma FineLater(c: Config, w: World, later: nat)
    requires Windowed(c, w.grants, w.rec.restartTimes, w.now) && Launched(c, w.launches, w.rec.lastRun, w.now)
             && w.now <= later
    ensures Windowed(c, w.grants, w.rec.restartTimes, later) && Launched(c, w.launches, w.rec.lastRun, later)
  {
    hide Parse, Apart, NotEarly, LaunchesOf;
  }

  lemma BlankIsFine(c: Config, now: nat, mode: Mode, nextId: nat)
    ensures var w := BLANK.(now := now, mode := mode, nextId := nextId); Fine(c, w) && !InUse(w)
  {
  }

  lemma {:induction false} StepKeeps(c: Config, s: Sys, op: Op)
    requires Good(c, s) && DistinctJobs(c) && Public(op)
    ensures Good(c, Step(c, s, op).s)
    decreases op
  {
    hide Good, Start, Stop, Acquire, Release, NotifyFailure, Begin, Finish, Reconcile, TickService, Reboot;
    match op
    case Advance(dt) => TimePasses(c, s, s.w.now + dt);
    case SetMode(mode) => ModeKeeps(c, s, mode);
    case DoStart(reason, attempts) => StartKeeps(c, s, reason, attempts);
    case DoStop(force, reason, reply) => StopKeeps(c, s, force, reason, reply);
    case DoAcquire(attempts) => AcquireKeeps(c, s, attempts);
    case DoRelease(id) => ReleaseKeeps(c, s, id);
    case DoNotify(attempts) => NotifyKeeps(c, s, attempts);
    case DoBegin(job, attempts) => BeginKeeps(c, s, job, attempts);
    case DoFinish(job, ok, reply, attempts) => FinishKeeps(c, s, job, ok, reply, attempts);
    case DoReconcile(alive, attempts) => ReconcileKeeps(c, s, alive, attempts);
    case DoTick(lag, reply, attempts) => TickKeeps(c, s, lag, reply, attempts);
    case Crash(during, keep, downtime) =>
      StepKeeps(c, s, during);
      RebootKeeps(c, s, Step(c, s, during).s, keep, downtime);
  }

  lemma ModeKeeps(c: Config, s: Sys, mode: Mode)
    requires Good(c, s)
    ensures Good(c, s.(w := s.w.(mode := mode)))
  {
    PutKeeps(c, s, s.w.(mode := mode));
  }

  lemma {:induction false} RunKeeps(c: Config, s: Sys, ops: seq<Op>)
    requires Good(c, s) && DistinctJobs(c) && (forall op | op in ops :: Public(op))
    ensures Good(c, Run(c, s, ops))
    decreases |ops|
  {
    hide Good, Step;
    if ops != [] {
      StepKeeps(c, s, ops[0]);
      RunKeeps(c, Step(c, s, ops[0]).s, ops[1..]);
    }
  }

  lemma InitIsGood(c: Config, now: nat, mode: Mode)
    ensures Good(c, Init(now, mode))
  {
    BlankIsFine(c, now, mode, 0);
  }

  /** What a supervisor can start from: positive counts of the holds that survive, and restart times of a past
      in which the restart limit held. */
  ghost predicate Loadable(c: Config, file: Record, now: nat) {
    && (forall k | k in file.holds && Durable(k) :: file.holds[k] > 0)
    && NonDecreasing(file.restartTimes)
    && (forall i | 0 <= i < |file.restartTimes| :: file.restartTimes[i] <= now)
    && (forall i, j | 0 <= i && j == i + c.maxRestarts && j < |file.restartTimes| ::
          file.restartTimes[i] + c.window < file.restartTimes[j])
  }

  /** The history a supervisor has when it starts: the restarts its record remembers. */
  function Resumed(file: Record, now: nat, mode: Mode): Sys {
    Sys(BLANK.(rec := Loaded(file), now := now, mode := mode, grants := file.restartTimes), [])
  }

  lemma LoadedIsGoodIff(c: Config, file: Record, now: nat, mode: Mode)
    ensures Good(c, Resumed(file, now, mode)) <==> Loadable(c, file, now)
  {
    var s := Resumed(file, now, mode);
    assert s.w.grants[|s.w.grants| - |s.w.rec.restartTimes|..] == s.w.grants;
    assert forall k :: k in s.w.rec.holds <==> k in file.holds && Durable(k);
  }

  /** Every record a supervisor has, on disk or in memory, is one that a supervisor can start from later. */
  lemma GoodIsLoadable(c: Config, s: Sys, later: nat)
    requires Good(c, s) && later >= s.w.now
    ensures Loadable(c, Persisted(s.w.rec), later)
    ensures forall i | 0 <= i < |s.saves| :: Loadable(c, Persisted(s.saves[i].rec), later)
  {
    hide Booked, Windowed, Journaled, Launched;
    FineIsLoadable(c, s.w, later);
    forall i | 0 <= i < |s.saves| ensures Loadable(c, Persisted(s.saves[i].rec), later) {
      FineIsLoadable(c, s.saves[i], later);
    }
  }

  lemma FineIsLoadable(c: Config, w: World, later: nat)
    requires Fine(c, w) && later >= w.now
    ensures Loadable(c, Persisted(w.rec), later)
  {
    hide Journaled, Launched;
    var times, k := w.rec.restartTimes, |w.grants| - |w.rec.restartTimes|;
    assert forall i | 0 <= i < |times| :: times[i] == w.grants[k + i];
    forall i, j | 0 <= i && j == i + c.maxRestarts && j < |times| ensures times[i] + c.window < times[j] {
      assert k + j == k + i + c.maxRestarts;
    }
  }

  // ---------------------------------------------------------------- the theorems

  /** Over every run of public operations, crashes included: hold counts are positive, the session hold
      counts the sessions, a single-session service has at most one, every transition was legal and
      nothing was stopped, running or failed, while any hold was active. */
  lemma Bookkeeping(c: Config, now: nat, mode: Mode, ops: seq<Op>)
    requires DistinctJobs(c) && forall op | op in ops :: Public(op)
    ensures var w := Run(c, Init(now, mode), ops).w;
            && (forall k | k in w.rec.holds :: w.rec.holds[k] > 0)
            && Count(w.rec.holds, SessionsHold) == |w.rec.sessions|
            && (c.sharing == SingleSession ==> |w.rec.sessions| <= 1)
            && (forall i | 0 <= i < |w.journal| ::
                  && Legal(w.journal[i].before, w.journal[i].after)
                  && (Stops(w.journal[i].after, w.journal[i].why) ==> !w.journal[i].held))
  {
    InitIsGood(c, now, mode);
    RunKeeps(c, Init(now, mode), ops);
  }

  /** The hypothesis is needed: a start under the reserved name of the session hold is counted as a
      session that nobody has. */
  lemma ReservedStartMiscounts(c: Config, now: nat, mode: Mode, a: Attempt)
    requires TryStart(c, now, a).error == None
    ensures var w := Step(c, Init(now, mode), DoStart(SessionsHold, [a])).s.w;
            w.rec.state == Running && Count(w.rec.holds, SessionsHold) == 1 && w.rec.sessions == map[]
  {
    hide TryStart;
    var s := AddHold(Init(now, mode), SessionsHold);
    assert Count(s.w.rec.holds, SessionsHold) == 1 && s.w.rec.state == Stopped && s.w.now == now;
    assert EnsureRunning(c, s, Requested(SessionsHold), [a]).s.w.rec.state == Running;
  }

  /** How many of `times` lie in the closed window starting at `from`. */
  ghost function InWindow(times: seq<nat>, from: nat, window: nat): nat {
    if times == [] then 0
    else InWindow(times[..|times| - 1], from, window)
         + if from <= times[|times| - 1] <= from + window then 1 else 0
  }

  lemma {:induction false} EarlierDoNotCount(times: seq<nat>, from: nat, window: nat, k: nat)
    requires k <= |times| && forall i | 0 <= i < k :: times[i] < from
    ensures InWindow(times, from, window) <= |times| - k
  {
    if times != [] {
      EarlierDoNotCount(times[..|times| - 1], from, window, if k < |times| then k else k - 1);
    }
  }

  lemma {:induction false} SpacedFitsWindow(times: seq<nat>, from: nat, window: nat, most: nat)
    requires NonDecreasing(times)
    requires forall i, j | 0 <= i && j == i + most && j < |times| :: times[i] + window < times[j]
    ensures InWindow(times, from, window) <= most
  {
    if times != [] {
      var front, last := times[..|times| - 1], |times| - 1;
      SpacedFitsWindow(front, from, window, most);
      if times[last] <= from + window {
        if most == 0 {
          assert false;
        }
        var k := if last >= most then last - most + 1 else 0;
        if last >= most {
          assert times[last - most] < from;
          EarlierDoNotCount(front, from, window, k);
        } else {
          EarlierDoNotCount(front, from, window, 0);
        }
      }
    }
  }

  /** The sliding restart limit: no closed window of the configured length contains more than
      `maxRestarts` of the restarts granted since the last administrative reset, although the stored
      list forgets old grants. Without a reset these are all grants of the run. */
  lemma RestartLimitHolds(c: Config, now: nat, mode: Mode, ops: seq<Op>, from: nat)
    requires DistinctJobs(c) && forall op | op in ops :: Public(op)
    ensures InWindow(Run(c, Init(now, mode), ops).w.grants, from, c.window) <= c.maxRestarts
  {
    InitIsGood(c, now, mode);
    RunKeeps(c, Init(now, mode), ops);
    SpacedFitsWindow(Run(c, Init(now, mode), ops).w.grants, from, c.window, c.maxRestarts);
  }

  /** Scheduled launches of one job keep the distance its schedule asks for, whatever ticks, manual
      runs, restarts and crashes lie between them. */
  lemma LaunchesKeepDistance(c: Config, now: nat, mode: Mode, ops: seq<Op>, k: nat, i: nat, j: nat)
    requires DistinctJobs(c) && forall op | op in ops :: Public(op)
    requires k < |c.jobs|
    requires i < j < |LaunchesOf(Run(c, Init(now, mode), ops).w.launches, c.jobs[k].name)|
    ensures var launched := LaunchesOf(Run(c, Init(now, mode), ops).w.launches, c.jobs[k].name);
            var plan := Parse(c.jobs[k].schedule);
            plan.Some? && Apart(plan.value, launched[i], launched[j])
  {
    InitIsGood(c, now, mode);
    RunKeeps(c, Init(now, mode), ops);
    var w := Run(c, Init(now, mode), ops).w;
    var launched := LaunchesOf(w.launches, c.jobs[k].name);
    assert Spread(Parse(c.jobs[k].schedule), launched, Lookup(w.rec.lastRun, c.jobs[k].name), w.now);
    ApartTransitive(Parse(c.jobs[k].schedule).value, launched, i, j);
  }

  lemma {:induction false} ApartTransitive(plan: Plan, launched: seq<nat>, i: nat, j: nat)
    requires i < j < |launched|
    requires forall i | 0 < i < |launched| :: Apart(plan, launched[i - 1], launched[i])
    ensures Apart(plan, launched[i], launched[j])
    decreases j - i
  {
    assert Apart(plan, launched[j - 1], launched[j]);
    if i + 1 < j {
      ApartTransitive(plan, launched, i, j - 1);
    }
  }

  /** Was a session or maintenance hold on the service at time `t`, as far as the written records show?
      A record describes the time from its own write up to the next one. */
  ghost predicate InUseAt(s: Sys, t: nat) {
    exists i | 0 <= i < |s.saves| :: InUse(s.saves[i]) && s.saves[i].now <= t
                                  && (i + 1 < |s.saves| ==> t < s.saves[i + 1].now)
  }

  /** The transitions journaled on the way from `s` to `t` have other reasons than idleness. */
  ghost predicate NotForIdleness(s: Sys, t: Sys) {
    && s.w.journal <= t.w.journal
    && forall i | |s.w.journal| <= i < |t.w.journal| :: t.w.journal[i].why != IdleTimeout
  }

  lemma {:induction false} EnsureIsNotForIdleness(c: Config, s: Sys, why: Why, attempts: seq<Attempt>)
    requires why != IdleTimeout
    ensures NotForIdleness(s, EnsureRunning(c, s, why, attempts).s)
    decreases |attempts|, 0
  {
    var state := s.w.rec.state;
    if (state == Stopped || state == Failed) && attempts != [] {
      hide EnsureRunning, NotForIdleness, RestartAfterFailure, TryStart, Transition, MarkFailed, Frame;
      EnsureUnfolds(c, s, why, attempts);
      BeganFrame(s, why, attempts[0], c);
      var s1 := Transition(s, Starting, why).s;
      var a := TryStart(c, s1.w.now, attempts[0]);
      var s2 := At(s1, a.at);
      StartIsNotForIdleness(s, why, a.at);
      match a.error {
        case None => StartedFrame(s2, why);
        case Some(e) =>
          FailedFrame(s2, e, StartFailure);
          RestartIsNotForIdleness(c, MarkFailed(s2, e, StartFailure).s, attempts[1..]);
          NotForIdlenessTrans(s, MarkFailed(s2, e, StartFailure).s, EnsureRunning(c, s, why, attempts).s);
      }
    } else {
      assert NotForIdleness(s, s);
    }
  }

  lemma NotForIdlenessTrans(s: Sys, t: Sys, u: Sys)
    requires NotForIdleness(s, t) && NotForIdleness(t, u)
    ensures NotForIdleness(s, u)
  {
  }

  lemma StartIsNotForIdleness(s: Sys, why: Why, t: nat)
    requires why != IdleTimeout && (s.w.rec.state == Stopped || s.w.rec.state == Failed) && t >= s.w.now
    ensures var s2 := At(Transition(s, Starting, why).s, t);
            && NotForIdleness(s, Started(Transition(Transition(s2, Ready, why).s, Running, why).s))
            && forall e :: NotForIdleness(s, MarkFailed(s2, e, StartFailure).s)
  {
  }

  lemma {:induction false} RestartIsNotForIdleness(c: Config, s: Sys, attempts: seq<Attempt>)
    ensures NotForIdleness(s, RestartAfterFailure(c, s, attempts).s)
    decreases |attempts|, 1
  {
    hide EnsureRunning;
    var s1 := Grant(c, s, Recent(s.w.rec.restartTimes, s.w.now, c.window));
    EnsureIsNotForIdleness(c, s1, Recovery, attempts);
  }

  lemma {:induction false} MarkDueIsNotForIdleness(c: Config, s: Sys, at: nat, i: nat)
    requires i <= |c.jobs|
    ensures NotForIdleness(s, MarkDue(c, s, at, i).s)
    decreases |c.jobs| - i
  {
    hide IsDue;
    if i < |c.jobs| {
      MarkDueIsNotForIdleness(c, s, at, i + 1);
      MarkDueIsNotForIdleness(c, Launch(s, c.jobs[i].name, at), at, i + 1);
    }
  }

  /** A tick that stops a service for idleness does so now, and only when the idle deadline has passed. */
  lemma IdleStopNeedsDeadline(c: Config, s: Sys, lag: nat, reply: Reply, attempts: seq<Attempt>, k: nat)
    requires lag <= s.w.now
    requires var journal := TickService(c, s, lag, reply, attempts).s.w.journal;
             |s.w.journal| <= k < |journal| && journal[k].why == IdleTimeout && journal[k].after == Stopping
    ensures IdleExpired(s, s.w.now - lag)
    ensures TickService(c, s, lag, reply, attempts).s.w.journal[k].at == s.w.now
  {
    hide EnsureRunning, MarkDue, StopLocked, NotForIdleness;
    StopJournals(s, reply);
    var at := s.w.now - lag;
    var r1 := if IdleExpired(s, at) then StopLocked(s, IdleTimeout, reply) else Ok(s);
    EnsureIsNotForIdleness(c, r1.s, Recovery, attempts);
    var s2 := RetryFailed(c, r1.s, at, attempts).s;
    RetryIsNotForIdleness(c, r1.s, at, attempts);
    MarkDueIsNotForIdleness(c, s2, at, 0);
    var s3 := TickService(c, s, lag, reply, attempts).s;
    NotForIdlenessSelf(r1.s);
    NotForIdlenessTrans(r1.s, s2, MarkDue(c, s2, at, 0).s);
    assert NotForIdleness(r1.s, s3);
    hide TickService, RetryFailed, IdleExpired;
    OldEvents(r1.s, s3, k);
  }

  lemma OldEvents(s: Sys, t: Sys, k: nat)
    requires NotForIdleness(s, t) && k < |t.w.journal| && t.w.journal[k].why == IdleTimeout
    ensures k < |s.w.journal| && t.w.journal[k] == s.w.journal[k]
  {
  }

  lemma NotForIdlenessSelf(s: Sys)
    ensures NotForIdleness(s, s)
  {
  }

  lemma RetryIsNotForIdleness(c: Config, s: Sys, at: nat, attempts: seq<Attempt>)
    ensures NotForIdleness(s, RetryFailed(c, s, at, attempts).s)
  {
    hide EnsureRunning;
    EnsureIsNotForIdleness(c, s, Recovery, attempts);
  }

  /** A stop journals its beginning at once. */
  lemma StopJournals(s: Sys, reply: Reply)
    ensures var t := StopLocked(s, IdleTimeout, reply).s;
            s.w.journal <= t.w.journal
            && forall k | |s.w.journal| <= k < |t.w.journal| && t.w.journal[k].after == Stopping ::
                 t.w.journal[k].at == s.w.now
  {
  }

  /** A service that a tick stops for idleness has not been in use at any moment of the idle timeout
      before that stop: over every run, restarts, mode overrides and reloads included. */
  lemma IdleStopIsJustified(c: Config, now: nat, mode: Mode, ops: seq<Op>,
                            lag: nat, reply: Reply, attempts: seq<Attempt>, k: nat, t: nat)
    requires DistinctJobs(c) && forall op | op in ops :: Public(op)
    requires var s := Run(c, Init(now, mode), ops);
             var journal := TickService(c, s, lag, reply, attempts).s.w.journal;
             && lag <= s.w.now
             && |s.w.journal| <= k < |journal| && journal[k].why == IdleTimeout && journal[k].after == Stopping
             && journal[k].at <= t + c.idleTimeout && t <= journal[k].at
    ensures !InUseAt(Run(c, Init(now, mode), ops), t)
  {
    hide Fine, Step, TickService;
    InitIsGood(c, now, mode);
    RunKeeps(c, Init(now, mode), ops);
    var s := Run(c, Init(now, mode), ops);
    IdleStopNeedsDeadline(c, s, lag, reply, attempts, k);
    assert Quiet(c, s.saves, s.w);
  }
}
