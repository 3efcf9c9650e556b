/** Lifecycle holds are conserved between the router and the supervisors of its services. */
module RouterConservation {
  import opened Wrappers
  import opened RouterModel
  import Lifecycle
  import Schedule
  import Supervision = SupervisorModel
  import Frames = SupervisorFrames
  import SupervisorConvergence

  // ---------------------------------------------------------------- what supervisors do to sessions

  /** The supervisor's own doings: nobody else acquires or releases, and nothing forgets sessions. */
  ghost predicate Quiet(op: Supervision.Op) {
    match op
    case DoAcquire(_) => false
    case DoRelease(_) => false
    case DoStop(force, _, _) => !force
    case Crash(_, _, _) => false
    case _ => true
  }

  predicate SameSessions(s: Supervision.Sys, t: Supervision.Sys) {
    t.w.rec.sessions == s.w.rec.sessions && t.w.nextId == s.w.nextId
  }

  lemma {:induction false} MarkDueKeepsSessions(c: Supervision.Config, s: Supervision.Sys, at: nat, i: nat)
    requires i <= |c.jobs|
    ensures SameSessions(s, Supervision.MarkDue(c, s, at, i).s)
    decreases |c.jobs| - i
  {
    hide Schedule.IsDue;
    if i < |c.jobs| {
      MarkDueKeepsSessions(c, s, at, i + 1);
      MarkDueKeepsSessions(c, Supervision.Launch(s, c.jobs[i].name, at), at, i + 1);
    }
  }

  lemma TickKeepsSessions(c: Supervision.Config, s: Supervision.Sys, lag: nat, reply: Supervision.Reply,
                          attempts: seq<Supervision.Attempt>)
    ensures SameSessions(s, Supervision.TickService(c, s, lag, reply, attempts).s)
  {
    hide Supervision.EnsureRunning, Supervision.MarkDue, Supervision.StopLocked, Supervision.IdleExpired;
    var at := if lag <= s.w.now then s.w.now - lag else 0;
    Frames.StopLockedOutside(s, Supervision.IdleTimeout, reply);
    var s1 := (if Supervision.IdleExpired(s, at) then Supervision.StopLocked(s, Supervision.IdleTimeout, reply)
               else Supervision.Ok(s)).s;
    Frames.StartsOutside(c, s1, Supervision.Recovery, attempts);
    MarkDueKeepsSessions(c, Supervision.RetryFailed(c, s1, at, attempts).s, at, 0);
  }

  lemma ReconcileKeepsSessions(c: Supervision.Config, s: Supervision.Sys, alive: bool,
                               attempts: seq<Supervision.Attempt>)
    ensures SameSessions(s, Supervision.Reconcile(c, s, alive, attempts).s)
  {
    hide Supervision.Reconcile, SupervisorConvergence.Middle;
    SupervisorConvergence.ReconcileIsMiddle(c, s, alive, attempts);
    SupervisorConvergence.MiddleOutcome(c, Supervision.DeclaredHolds(s), alive, attempts);
  }

  lemma BeginKeepsSessions(c: Supervision.Config, s: Supervision.Sys, job: string, attempts: seq<Supervision.Attempt>)
    ensures SameSessions(s, Supervision.Begin(c, s, job, attempts).s)
  {
    Frames.SmallMoves(c);
    hide Supervision.EnsureRunning, Supervision.AddHold, Supervision.RemoveHold, Supervision.Transition,
         Supervision.FindJob;
    Frames.StartsOutside(c, Supervision.AddHold(s.(w := s.w.(running := s.w.running + {job})),
                                                Lifecycle.MaintenanceHold),
                         Supervision.ForJob(job), attempts);
  }

  lemma FinishKeepsSessions(c: Supervision.Config, s: Supervision.Sys, job: string, ok: bool, reply: Supervision.Reply,
                            attempts: seq<Supervision.Attempt>)
    ensures SameSessions(s, Supervision.Finish(c, s, job, ok, reply, attempts).s)
  {
    Frames.SmallMoves(c);
    hide Supervision.RestartAfterFailure, Supervision.StopLocked, Supervision.MarkFailed, Supervision.Transition,
         Supervision.RemoveHold, Supervision.ScheduleIdle, Supervision.FindJob, Lifecycle.Held;
    if job in s.w.inFlight {
      var r := s.w.rec;
      var s1 := s.(w := s.w.(inFlight := s.w.inFlight - {job},
                             rec := r.(results := r.results[job := Lifecycle.JobResult(s.w.now, ok)],
                                       lastRun := r.lastRun[job := s.w.now])));
      var s2 := (if ok then Supervision.Transition(s1, Lifecycle.Running, Supervision.JobDone(job))
                 else Supervision.MarkFailed(s1, Lifecycle.JobFailed, Supervision.JobBroke(job))).s;
      var s3 := Supervision.RemoveHold(s2, Lifecycle.MaintenanceHold);
      var s4 := s3.(w := s3.w.(running := s3.w.running - {job}));
      RemovesNoState(s2, Lifecycle.MaintenanceHold);
      Frames.StopLockedOutside(s4, Supervision.JobDone(job), reply);
      Frames.StartsOutside(c, s4, Supervision.Recovery, attempts);
    }
  }

  lemma RemovesNoState(s: Supervision.Sys, h: Lifecycle.Hold)
    ensures Supervision.RemoveHold(s, h).w.rec.state == s.w.rec.state
  {
  }

  lemma StartKeepsSessions(c: Supervision.Config, s: Supervision.Sys, reason: Lifecycle.Hold,
                           attempts: seq<Supervision.Attempt>)
    ensures SameSessions(s, Supervision.Start(c, s, reason, attempts).s)
  {
    Frames.SmallMoves(c);
    IntentKeepsSessions(s, reason);
    hide Supervision.EnsureRunning, Supervision.AddHold, Supervision.Intent;
    var s1 := Supervision.Intent(s, reason);
    var s2 := if Lifecycle.Count(s1.w.rec.holds, reason) == 0 then Supervision.AddHold(s1, reason) else s1;
    Frames.StartsOutside(c, s2, Supervision.Requested(reason), attempts);
  }

  lemma IntentKeepsSessions(s: Supervision.Sys, reason: Lifecycle.Hold)
    ensures SameSessions(s, Supervision.Intent(s, reason))
  {
  }

  lemma BackgroundKeepsSessions(c: Supervision.Config, s: Supervision.Sys, op: Supervision.Op)
    requires Quiet(op)
    ensures SameSessions(s, Supervision.Step(c, s, op).s)
  {
    hide Supervision.Start, Supervision.Stop, Supervision.NotifyFailure, Supervision.Begin, Supervision.Finish,
         Supervision.Reconcile, Supervision.TickService;
    match op
    case DoStart(reason, attempts) => StartKeepsSessions(c, s, reason, attempts);
    case DoNotify(attempts) => NotifyKeepsSessions(c, s, attempts);
    case DoBegin(job, attempts) => BeginKeepsSessions(c, s, job, attempts);
    case DoFinish(job, ok, reply, attempts) => FinishKeepsSessions(c, s, job, ok, reply, attempts);
    case DoReconcile(alive, attempts) => ReconcileKeepsSessions(c, s, alive, attempts);
    case DoTick(lag, reply, attempts) => TickKeepsSessions(c, s, lag, reply, attempts);
    case DoStop(force, reason, reply) => StopKeepsSessions(s, reason, reply);
    case Advance(_) =>
    case SetMode(_) =>
  }

  lemma StopKeepsSessions(s: Supervision.Sys, reason: Lifecycle.Hold, reply: Supervision.Reply)
    ensures SameSessions(s, Supervision.Stop(s, false, reason, reply).s)
  {
    hide Lifecycle.Held, Supervision.StopLocked;
    Frames.StopLockedOutside(Supervision.Withdraw(s, false, reason), Supervision.Requested(reason), reply);
  }

  lemma NotifyKeepsSessions(c: Supervision.Config, s: Supervision.Sys, attempts: seq<Supervision.Attempt>)
    ensures SameSessions(s, Supervision.NotifyFailure(c, s, attempts).s)
  {
    Frames.SmallMoves(c);
    hide Supervision.RestartAfterFailure, Supervision.MarkFailed;
    Frames.StartsOutside(c, Supervision.MarkFailed(s, Lifecycle.RuntimeDied, Supervision.RuntimeFailure).s,
                         Supervision.Recovery, attempts);
  }

  /** Acquiring adds exactly the announced session, or fails without a trace in the session map. */
  lemma AcquireSessions(c: Supervision.Config, s: Supervision.Sys, attempts: seq<Supervision.Attempt>)
    requires s.w.nextId !in s.w.rec.sessions
    ensures var r := Supervision.Acquire(c, s, attempts);
            if r.Ok?
            then r.s.w.rec.sessions == s.w.rec.sessions[s.w.nextId := s.w.now] && r.s.w.nextId == s.w.nextId + 1
            else r.s.w.rec.sessions == s.w.rec.sessions && s.w.nextId <= r.s.w.nextId
  {
    hide Supervision.EnsureRunning;
    var sessions := s.w.rec.sessions[s.w.nextId := s.w.now];
    var s1 := s.(w := s.w.(rec := s.w.rec.(sessions := sessions), nextId := s.w.nextId + 1));
    Frames.StartsOutside(c, Supervision.AddHold(s1, Lifecycle.SessionsHold), Supervision.ForSession, attempts);
    assert sessions - {s.w.nextId} == s.w.rec.sessions;
  }

  lemma ReleaseSessions(c: Supervision.Config, s: Supervision.Sys, h: nat)
    ensures var r := Supervision.Release(c, s, h);
            if h in s.w.rec.sessions
            then r.Ok? && r.s.w.rec.sessions == s.w.rec.sessions - {h} && r.s.w.nextId == s.w.nextId
            else r.Raise?
  {
  }

  // ---------------------------------------------------------------- the invariant

  ghost predicate Holding(s: Session) { s.hold.Some? && !s.released }

  /** Which sessions hold their service: those being connected, active or handing off, and no others. */
  ghost predicate HoldFits(s: Session) {
    && (s.released ==> s.hold.Some?)
    && match s.state
       case Created | Authorizing | Acquiring => s.hold.None?
       case Connecting | Active | HandingOff => Holding(s)
       case Closing => false
       case Closed | Failed => !Holding(s)
  }

  ghost predicate Held(n: Net, id: string, v: string, h: nat) {
    id in n.sessions && n.sessions[id].request.target == v && n.sessions[id].hold == Some(h)
  }

  ghost predicate Known(n: Net, v: string) { v in n.services && v in n.configs }

  /** The supervisors' side: each known session is held by a router session. */
  ghost predicate Covered(n: Net) {
    forall v, h: nat | v in n.services && h in n.services[v].w.rec.sessions ::
      h < n.services[v].w.nextId && exists id :: Held(n, id, v, h) && !n.sessions[id].released
  }

  /** The router's side: a hold names a session its supervisor knows, and nobody else's. */
  ghost predicate Backed(n: Net) {
    && (forall id, v, h: nat | Held(n, id, v, h) :: Known(n, v) && h < n.services[v].w.nextId)
    && (forall id, v, h: nat | Held(n, id, v, h) && !n.sessions[id].released :: h in n.services[v].w.rec.sessions)
    && (forall a, b, v, h: nat | Held(n, a, v, h) && Held(n, b, v, h) :: a == b)
  }

  ghost predicate ReleasedOnce(n: Net) {
    && (forall i | 0 <= i < |n.releases| :: n.releases[i] in n.sessions && n.sessions[n.releases[i]].released)
    && (forall i, j | 0 <= i < j < |n.releases| :: n.releases[i] != n.releases[j])
  }

  ghost predicate Conserved(n: Net) {
    && (forall id | id in n.sessions :: HoldFits(n.sessions[id]))
    && Backed(n) && Covered(n) && ReleasedOnce(n)
  }

  /** A change of one session that leaves its hold alone, and of nothing else that matters here. */
  lemma Reshape(n: Net, n': Net, id: string)
    requires Conserved(n) && id in n.sessions && n'.sessions.Keys == n.sessions.Keys
    requires forall x | x in n.sessions && x != id :: n'.sessions[x] == n.sessions[x]
    requires n'.services == n.services && n'.configs == n.configs && n'.releases == n.releases
    requires var s, s' := n.sessions[id], n'.sessions[id];
             s'.hold == s.hold && s'.released == s.released && s'.request == s.request && HoldFits(s')
    ensures Conserved(n')
  {
    hide HoldFits;
    assert forall x, v, h: nat :: Held(n', x, v, h) <==> Held(n, x, v, h);
    assert forall x | x in n.sessions :: n'.sessions[x].released == n.sessions[x].released;
  }

  lemma OpenKeeps(n: Net, id: string, req: Request, parent: Option<string>, mode: Option<Mode>)
    requires Conserved(n)
    ensures Conserved(Register(n, id, req, parent, mode))
  {
    if id !in n.sessions {
      var n' := Register(n, id, req, parent, mode);
      assert forall x, v, h: nat :: Held(n', x, v, h) <==> Held(n, x, v, h);
      assert forall x | x in n.sessions :: n'.sessions[x] == n.sessions[x];
    }
  }

  lemma AuthorizeKeeps(n: Net, id: string)
    requires Conserved(n)
    ensures Conserved(DoAuthorize(n, id))
  {
    if id in n.sessions && n.sessions[id].state == Created {
      assert HoldFits(n.sessions[id]);
      AuthorizeShape(n, id);
      hide DoAuthorize, Conserved;
      Reshape(n, DoAuthorize(n, id), id);
    }
  }

  lemma ServiceSwap(n: Net, v: string, s: Supervision.Sys)
    requires Conserved(n) && Known(n, v)
    requires s.w.rec.sessions == n.services[v].w.rec.sessions && s.w.nextId >= n.services[v].w.nextId
    ensures Conserved(n.(services := n.services[v := s]))
  {
    hide HoldFits;
    var n' := n.(services := n.services[v := s]);
    assert forall x, u, h: nat :: Held(n', x, u, h) <==> Held(n, x, u, h);
    hide Held;
  }

  lemma AcquireKeeps(n: Net, id: string, attempts: seq<Supervision.Attempt>)
    requires Conserved(n)
    ensures Conserved(DoAcquire(n, id, attempts))
  {
    if id in n.sessions && n.sessions[id].state == Acquiring {
      assert HoldFits(n.sessions[id]);
      hide Conserved, Supervision.Acquire;
      var v := n.sessions[id].request.target;
      if !Known(n, v) {
        FailureKeeps(n, id);
      } else {
        var s := n.services[v];
        AcquireSessions(n.configs[v], s, attempts);
        var r := Supervision.Acquire(n.configs[v], s, attempts);
        if r.Raise? {
          ServiceSwap(n, v, r.s);
          FailureKeeps(n.(services := n.services[v := r.s]), id);
        } else {
          Acquired(n, id, r.s);
        }
      }
    }
  }

  lemma FailureKeeps(n: Net, id: string)
    requires Conserved(n) && id in n.sessions && !Holding(n.sessions[id])
    ensures Conserved(OpenFailure(n, id))
  {
    assert HoldFits(n.sessions[id]);
    hide Conserved;
    Reshape(n, OpenFailure(n, id), id);
  }

  /** A new number handed out by the supervisor and noted by the session that asked for it. */
  lemma Acquired(n: Net, id: string, s': Supervision.Sys)
    requires Conserved(n) && id in n.sessions && n.sessions[id].state == Acquiring
    requires Known(n, n.sessions[id].request.target)
    requires var s := n.services[n.sessions[id].request.target];
             s'.w.rec.sessions == s.w.rec.sessions[s.w.nextId := s.w.now] && s'.w.nextId == s.w.nextId + 1
    ensures var v := n.sessions[id].request.target;
            Conserved(Granted(n.(services := n.services[v := s']), id, n.services[v].w.nextId))
  {
    var v := n.sessions[id].request.target;
    var number := n.services[v].w.nextId;
    var n' := Granted(n.(services := n.services[v := s']), id, number);
    assert HoldFits(n.sessions[id]) && HoldFits(n'.sessions[id]);
    hide HoldFits;
    forall x, u, h: nat ensures Held(n', x, u, h) <==> Held(n, x, u, h) || (x == id && u == v && h == number) {
    }
    assert n'.releases == n.releases;
    hide Granted, Held;
    AcquiredCovers(n, n', id, v, number);
    AcquiredBacks(n, n', id, v, number);
    hide Covered, Backed;
  }

  /** How the two sides of the invariant see a grant. */
  ghost predicate Grants(n: Net, n': Net, id: string, v: string, number: nat) {
    && id in n.sessions && id in n'.sessions && n'.sessions == n.sessions[id := n'.sessions[id]]
    && !n.sessions[id].released && !n'.sessions[id].released
    && v in n.services && v in n'.services && n'.services == n.services[v := n'.services[v]] && n'.configs == n.configs
    && v in n.configs && number == n.services[v].w.nextId && n'.services[v].w.nextId == number + 1
    && n'.services[v].w.rec.sessions.Keys == n.services[v].w.rec.sessions.Keys + {number}
    && forall x, u, h: nat :: Held(n', x, u, h) <==> Held(n, x, u, h) || (x == id && u == v && h == number)
  }

  lemma AcquiredCovers(n: Net, n': Net, id: string, v: string, number: nat)
    requires Covered(n) && Grants(n, n', id, v, number)
    ensures Covered(n')
  {
    forall u, h: nat | u in n'.services && h in n'.services[u].w.rec.sessions
      ensures h < n'.services[u].w.nextId && exists x :: Held(n', x, u, h) && !n'.sessions[x].released
    {
      if u == v && h == number {
        assert Held(n', id, u, h);
      } else {
        assert h in n.services[u].w.rec.sessions;
        var x :| Held(n, x, u, h) && !n.sessions[x].released;
        assert Held(n', x, u, h);
      }
    }
  }

  lemma AcquiredBacks(n: Net, n': Net, id: string, v: string, number: nat)
    requires Backed(n) && Grants(n, n', id, v, number)
    ensures Backed(n')
  {
    forall a, b, u, h: nat | Held(n', a, u, h) && Held(n', b, u, h) ensures a == b {
      if Held(n, a, u, h) || Held(n, b, u, h) {
        assert h < n.services[u].w.nextId;
      }
    }
    hide Held;
  }

  /** Giving a hold back: it always goes through, and the session no longer holds its service. */
  lemma ReleaseKeeps(n: Net, id: string)
    requires id in n.sessions
    requires Conserved(SetState(n, id, if Holding(n.sessions[id]) then Active else Failed))
    ensures var (n1, ok) := ReleaseHold(n, id);
            && ok && id in n1.sessions && !Holding(n1.sessions[id])
            && n1.sessions[id] == n.sessions[id].(released := n1.sessions[id].released)
            && n1.sessions == n.sessions[id := n1.sessions[id]] && n1.configs == n.configs
            && n1.services.Keys == n.services.Keys
            && n1.threads == n.threads && n1.restores == n.restores && n1.reg == n.reg
            && n1.activations == n.activations
            && Conserved(SetState(n1, id, Failed))
  {
    hide Conserved;
    ReleaseShape(n, id);
    if Holding(n.sessions[id]) {
      HeldIsReleased(n, id);
    } else {
      NothingReleased(n, id);
    }
    hide ReleaseHold, SetState;
  }

  lemma NothingReleased(n: Net, id: string)
    requires id in n.sessions && !Holding(n.sessions[id])
    ensures ReleaseHold(n, id) == (n, true)
  {
  }

  /** A hold that its supervisor knows is taken back. */
  lemma HeldIsReleased(n: Net, id: string)
    requires id in n.sessions && Holding(n.sessions[id]) && Conserved(SetState(n, id, Active))
    ensures var (n1, ok) := ReleaseHold(n, id);
            && ok && id in n1.sessions && n1.sessions[id].released && n1.configs == n.configs
            && n1.services.Keys == n.services.Keys
            && Conserved(SetState(n1, id, Failed))
  {
    var v, h := n.sessions[id].request.target, n.sessions[id].hold.value;
    var m := SetState(n, id, Active);
    SetShape(n, id, Active);
    assert Held(m, id, v, h);
    hide Conserved, Supervision.Release, SetState, Flagged;
    ReleaseSessions(n.configs[v], n.services[v], h);
    var t := Supervision.Release(n.configs[v], n.services[v], h).s;
    Released(m, id, t);
    var n0 := n.(services := n.services[v := t], releases := n.releases + [id]);
    assert ReleaseHold(n, id) == (Flagged(n0, id), true);
    FlaggedAndFailed(n, id, v, t);
    FlagShape(n0, id);
    hide ReleaseHold;
  }

  lemma FlagShape(n: Net, id: string)
    requires id in n.sessions
    ensures var n1 := Flagged(n, id);
            id in n1.sessions && n1.sessions[id].released && n1.configs == n.configs && n1.services == n.services
  {
  }

  lemma FlaggedAndFailed(n: Net, id: string, v: string, t: Supervision.Sys)
    requires id in n.sessions
    ensures var m := SetState(n, id, Active);
            var n0 := n.(services := n.services[v := t], releases := n.releases + [id]);
            SetState(Flagged(n0, id), id, Failed) ==
            m.(services := m.services[v := t], releases := m.releases + [id],
               sessions := m.sessions[id := m.sessions[id].(released := true, state := Failed)])
  {
  }

  lemma Released(n: Net, id: string, s': Supervision.Sys)
    requires Conserved(n) && id in n.sessions && Holding(n.sessions[id])
    requires Known(n, n.sessions[id].request.target)
    requires var s := n.services[n.sessions[id].request.target];
             s'.w.rec.sessions == s.w.rec.sessions - {n.sessions[id].hold.value} && s'.w.nextId == s.w.nextId
    ensures Conserved(n.(services := n.services[n.sessions[id].request.target := s'], releases := n.releases + [id],
                         sessions := n.sessions[id := n.sessions[id].(released := true, state := Failed)]))
  {
    var v, mine := n.sessions[id].request.target, n.sessions[id].hold.value;
    var n' := n.(services := n.services[v := s'], releases := n.releases + [id],
                 sessions := n.sessions[id := n.sessions[id].(released := true, state := Failed)]);
    assert Held(n, id, v, mine) && HoldFits(n'.sessions[id]);
    forall x, u, h: nat ensures Held(n', x, u, h) <==> Held(n, x, u, h) {
    }
    hide HoldFits;
    ReleasedIsOnce(n, n', id);
    hide Held, ReleasedOnce;
    ReleasedCovers(n, n', id, v, mine);
    ReleasedBacks(n, n', id, v, mine);
    hide Covered, Backed;
  }

  /** How the two sides of the invariant see a release. */
  ghost predicate Returns(n: Net, n': Net, id: string, v: string, mine: nat) {
    && id in n.sessions && id in n'.sessions && n'.sessions == n.sessions[id := n'.sessions[id]]
    && !n.sessions[id].released && n'.sessions[id].released && Held(n, id, v, mine)
    && v in n.services && v in n'.services && n'.services == n.services[v := n'.services[v]] && n'.configs == n.configs
    && n'.services[v].w.nextId == n.services[v].w.nextId
    && n'.services[v].w.rec.sessions.Keys == n.services[v].w.rec.sessions.Keys - {mine}
    && forall x, u, h: nat :: Held(n', x, u, h) <==> Held(n, x, u, h)
  }

  lemma ReleasedIsOnce(n: Net, n': Net, id: string)
    requires ReleasedOnce(n) && id in n.sessions && !n.sessions[id].released && id in n'.sessions
             && n'.sessions[id].released
    requires n'.sessions == n.sessions[id := n'.sessions[id]] && n'.releases == n.releases + [id]
    ensures ReleasedOnce(n')
  {
    assert forall i | 0 <= i < |n.releases| :: n'.releases[i] == n.releases[i] && n.releases[i] != id;
  }

  lemma ReleasedCovers(n: Net, n': Net, id: string, v: string, mine: nat)
    requires Covered(n) && Returns(n, n', id, v, mine)
    ensures Covered(n')
  {
    forall u, h: nat | u in n'.services && h in n'.services[u].w.rec.sessions
      ensures h < n'.services[u].w.nextId && exists x :: Held(n', x, u, h) && !n'.sessions[x].released
    {
      assert h in n.services[u].w.rec.sessions;
      var x :| Held(n, x, u, h) && !n.sessions[x].released;
      assert Held(n', x, u, h) && x != id;
    }
  }

  lemma ReleasedBacks(n: Net, n': Net, id: string, v: string, mine: nat)
    requires Backed(n) && Returns(n, n', id, v, mine)
    ensures Backed(n')
  {
    forall x, u, h: nat | Held(n', x, u, h) && !n'.sessions[x].released ensures h in n'.services[u].w.rec.sessions {
      assert Held(n, x, u, h) && x != id;
      assert u == v && h == mine ==> x == id;
    }
    hide Held;
  }

  lemma ConnectKeeps(n: Net, id: string, ok: bool)
    requires Conserved(n)
    ensures Conserved(DoConnect(n, id, ok))
  {
    if id in n.sessions && n.sessions[id].state == Connecting && !n.sessions[id].refused {
      if ok {
        assert HoldFits(n.sessions[id]);
        ActivateShape(n, id);
        hide Conserved, DoConnect;
        Reshape(n, DoConnect(n, id, ok), id);
      } else {
        DisconnectKeeps(n, id);
      }
    }
  }

  lemma DisconnectKeeps(n: Net, id: string)
    requires Conserved(n) && id in n.sessions && n.sessions[id].state == Connecting && !n.sessions[id].refused
    ensures Conserved(DoConnect(n, id, false))
  {
    assert HoldFits(n.sessions[id]);
    hide Conserved, ReleaseHold;
    Reshape(n, SetState(n, id, Active), id);
    ReleaseKeeps(n, id);
    var n1 := ReleaseHold(n, id).0;
    assert DoConnect(n, id, false) == OpenFailure(n1, id);
    hide DoConnect, SetState;
    EndKeeps(n1, id, OpenFailure(n1, id));
  }

  lemma CloseKeeps(n: Net, id: string, reason: Reason, streamOk: bool)
    requires Conserved(n)
    ensures Conserved(DoClose(n, id, reason, streamOk))
  {
    hide Conserved;
    if id in n.sessions && n.sessions[id].state in {Active, HandingOff, Failed} {
      ClosingKeeps(n, id);
      WrapKeeps(SetState(n, id, Closing), id, reason, streamOk);
      hide Wrapped;
    }
  }

  lemma WrapKeeps(n: Net, id: string, reason: Reason, streamOk: bool)
    requires id in n.sessions && Conserved(SetState(n, id, if Holding(n.sessions[id]) then Active else Failed))
    ensures Conserved(Wrapped(n, id, reason, streamOk))
  {
    hide Conserved, ReleaseHold, SetState;
    ReleaseKeeps(n, id);
    var n1 := ReleaseHold(n, id).0;
    EndKeeps(n1, id, Wrapped(n, id, reason, streamOk));
  }

  /** The end of a close: a session without a hold becomes closed or failed. */
  lemma EndKeeps(n1: Net, id: string, n2: Net)
    requires id in n1.sessions && Conserved(SetState(n1, id, Failed)) && !Holding(n1.sessions[id])
    requires id in n2.sessions && n2.sessions[id].state in {Closed, Failed}
             && n2.sessions == n1.sessions[id := n2.sessions[id]]
    requires n2.sessions[id] == n1.sessions[id].(state := n2.sessions[id].state, reason := n2.sessions[id].reason)
    requires n2.services == n1.services && n2.configs == n1.configs && n2.releases == n1.releases
    ensures Conserved(n2)
  {
    Reshape(SetState(n1, id, Failed), n2, id);
  }

  lemma ClosingKeeps(n: Net, id: string)
    requires Conserved(n) && id in n.sessions && n.sessions[id].state in {Active, HandingOff, Failed}
    ensures Conserved(SetState(SetState(n, id, Closing), id, if Holding(n.sessions[id]) then Active else Failed))
  {
    var last := if Holding(n.sessions[id]) then Active else Failed;
    assert HoldFits(n.sessions[id]);
    hide Conserved, SetState;
    SetTwice(n, id, Closing, last);
    SetShape(n, id, last);
    Reshape(n, SetState(n, id, last), id);
  }

  lemma ReactivateKeeps(n: Net, id: string)
    requires Conserved(n)
    ensures Conserved(Reactivate(n, id))
  {
    if Reactivate(n, id) != n {
      Reshape(n, Reactivate(n, id), id);
    }
  }

  /** Bookkeeping of threads and pending restores does not touch any hold. */
  lemma Unrelated(n: Net, threads: map<string, Handoff>, restores: set<string>)
    requires Conserved(n)
    ensures Conserved(n.(threads := threads, restores := restores))
  {
    var n' := n.(threads := threads, restores := restores);
    assert forall x, u, h: nat :: Held(n', x, u, h) <==> Held(n, x, u, h);
  }

  /** What makes a supervisor forget all its sessions: a forced stop, or the end of its process. */
  ghost predicate Forgets(op: Supervision.Op) { op.Crash? || (op.DoStop? && op.force) }

  /** The router is the only client of the supervisors' sessions. */
  ghost predicate OnlyClient(a: Act) { a.Background? ==> Quiet(a.op) || Forgets(a.op) }

  /** A supervisor that has sessions forgets them. */
  ghost predicate Robs(n: Net, a: Act) {
    a.Background? && Known(n, a.service) && Forgets(a.op) && n.services[a.service].w.rec.sessions != map[]
  }

  ghost predicate Undisturbed(n: Net, acts: seq<Act>)
    decreases |acts|
  {
    acts == [] || (OnlyClient(acts[0]) && !Robs(n, acts[0]) && Undisturbed(Step(n, acts[0]), acts[1..]))
  }

  lemma StepConserves(n: Net, a: Act)
    requires Conserved(n) && OnlyClient(a) && !Robs(n, a)
    ensures Conserved(Step(n, a))
  {
    hide Conserved, DoAuthorize, DoAcquire, DoConnect, DoClose, Register, Reactivate;
    match a
    case Open(id, req, named, wanted) => OpenKeeps(n, id, req, named, wanted);
    case AuthorizeStep(id) => AuthorizeKeeps(n, id);
    case AcquireStep(id, attempts) => AcquireKeeps(n, id, attempts);
    case ConnectStep(id, ok) => ConnectKeeps(n, id, ok);
    case Close(id, reason, streamOk) => CloseKeeps(n, id, reason, streamOk);
    case Restore(child) =>
      Unrelated(n, n.threads, n.restores - {child});
      if child in n.sessions && n.sessions[child].parent.Some? {
        ReactivateKeeps(n.(restores := n.restores - {child}), n.sessions[child].parent.value);
      }
    case BeginHandoff(parent, child, target, mode) => HandoffKeeps(n, parent, child, target, mode);
    case RegisterChild(child) =>
      if child in n.threads && n.threads[child].parent in n.sessions {
        var t := n.threads[child];
        OpenKeeps(n, child, Request(t.target, ViaService, Some(n.sessions[t.parent].request.target)),
                  Some(t.parent), Some(t.mode));
      }
    case FinishHandoff(child, streamOk) =>
      if child in n.threads {
        var n1 := n.(threads := n.threads - {child});
        Unrelated(n, n.threads - {child}, n.restores);
        CloseKeeps(n1, n.threads[child].parent, HandoffReplaced, streamOk);
        ReactivateKeeps(n1, n.threads[child].parent);
      }
    case Background(v, op) => BackgroundKeeps(n, v, op);
  }

  lemma HandoffKeeps(n: Net, parent: string, child: string, target: string, mode: Mode)
    requires Conserved(n)
    ensures Conserved(DoHandoff(n, parent, child, target, mode))
  {
    if DoHandoff(n, parent, child, target, mode) != n {
      Reshape(n, DoHandoff(n, parent, child, target, mode), parent);
    }
  }

  lemma BackgroundKeeps(n: Net, v: string, op: Supervision.Op)
    requires Conserved(n) && OnlyClient(Background(v, op)) && !Robs(n, Background(v, op))
    ensures Conserved(Step(n, Background(v, op)))
  {
    hide Supervision.Step, Conserved, DoConnect, DoClose, DoAuthorize, DoAcquire, Register, DoRestore, DoHandoff,
         DoFinishHandoff, DoRegisterChild;
    if Known(n, v) {
      if Quiet(op) {
        BackgroundKeepsSessions(n.configs[v], n.services[v], op);
      } else {
        ForgettingForgets(n.configs[v], n.services[v], op);
      }
      ServiceSwap(n, v, Supervision.Step(n.configs[v], n.services[v], op).s);
    }
  }

  lemma {:induction false} RunConserves(n: Net, acts: seq<Act>)
    requires Conserved(n) && Undisturbed(n, acts)
    ensures Conserved(Run(n, acts))
    decreases |acts|
  {
    hide Conserved, Step, Robs;
    if acts != [] {
      StepConserves(n, acts[0]);
      RunConserves(Step(n, acts[0]), acts[1..]);
    }
  }

  /** Over every interleaving in which no supervisor forgets sessions it has: the sessions a supervisor knows
      are exactly the lifecycle ids that router sessions of its service hold and have not given back; sessions
      being connected, active or handing off hold one, closed and failed ones none; and no session is
      released twice. */
  lemma HoldsAreConserved(n: Net, acts: seq<Act>)
    requires Initial(n) && Undisturbed(n, acts)
    ensures var m := Run(n, acts);
            && Agree(m)
            && (forall id | id in m.sessions && m.sessions[id].state in {Connecting, Active, HandingOff} ::
                  m.sessions[id].hold.Some? && !m.sessions[id].released)
            && (forall id | id in m.sessions && m.sessions[id].state in {Closed, Failed} ::
                  m.sessions[id].hold.None? || m.sessions[id].released)
            && (forall i, j | 0 <= i < j < |m.releases| :: m.releases[i] != m.releases[j])
  {
    hide Run, Undisturbed;
    RunConserves(n, acts);
    var m := Run(n, acts);
    SidesAgree(m);
    hide Backed, Covered;
  }

  /** The two sides name the same holds. */
  ghost predicate Agree(m: Net) {
    forall v, h: nat | v in m.services ::
      h in m.services[v].w.rec.sessions <==>
      exists id | id in m.sessions :: m.sessions[id].request.target == v && m.sessions[id].hold == Some(h)
                                      && !m.sessions[id].released
  }

  lemma SidesAgree(m: Net)
    requires Covered(m) && Backed(m)
    ensures Agree(m)
  {
    forall v, h: nat | v in m.services
      ensures h in m.services[v].w.rec.sessions <==>
              exists id | id in m.sessions :: m.sessions[id].request.target == v && m.sessions[id].hold == Some(h)
                                              && !m.sessions[id].released
    {
      if h in m.services[v].w.rec.sessions {
        var id :| Held(m, id, v, h) && !m.sessions[id].released;
        assert id in m.sessions;
      }
      forall id | id in m.sessions && m.sessions[id].request.target == v && m.sessions[id].hold == Some(h)
                  && !m.sessions[id].released
        ensures h in m.services[v].w.rec.sessions
      {
        assert Held(m, id, v, h);
      }
    }
  }

  /** The hypothesis is needed: a forced stop takes the holds of sessions that are still active, and
      closing such a session then fails. */
  lemma ForcedStopTakesHolds(n: Net, id: string, h: nat, reason: Lifecycle.Hold, takes: nat, closing: Reason)
    requires id in n.sessions && n.sessions[id].state == Active && n.sessions[id].hold == Some(h)
             && !n.sessions[id].released
    requires Known(n, n.sessions[id].request.target)
    ensures var v := n.sessions[id].request.target;
            var m := Step(n, Background(v, Supervision.DoStop(true, reason, Supervision.Reply(takes, true))));
            && m.sessions == n.sessions && h !in m.services[v].w.rec.sessions
            && DoClose(m, id, closing, true).sessions[id].state == Failed
            && !DoClose(m, id, closing, true).sessions[id].released
  {
    var v := n.sessions[id].request.target;
    var s := n.services[v];
    var reply := Supervision.Reply(takes, true);
    hide Supervision.Stop, Supervision.Release;
    ForcedStopForgets(s, reason, reply);
    var t := Supervision.Stop(s, true, reason, reply).s;
    var m := n.(services := n.services[v := t]);
    assert Step(n, Background(v, Supervision.DoStop(true, reason, reply))) == m;
    hide Step;
    ReleaseSessions(m.configs[v], t, h);
    assert Supervision.Release(m.configs[v], t, h).Raise?;
    hide Supervision.Release;
  }

  lemma ForcedStopForgets(s: Supervision.Sys, reason: Lifecycle.Hold, reply: Supervision.Reply)
    ensures var t := Supervision.Stop(s, true, reason, reply).s;
            t.w.rec.sessions == map[] && t.w.nextId == s.w.nextId
  {
    hide Supervision.StopLocked;
    Frames.StopLockedOutside(Supervision.Withdraw(s, true, reason), Supervision.Requested(reason), reply);
  }

  lemma ForgettingForgets(c: Supervision.Config, s: Supervision.Sys, op: Supervision.Op)
    requires Forgets(op)
    ensures var t := Supervision.Step(c, s, op).s; t.w.rec.sessions == map[] && t.w.nextId >= s.w.nextId
  {
    hide Supervision.Stop, Supervision.Step;
    if op.DoStop? {
      ForcedStopForgets(s, op.reason, op.reply);
      StopIsStep(c, s, op);
    } else {
      CrashForgets(c, s, op);
    }
  }

  lemma StopIsStep(c: Supervision.Config, s: Supervision.Sys, op: Supervision.Op)
    requires op.DoStop?
    ensures Supervision.Step(c, s, op) == Supervision.Stop(s, op.force, op.reason, op.reply)
  {
  }

  lemma CrashForgets(c: Supervision.Config, s: Supervision.Sys, op: Supervision.Op)
    requires op.Crash?
    ensures var t := Supervision.Step(c, s, op).s; t.w.rec.sessions == map[] && t.w.nextId >= s.w.nextId
  {
    NumbersGrow(c, s, op.during);
    CrashIsReboot(c, s, op);
    hide Supervision.Step;
  }

  lemma CrashIsReboot(c: Supervision.Config, s: Supervision.Sys, op: Supervision.Op)
    requires op.Crash?
    ensures Supervision.Step(c, s, op).s
         == Supervision.Reboot(s, Supervision.Step(c, s, op.during).s, op.keep, op.downtime)
  {
  }

  /** Session numbers are never reused. */
  lemma {:induction false} NumbersGrow(c: Supervision.Config, s: Supervision.Sys, op: Supervision.Op)
    ensures Supervision.Step(c, s, op).s.w.nextId >= s.w.nextId
  {
    if Quiet(op) {
      BackgroundKeepsSessions(c, s, op);
    } else {
      match op
      case DoAcquire(attempts) => AcquireNumbers(c, s, attempts);
      case DoRelease(_) =>
      case DoStop(_, reason, reply) => ForcedStopForgets(s, reason, reply);
      case Crash(during, _, _) =>
        NumbersGrow(c, s, during);
        CrashIsReboot(c, s, op);
    }
    hide Supervision.Acquire, Supervision.Stop, SameSessions;
  }

  lemma AcquireNumbers(c: Supervision.Config, s: Supervision.Sys, attempts: seq<Supervision.Attempt>)
    ensures Supervision.Acquire(c, s, attempts).s.w.nextId >= s.w.nextId
  {
    hide Supervision.EnsureRunning;
    var sessions := s.w.rec.sessions[s.w.nextId := s.w.now];
    var s1 := s.(w := s.w.(rec := s.w.rec.(sessions := sessions), nextId := s.w.nextId + 1));
    Frames.StartsOutside(c, Supervision.AddHold(s1, Lifecycle.SessionsHold), Supervision.ForSession, attempts);
  }
}
