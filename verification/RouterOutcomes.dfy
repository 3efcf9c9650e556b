/** What the calls of the router come to, exactly, when nothing comes between their regions. */
module RouterOutcomes {
  import opened Wrappers
  import opened RouterModel
  import opened RouterAuthorization
  import Conservation = RouterConservation
  import Supervision = SupervisorModel

  // ---------------------------------------------------------------- closing

  /** The session holds its service. */
  predicate Holding(s: Session) { s.hold.Some? && !s.released }

  /** The supervisor of the session's service knows the session it holds. */
  predicate Known(n: Net, s: Session) {
    var v := s.request.target;
    v in n.services && v in n.configs && s.hold.Some? && s.hold.value in n.services[v].w.rec.sessions
  }

  /** Giving a hold back: nothing happens without one, an unknown one is refused, and a known one goes, from the
      supervisor's sessions too. */
  lemma ReleaseOutcome(n: Net, id: string)
    requires id in n.sessions
    ensures var (m, ok) := ReleaseHold(n, id); var s := n.sessions[id]; var v := s.request.target;
            && (!Holding(s) ==> ok && m == n)
            && (Holding(s) ==> (ok <==> Known(n, s)))
            && m.sessions == n.sessions[id := s.(released := s.released || (Holding(s) && ok))]
            && (Holding(s) && ok ==>
                  && m.services.Keys == n.services.Keys
                  && m.services[v].w.rec.sessions == n.services[v].w.rec.sessions - {s.hold.value}
                  && forall u | u in n.services && u != v :: m.services[u] == n.services[u])
  {
    var s := n.sessions[id];
    var v := s.request.target;
    if Holding(s) && v in n.services && v in n.configs {
      Conservation.ReleaseSessions(n.configs[v], n.services[v], s.hold.value);
      RaisedReleases(n.configs[v], n.services[v], s.hold.value);
    }
    hide Supervision.Release;
    assert n.sessions[id := s.(released := s.released)] == n.sessions;
  }

  lemma RaisedReleases(c: Supervision.Config, s: Supervision.Sys, h: nat)
    ensures h !in s.w.rec.sessions ==> Supervision.Release(c, s, h).s == s
  {
  }

  /** The locked region of a close, exactly: the session is closed if its stream closed and its hold, if it has one,
      could be given back, and has failed otherwise. */
  lemma CloseOutcome(n: Net, id: string, reason: Reason, streamOk: bool)
    requires id in n.sessions && n.sessions[id].state in {Active, HandingOff, Failed}
    ensures var m := DoClose(n, id, reason, streamOk); var s := n.sessions[id];
            var clean := streamOk && (Holding(s) ==> Known(n, s));
            && m.sessions == n.sessions[id := s.(state := if clean then Closed else Failed, reason := Some(reason),
                                                 released := s.released || (Holding(s) && Known(n, s)))]
            && m.restores == (if clean then n.restores + {id} else n.restores) && m.threads == n.threads
  {
    hide *;
    var n1 := SetState(n, id, Closing);
    SetShape(n, id, Closing);
    ReleaseOutcome(n1, id);
    ReleaseShape(n1, id);
    CloseUnfolds(n, id, reason, streamOk);
    var (n2, ok) := ReleaseHold(n1, id);
    EndedShape(n2, id, reason, streamOk && ok);
    SameHold(n, n1, n.sessions[id], n1.sessions[id]);
  }

  lemma SameHold(n: Net, n1: Net, s: Session, s1: Session)
    requires n1.services == n.services && n1.configs == n.configs
    requires s1.request == s.request && s1.hold == s.hold && s1.released == s.released
    ensures (Known(n1, s1) <==> Known(n, s)) && (Holding(s1) <==> Holding(s))
  {
  }

  lemma CloseUnfolds(n: Net, id: string, reason: Reason, streamOk: bool)
    requires id in n.sessions && n.sessions[id].state in {Active, HandingOff, Failed}
    ensures id in SetState(n, id, Closing).sessions && id in ReleaseHold(SetState(n, id, Closing), id).0.sessions
    ensures var (m, ok) := ReleaseHold(SetState(n, id, Closing), id);
            DoClose(n, id, reason, streamOk) == Ended(m, id, reason, streamOk && ok)
  {
    ReleaseShape(SetState(n, id, Closing), id);
    hide ReleaseHold, Ended;
  }

  lemma EndedShape(n: Net, id: string, reason: Reason, clean: bool)
    requires id in n.sessions
    ensures var m := Ended(n, id, reason, clean);
            && m.sessions == n.sessions[id := n.sessions[id].(state := if clean then Closed else Failed,
                                                              reason := Some(reason))]
            && m.restores == (if clean then n.restores + {id} else n.restores) && m.threads == n.threads
  {
  }

  /** The whole close of a child: if it went well and the child was to return, a parent that is still handing off is
      active again; nobody else changes. */
  lemma ChildReturns(n: Net, child: string, reason: Reason, streamOk: bool)
    requires child in n.sessions && n.sessions[child].state in {Active, HandingOff, Failed}
    ensures var m := CloseSession(n, child, reason, streamOk); var s := n.sessions[child];
            var clean := streamOk && (Holding(s) ==> Known(n, s));
            && child in m.sessions && m.sessions[child].state == (if clean then Closed else Failed)
            && m.sessions.Keys == n.sessions.Keys
            && forall p | p in n.sessions && p != child ::
                 m.sessions[p] == n.sessions[p].(state :=
                   if clean && s.mode == Some(ReturnToOrigin) && s.parent == Some(p) && p != ""
                      && n.sessions[p].state == HandingOff
                   then Active else n.sessions[p].state)
  {
    CloseOutcome(n, child, reason, streamOk);
    CloseSessionUnfolds(n, child, reason, streamOk);
    hide *;
    var m := DoClose(n, child, reason, streamOk);
    if m.sessions[child].state == Closed {
      RestoreShape(m, child);
    }
  }

  lemma CloseSessionUnfolds(n: Net, id: string, reason: Reason, streamOk: bool)
    requires id in n.sessions && n.sessions[id].state in {Active, HandingOff, Failed}
    ensures var m := DoClose(n, id, reason, streamOk);
            CloseSession(n, id, reason, streamOk) ==
              (if id in m.sessions && m.sessions[id].state == Closed then DoRestore(m, id) else m)
  {
    hide DoClose, DoRestore;
  }

  lemma RestoreShape(n: Net, child: string)
    requires child in n.sessions && child in n.restores && n.sessions[child].state == Closed
    ensures var m := DoRestore(n, child); var s := n.sessions[child];
            && m.sessions.Keys == n.sessions.Keys && m.sessions[child] == n.sessions[child]
            && forall p | p in n.sessions ::
                 m.sessions[p] == n.sessions[p].(state :=
                   if s.mode == Some(ReturnToOrigin) && s.parent == Some(p) && p != ""
                      && n.sessions[p].state == HandingOff
                   then Active else n.sessions[p].state)
  {
    var n1, s := n.(restores := n.restores - {child}), n.sessions[child];
    if s.parent.Some? {
      ReactivateShape(n1, s.parent.value);
    }
    hide Reactivate;
  }

  lemma ReactivateShape(n: Net, id: string)
    ensures var m := Reactivate(n, id);
            && m.sessions.Keys == n.sessions.Keys && m == n.(sessions := m.sessions)
            && forall p | p in n.sessions ::
                 m.sessions[p] == n.sessions[p].(state :=
                   if p == id && n.sessions[p].state == HandingOff then Active else n.sessions[p].state)
  {
  }

  // ---------------------------------------------------------------- opening

  /** What the supervisor of the target answers an opening. */
  function Acquired(n: Net, v: string, attempts: seq<Supervision.Attempt>): Supervision.Res
    requires v in n.services && v in n.configs
  {
    Supervision.Acquire(n.configs[v], n.services[v], attempts)
  }

  /** Everything an opening needs: the request is granted and comes from a live session, the supervisor knows the
      service and brings it up, and the connection is made. */
  ghost predicate Opens(n: Net, s: Session, attempts: seq<Supervision.Attempt>, reached: bool) {
    && Permitted(n.reg, s.request) && FromLive(n, s)
    && s.request.target in n.services && s.request.target in n.configs
    && Acquired(n, s.request.target, attempts).Ok? && reached
  }

  /** Session numbers that the supervisors have yet to hand out are not taken. */
  ghost predicate FreshNumbers(n: Net) {
    forall v | v in n.services :: n.services[v].w.nextId !in n.services[v].w.rec.sessions
  }

  predicate SameKin(s: Session, t: Session) { s.request == t.request && s.parent == t.parent && s.mode == t.mode }

  /** In every state the router can reach with its supervisors they are not. */
  lemma ConservedIsFresh(n: Net)
    requires Conservation.Conserved(n)
    ensures FreshNumbers(n)
  {
    hide Conservation.HoldFits, Conservation.Backed, Conservation.ReleasedOnce;
  }

  /** The regions of an opening, exactly: a session that has everything it needs is active and holds its service;
      any other has failed and holds nothing. No other session changes. */
  lemma OpeningOutcome(n: Net, id: string, attempts: seq<Supervision.Attempt>, reached: bool)
    requires id in n.sessions && n.sessions[id].state == Created && n.sessions[id].hold == None
    requires !n.sessions[id].released && !n.sessions[id].refused && FreshNumbers(n)
    ensures var m := Opening(n, id, attempts, reached); var s := n.sessions[id];
            && m.sessions.Keys == n.sessions.Keys && m.threads == n.threads && m.restores == n.restores
            && (forall x | x in n.sessions && x != id :: m.sessions[x] == n.sessions[x])
            && (Opens(n, s, attempts, reached) ==>
                  m.sessions[id] == s.(state := Active, hold := Some(n.services[s.request.target].w.nextId),
                                       rank := Some(n.activations)))
            && (!Opens(n, s, attempts, reached) ==>
                  && m.sessions[id].state == Failed && !Holding(m.sessions[id]) && m.sessions[id].rank == s.rank
                  && !m.sessions[id].refused && SameKin(m.sessions[id], s))
  {
    hide *;
    var s := n.sessions[id];
    var n1 := DoAuthorize(n, id);
    AuthorizeOutcome(n, id);
    OpeningUnfolds(n, id, attempts, reached);
    OpensIff(n, s, attempts, reached);
    if Permitted(n.reg, s.request) && FromLive(n, s) {
      SameServices(n, n1, s.request.target, attempts);
      AcquireOutcome(n1, id, attempts);
      var n2 := DoAcquire(n1, id, attempts);
      if n2.sessions[id].state == Connecting {
        ConnectOutcome(n2, id, reached);
      } else {
        StopsShort(n2, id, attempts, reached);
      }
    } else {
      StopsShort(n1, id, attempts, reached);
    }
    HoldingIs(DoAcquire(n1, id, attempts).sessions[id]);
    HoldingIs(Opening(n, id, attempts, reached).sessions[id]);
    KinIs(Opening(n, id, attempts, reached).sessions[id], s);
  }

  lemma OpensIff(n: Net, s: Session, attempts: seq<Supervision.Attempt>, reached: bool)
    ensures Opens(n, s, attempts, reached) <==>
              && Permitted(n.reg, s.request) && FromLive(n, s)
              && s.request.target in n.services && s.request.target in n.configs
              && Acquired(n, s.request.target, attempts).Ok? && reached
  {
    hide Permitted, FromLive, Acquired;
  }

  lemma HoldingIs(s: Session)
    ensures Holding(s) <==> s.hold.Some? && !s.released
  {
  }

  lemma KinIs(s: Session, t: Session)
    ensures SameKin(s, t) <==> s.request == t.request && s.parent == t.parent && s.mode == t.mode
  {
  }

  lemma SameServices(n: Net, n1: Net, v: string, attempts: seq<Supervision.Attempt>)
    requires n1.services == n.services && n1.configs == n.configs
    ensures FreshNumbers(n1) <==> FreshNumbers(n)
    ensures v in n.services && v in n.configs ==> Acquired(n1, v, attempts) == Acquired(n, v, attempts)
  {
    hide Supervision.Acquire;
  }

  lemma OpeningUnfolds(n: Net, id: string, attempts: seq<Supervision.Attempt>, reached: bool)
    ensures Opening(n, id, attempts, reached) == DoConnect(DoAcquire(DoAuthorize(n, id), id, attempts), id, reached)
  {
    hide DoConnect, DoAcquire, DoAuthorize;
  }

  /** The later regions leave a session alone that has failed. */
  lemma StopsShort(n: Net, id: string, attempts: seq<Supervision.Attempt>, reached: bool)
    requires id in n.sessions && n.sessions[id].state == Failed
    ensures DoAcquire(n, id, attempts) == n && DoConnect(n, id, reached) == n
  {
  }

  lemma AcquireOutcome(n: Net, id: string, attempts: seq<Supervision.Attempt>)
    requires id in n.sessions && n.sessions[id].state == Acquiring && FreshNumbers(n)
    ensures var m := DoAcquire(n, id, attempts); var s := n.sessions[id]; var v := s.request.target;
            var ok := v in n.services && v in n.configs && Acquired(n, v, attempts).Ok?;
            && m.threads == n.threads && m.restores == n.restores && m.activations == n.activations
            && m.configs == n.configs
            && m.sessions == n.sessions[id := if ok then s.(state := Connecting, hold := Some(n.services[v].w.nextId))
                                              else s.(state := Failed, reason := Some(OpenFailed))]
            && (ok ==> Known(m, m.sessions[id]))
  {
    hide *;
    var s := n.sessions[id];
    var v := s.request.target;
    AcquireUnfolds(n, id, attempts);
    FailedIs(n, id);
    if v in n.services && v in n.configs {
      NextIsFresh(n, v);
      Conservation.AcquireSessions(n.configs[v], n.services[v], attempts);
      var n1 := n.(services := n.services[v := Acquired(n, v, attempts).s]);
      FailedIs(n1, id);
      GrantedIs(n1, id, n.services[v].w.nextId);
      AcquiredIs(n, v, attempts);
      KnownIs(Granted(n1, id, n.services[v].w.nextId), s.(state := Connecting, hold := Some(n.services[v].w.nextId)));
    }
  }

  lemma AcquireUnfolds(n: Net, id: string, attempts: seq<Supervision.Attempt>)
    requires id in n.sessions && n.sessions[id].state == Acquiring
    ensures var v := n.sessions[id].request.target;
            DoAcquire(n, id, attempts) ==
              if v !in n.services || v !in n.configs then OpenFailure(n, id)
              else
                var r := Acquired(n, v, attempts);
                var n1 := n.(services := n.services[v := r.s]);
                if r.Raise? then OpenFailure(n1, id) else Granted(n1, id, n.services[v].w.nextId)
  {
    hide Supervision.Acquire, OpenFailure, Granted;
  }

  lemma FailedIs(n: Net, id: string)
    requires id in n.sessions
    ensures OpenFailure(n, id)
         == n.(sessions := n.sessions[id := n.sessions[id].(state := Failed, reason := Some(OpenFailed))])
  {
  }

  lemma GrantedIs(n: Net, id: string, lease: nat)
    requires id in n.sessions
    ensures Granted(n, id, lease)
         == n.(sessions := n.sessions[id := n.sessions[id].(state := Connecting, hold := Some(lease))])
  {
  }

  lemma NextIsFresh(n: Net, v: string)
    requires FreshNumbers(n) && v in n.services
    ensures n.services[v].w.nextId !in n.services[v].w.rec.sessions
  {
  }

  lemma AcquiredIs(n: Net, v: string, attempts: seq<Supervision.Attempt>)
    requires v in n.services && v in n.configs
    ensures Acquired(n, v, attempts) == Supervision.Acquire(n.configs[v], n.services[v], attempts)
  {
    hide Supervision.Acquire;
  }

  lemma KnownIs(n: Net, s: Session)
    ensures var v := s.request.target;
            Known(n, s) <==>
              v in n.services && v in n.configs && s.hold.Some? && s.hold.value in n.services[v].w.rec.sessions
  {
  }

  lemma ConnectOutcome(n: Net, id: string, reached: bool)
    requires id in n.sessions && n.sessions[id].state == Connecting && !n.sessions[id].refused
    ensures var m := DoConnect(n, id, reached); var s := n.sessions[id];
            && m.threads == n.threads && m.restores == n.restores
            && (reached ==> m.sessions == n.sessions[id := s.(state := Active, rank := Some(n.activations))])
            && (!reached && (Holding(s) ==> Known(n, s)) ==>
                  m.sessions == n.sessions[id := s.(state := Failed, reason := Some(OpenFailed),
                                                    released := s.released || Holding(s))])
  {
    hide *;
    ReleaseOutcome(n, id);
    ReleaseShape(n, id);
    ConnectUnfolds(n, id, reached);
    FailedIs(ReleaseHold(n, id).0, id);
  }

  lemma ConnectUnfolds(n: Net, id: string, reached: bool)
    requires id in n.sessions && n.sessions[id].state == Connecting && !n.sessions[id].refused
    ensures id in ReleaseHold(n, id).0.sessions
    ensures DoConnect(n, id, reached).threads == n.threads && DoConnect(n, id, reached).restores == n.restores
    ensures var (m, ok) := ReleaseHold(n, id);
            if reached
            then DoConnect(n, id, reached) == n.(sessions := n.sessions[id := n.sessions[id].(
                                                   state := Active, rank := Some(n.activations))],
                                                 activations := n.activations + 1)
            else ok ==> DoConnect(n, id, reached) == OpenFailure(m, id)
  {
    ReleaseShape(n, id);
    hide ReleaseHold, OpenFailure, Refused;
  }

  /** `open_session`, exactly: a new id gives a session with that request and parent, which is active if it has
      everything it needs and has failed otherwise; a known id raises and changes nothing. */
  lemma OpenOutcome(n: Net, id: string, req: Request, parent: Option<string>, mode: Option<Mode>,
                    attempts: seq<Supervision.Attempt>, reached: bool)
    requires FreshNumbers(n)
    ensures var m := OpenSession(n, id, req, parent, mode, attempts, reached);
            var s := Session(req, parent, mode, Created, None, false, false, None, None);
            && (id in n.sessions ==> m == n)
            && (id !in n.sessions ==>
                  && m.sessions.Keys == n.sessions.Keys + {id} && m.threads == n.threads && m.restores == n.restores
                  && (forall x | x in n.sessions :: m.sessions[x] == n.sessions[x])
                  && (Opens(n, s, attempts, reached) ==>
                        m.sessions[id] == s.(state := Active, hold := Some(n.services[req.target].w.nextId),
                                             rank := Some(n.activations)))
                  && (!Opens(n, s, attempts, reached) ==>
                        && m.sessions[id].state == Failed && !Holding(m.sessions[id]) && m.sessions[id].rank == None
                        && SameKin(m.sessions[id], s)))
  {
    hide Opening, Opens, Holding;
    if id !in n.sessions {
      var n1 := Register(n, id, req, parent, mode);
      OpeningOutcome(n1, id, attempts, reached);
      NewIsOrphan(n, n1, id, attempts, reached);
    }
  }

  /** Whether the new session opens depends on nothing but what was there before. */
  lemma NewIsOrphan(n: Net, n1: Net, id: string, attempts: seq<Supervision.Attempt>, reached: bool)
    requires id !in n.sessions && id in n1.sessions && n1 == n.(sessions := n.sessions[id := n1.sessions[id]])
    requires n1.sessions[id].state == Created
    ensures Opens(n1, n1.sessions[id], attempts, reached) <==> Opens(n, n1.sessions[id], attempts, reached)
  {
    hide Permitted, Supervision.Acquire;
  }

  // ---------------------------------------------------------------- handing off

  /** What the parent's service and the policy say about a handoff, and what supervisor and connection make of it. */
  ghost predicate HandsOff(n: Net, p: string, target: string, attempts: seq<Supervision.Attempt>, reached: bool)
    requires p in n.sessions
  {
    var origin := n.sessions[p].request.target;
    && p != "" && target in n.reg && !n.reg[target].adminOnly
    && origin != "" && origin in n.reg && origin in n.reg[target].viaBbs
    && target in n.services && target in n.configs && Acquired(n, target, attempts).Ok? && reached
  }

  /** `handoff` from an active session, exactly: the child asks for a via route to the target with the parent's
      service as its origin. If the target lists that service, its supervisor grants and the connection is made,
      the child is active, and the parent waits for it or was closed in its favour. Otherwise the child has
      failed and the parent is active again. */
  lemma HandOffOutcome(n: Net, p: string, child: string, target: string, mode: Mode,
                       attempts: seq<Supervision.Attempt>, reached: bool, streamOk: bool)
    requires p in n.sessions && n.sessions[p].state == Active && child !in n.sessions && child !in n.threads
    requires FreshNumbers(n)
    ensures var m := HandOff(n, p, child, target, mode, attempts, reached, streamOk); var q := n.sessions[p];
            var opens := HandsOff(n, p, target, attempts, reached);
            && p in m.sessions && child in m.sessions && m.threads == n.threads
            && m.sessions[child].request == Request(target, ViaService, Some(q.request.target))
            && m.sessions[child].parent == Some(p) && m.sessions[child].mode == Some(mode)
            && m.sessions[child].state == (if opens then Active else Failed)
            && (!opens ==> m.sessions[p] == q)
            && (opens && mode == ReturnToOrigin ==> m.sessions[p] == q.(state := HandingOff))
            && (opens && mode == Replace ==>
                  m.sessions[p].state in {Closed, Failed} && m.sessions[p].reason == Some(HandoffReplaced))
  {
    hide *;
    var req := Request(target, ViaService, Some(n.sessions[p].request.target));
    var s := Session(req, Some(p), Some(mode), Created, None, false, false, None, None);
    var n2 := Lent(n, p, child, target, mode);
    LentIs(n, p, child, target, mode);
    HandOffUnfolds(n, p, child, target, mode, attempts, reached, streamOk);
    SameServices(n, n2, target, attempts);
    OpeningOutcome(n2, child, attempts, reached);
    LentOpens(n, p, child, target, mode, attempts, reached);
    var n3 := Opening(n2, child, attempts, reached);
    KinIs(n3.sessions[child], s);
    if HandsOff(n, p, target, attempts, reached) {
      EndOpened(n3, p, child, mode, streamOk);
    } else {
      EndFailed(n3, p, child, mode, streamOk);
    }
  }

  /** The net with the parent lent and the child registered. */
  function Lent(n: Net, p: string, child: string, target: string, mode: Mode): Net
    requires p in n.sessions && n.sessions[p].state == Active && child !in n.sessions
  {
    var req := Request(target, ViaService, Some(n.sessions[p].request.target));
    n.(threads := n.threads[child := Handoff(p, mode, target)],
       sessions := n.sessions[p := n.sessions[p].(state := HandingOff)]
                   [child := Session(req, Some(p), Some(mode), Created, None, false, false, None, None)])
  }

  lemma LentIs(n: Net, p: string, child: string, target: string, mode: Mode)
    requires p in n.sessions && n.sessions[p].state == Active && child !in n.sessions && child !in n.threads
    ensures DoRegisterChild(DoHandoff(n, p, child, target, mode), child) == Lent(n, p, child, target, mode)
    ensures var n2 := Lent(n, p, child, target, mode);
            && p in n2.sessions && child in n2.sessions && n2.services == n.services && n2.configs == n.configs
            && n2.threads == n.threads[child := Handoff(p, mode, target)] && n2.threads - {child} == n.threads
            && n2.sessions[p] == n.sessions[p].(state := HandingOff)
            && n2.sessions[child] == Session(Request(target, ViaService, Some(n.sessions[p].request.target)), Some(p),
                                             Some(mode), Created, None, false, false, None, None)
  {
    assert n.threads[child := Handoff(p, mode, target)] - {child} == n.threads;
  }

  lemma HandOffUnfolds(n: Net, p: string, child: string, target: string, mode: Mode,
                       attempts: seq<Supervision.Attempt>, reached: bool, streamOk: bool)
    requires p in n.sessions && n.sessions[p].state == Active && child !in n.sessions && child !in n.threads
    ensures HandOff(n, p, child, target, mode, attempts, reached, streamOk)
         == HandoffEnd(Opening(Lent(n, p, child, target, mode), child, attempts, reached), p, child, mode, streamOk)
  {
    LentIs(n, p, child, target, mode);
    hide HandoffEnd, Opening, Lent, DoRegisterChild, DoHandoff;
  }

  lemma LentOpens(n: Net, p: string, child: string, target: string, mode: Mode,
                  attempts: seq<Supervision.Attempt>, reached: bool)
    requires p in n.sessions && n.sessions[p].state == Active && child !in n.sessions
    requires child in Lent(n, p, child, target, mode).sessions
    ensures var n2 := Lent(n, p, child, target, mode);
            Opens(n2, n2.sessions[child], attempts, reached) <==> HandsOff(n, p, target, attempts, reached)
  {
    hide Supervision.Acquire;
  }

  lemma EndOpened(n: Net, p: string, child: string, mode: Mode, streamOk: bool)
    requires p in n.sessions && child in n.sessions && child != p && child in n.threads
    requires n.threads[child].parent == p && n.threads[child].mode == mode
    requires n.sessions[child].rank.Some? && n.sessions[child].state == Active && n.sessions[p].state == HandingOff
    ensures var m := HandoffEnd(n, p, child, mode, streamOk);
            && p in m.sessions && child in m.sessions && m.threads == n.threads - {child}
            && m.sessions[child] == n.sessions[child]
            && (mode == ReturnToOrigin ==> m.sessions[p] == n.sessions[p])
            && (mode == Replace ==>
                  m.sessions[p].state in {Closed, Failed} && m.sessions[p].reason == Some(HandoffReplaced))
  {
    var n1 := n.(threads := n.threads - {child});
    CloseOutcome(n1, p, HandoffReplaced, streamOk);
    var n2 := DoClose(n1, p, HandoffReplaced, streamOk);
    if n2.sessions[p].state == Closed {
      RestoreShape(n2, p);
    }
    hide DoClose, DoRestore, Known, Holding;
  }

  lemma EndFailed(n: Net, p: string, child: string, mode: Mode, streamOk: bool)
    requires p in n.sessions && child in n.sessions && child != p && child in n.threads
    requires n.threads[child].parent == p && n.threads[child].mode == mode
    requires n.sessions[child].rank.None? && n.sessions[child].state == Failed && n.sessions[p].state == HandingOff
    ensures var m := HandoffEnd(n, p, child, mode, streamOk);
            && p in m.sessions && child in m.sessions && m.threads == n.threads - {child}
            && m.sessions[child] == n.sessions[child] && m.sessions[p] == n.sessions[p].(state := Active)
  {
    hide DoClose, DoRestore;
  }

  // ---------------------------------------------------------------- refusals

  /** Calls that are refused change nothing: a close of a session that is unknown, being opened, or already closed,
      and a handoff from a session that is unknown or not active. */
  lemma RefusedChangesNothing(n: Net, id: string, reason: Reason, streamOk: bool, child: string, target: string,
                              mode: Mode, attempts: seq<Supervision.Attempt>, reached: bool)
    ensures id !in n.sessions || n.sessions[id].state !in {Active, HandingOff, Failed} ==>
              CloseSession(n, id, reason, streamOk) == n
    ensures id !in n.sessions || n.sessions[id].state != Active ==>
              HandOff(n, id, child, target, mode, attempts, reached, streamOk) == n
  {
    hide Opening, HandoffEnd, Wrapped, DoRestore;
  }
}
