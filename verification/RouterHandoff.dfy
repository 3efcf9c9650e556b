/** Handoffs: a parent is lent to at most one child, and is active only while it is lent to none. */
module RouterHandoff {
  import opened Wrappers
  import opened RouterModel
  import Supervision = SupervisorModel

  /** A handoff thread whose child is not active yet: it will activate the child or reactivate the parent. */
  ghost predicate Waiting(n: Net, c: string) {
    c in n.threads && (c in n.sessions ==> n.sessions[c].rank.None?)
  }

  /** A child that was activated and will reactivate its parent when it has closed. */
  ghost predicate Returning(n: Net, c: string) {
    && c in n.sessions && n.sessions[c].rank.Some? && n.sessions[c].mode == Some(ReturnToOrigin)
    && (n.sessions[c].state == Closed ==> c in n.restores)
  }

  /** A handoff thread that is about to close the parent its active child replaces. */
  ghost predicate Replacing(n: Net, c: string) {
    c in n.threads && c in n.sessions && n.sessions[c].rank.Some? && n.threads[c].mode == Replace
  }

  ghost predicate ReturningTo(n: Net, c: string, p: string) { Returning(n, c) && n.sessions[c].parent == Some(p) }

  ghost predicate WaitingFor(n: Net, c: string, p: string) { Waiting(n, c) && n.threads[c].parent == p }

  /** `c` still has a claim on the parent `p`. */
  ghost predicate Owes(n: Net, c: string, p: string) {
    WaitingFor(n, c, p) || (Replacing(n, c) && n.threads[c].parent == p) || ReturningTo(n, c, p)
  }

  ghost predicate ThreadFits(n: Net, c: string) {
    c in n.threads && c in n.sessions ==>
      n.sessions[c].parent == Some(n.threads[c].parent) && n.sessions[c].mode == Some(n.threads[c].mode)
  }

  ghost predicate RankFits(n: Net, c: string) {
    c in n.sessions ==>
      var s := n.sessions[c];
      && (s.state in {Active, HandingOff} ==> s.rank.Some?)
      && (s.state in {Created, Authorizing, Acquiring, Connecting} ==> s.rank.None?)
      && (s.refused ==> s.state == Connecting)
      && (s.mode.Some? && s.rank.None? ==> c in n.threads || s.state in {Failed, Closed} || s.refused)
  }

  ghost predicate Lent(n: Net) {
    && (forall c, p | Owes(n, c, p) :: p in n.sessions && n.sessions[p].rank.Some? && n.sessions[p].state != Active)
    && (forall c, d, p | Owes(n, c, p) && Owes(n, d, p) :: c == d)
    && (forall c :: ThreadFits(n, c))
    && (forall c :: RankFits(n, c))
    && (forall c | c in n.restores :: c in n.sessions && n.sessions[c].state == Closed)
  }

  /** One session changes, keeping its family and its rank; no claim is made or settled by it. */
  lemma Reshape(n: Net, n': Net, id: string)
    requires Lent(n) && id in n.sessions && n'.sessions.Keys == n.sessions.Keys
    requires forall x | x in n.sessions && x != id :: n'.sessions[x] == n.sessions[x]
    requires n'.threads == n.threads
    requires var s, s' := n.sessions[id], n'.sessions[id];
             && s'.parent == s.parent && s'.mode == s.mode && s'.rank == s.rank
             && (s'.state == Active ==> s.state == Active)
             && (s.state == Closed ==> s'.state == Closed && n'.restores == n.restores)
             && (s'.state == Closed && s.state != Closed ==> id in n'.restores)
             && (s'.state in {Active, HandingOff} ==> s.rank.Some?)
             && (s'.state in {Created, Authorizing, Acquiring, Connecting} ==> s.rank.None?)
             && s'.state != Closing
             && (s.mode.Some? && s.rank.None? && id !in n.threads ==> s'.state in {Failed, Closed} || s'.refused)
             && (s'.refused ==> s'.state == Connecting)
    requires n.restores <= n'.restores <= n.restores + {id} && (id in n'.restores ==> n'.sessions[id].state == Closed)
    ensures Lent(n')
  {
    ReshapeClaims(n, n', id);
    ReshapeFits(n, n', id);
    hide Owes, ThreadFits, RankFits;
  }

  lemma ReshapeClaims(n: Net, n': Net, id: string)
    requires id in n.sessions && id in n'.sessions && n'.sessions == n.sessions[id := n'.sessions[id]]
             && n'.threads == n.threads
    requires var s, s' := n.sessions[id], n'.sessions[id];
             && s'.parent == s.parent && s'.mode == s.mode && s'.rank == s.rank
                && (s.state == Closed ==> s'.state == Closed)
    requires n'.restores <= n.restores + (if n.sessions[id].state == Closed then {} else {id})
    ensures forall c, p :: Owes(n', c, p) ==> Owes(n, c, p)
  {
  }

  lemma ReshapeFits(n: Net, n': Net, id: string)
    requires id in n.sessions && id in n'.sessions && n'.sessions == n.sessions[id := n'.sessions[id]]
             && n'.threads == n.threads
    requires (forall c :: ThreadFits(n, c)) && (forall c :: RankFits(n, c))
    requires n'.sessions[id].parent == n.sessions[id].parent && n'.sessions[id].mode == n.sessions[id].mode
             && RankFits(n', id)
    ensures (forall c :: ThreadFits(n', c)) && (forall c :: RankFits(n', c))
  {
    forall c ensures ThreadFits(n', c) && RankFits(n', c) {
      assert ThreadFits(n, c) && RankFits(n, c);
    }
  }

  lemma OpenKeeps(n: Net, id: string, req: Request, parent: Option<string>, mode: Option<Mode>)
    requires Lent(n)
    requires if id in n.threads then parent == Some(n.threads[id].parent) && mode == Some(n.threads[id].mode)
             else mode == None
    ensures Lent(Register(n, id, req, parent, mode))
  {
    var n' := Register(n, id, req, parent, mode);
    if id !in n.sessions {
      forall c, p ensures Owes(n', c, p) <==> Owes(n, c, p) {
      }
      forall c ensures ThreadFits(n', c) && RankFits(n', c) {
        assert ThreadFits(n, c) && RankFits(n, c);
      }
    }
  }

  lemma SetupKeeps(n: Net, id: string, n': Net)
    requires Lent(n) && id in n.sessions && n.sessions[id].state in {Created, Acquiring, Connecting}
    requires n.sessions[id].rank.None? && !n.sessions[id].refused
    requires n'.threads == n.threads && n'.restores == n.restores && id in n'.sessions
    requires n'.sessions == n.sessions[id := n'.sessions[id]]
    requires var s, s' := n.sessions[id], n'.sessions[id];
             && s'.parent == s.parent && s'.mode == s.mode && s'.rank == None
             && s'.state in {Acquiring, Connecting, Failed}
             && (s'.refused ==> s'.state == Connecting)
    ensures Lent(n')
  {
    assert RankFits(n, id);
    Reshape(n, n', id);
  }

  lemma AuthorizeKeeps(n: Net, id: string)
    requires Lent(n)
    ensures Lent(DoAuthorize(n, id))
  {
    if id in n.sessions && n.sessions[id].state == Created {
      assert RankFits(n, id);
      AuthorizeShape(n, id);
      hide DoAuthorize, Lent;
      SetupKeeps(n, id, DoAuthorize(n, id));
    }
  }

  lemma AcquireKeeps(n: Net, id: string, attempts: seq<Supervision.Attempt>)
    requires Lent(n)
    ensures Lent(DoAcquire(n, id, attempts))
  {
    if id in n.sessions && n.sessions[id].state == Acquiring {
      assert RankFits(n, id);
      AcquireShape(n, id, attempts);
      hide DoAcquire, Lent;
      SetupKeeps(n, id, DoAcquire(n, id, attempts));
    }
  }

  lemma ConnectKeeps(n: Net, id: string, ok: bool)
    requires Lent(n)
    ensures Lent(DoConnect(n, id, ok))
  {
    if id in n.sessions && n.sessions[id].state == Connecting && !n.sessions[id].refused {
      assert RankFits(n, id);
      if ok {
        ActivateKeeps(n, id);
      } else {
        ConnectShape(n, id);
        hide DoConnect, Lent;
        SetupKeeps(n, id, DoConnect(n, id, ok));
      }
    }
  }

  /** A session that becomes active: its own claim changes form, and nobody had a claim on it. */
  lemma ActivateKeeps(n: Net, id: string)
    requires Lent(n) && id in n.sessions && n.sessions[id].state == Connecting && n.sessions[id].rank.None?
    requires !n.sessions[id].refused
    ensures Lent(DoConnect(n, id, true))
  {
    var n' := DoConnect(n, id, true);
    ActivateShape(n, id);
    hide DoConnect;
    assert RankFits(n, id) && ThreadFits(n, id);
    forall c, p ensures Owes(n', c, p) ==> Owes(n, c, p) && p != id {
      if Owes(n', c, p) {
        assert c != id ==> (Waiting(n', c) <==> Waiting(n, c));
        assert Owes(n, c, p);
      }
    }
    forall c ensures ThreadFits(n', c) && RankFits(n', c) {
      assert ThreadFits(n, c) && RankFits(n, c);
    }
  }

  lemma CloseKeeps(n: Net, id: string, reason: Reason, streamOk: bool)
    requires Lent(n)
    ensures Lent(DoClose(n, id, reason, streamOk))
  {
    if id in n.sessions && n.sessions[id].state in {Active, HandingOff, Failed} {
      CloseShape(n, id, reason, streamOk);
      assert RankFits(n, id) && id !in n.restores;
      var n' := DoClose(n, id, reason, streamOk);
      hide DoClose;
      Reshape(n, n', id);
    }
  }

  /** Settling the claim of `child` makes no other claim. */
  ghost predicate Settled(n: Net, n1: Net, child: string) {
    && n1.sessions == n.sessions
    && n1.threads.Keys <= n.threads.Keys && n.threads.Keys - {child} <= n1.threads.Keys
    && (forall c | c in n1.threads :: n1.threads[c] == n.threads[c])
    && n.restores - {child} <= n1.restores <= n.restores
    && (forall p :: !Owes(n1, child, p)) && RankFits(n1, child)
  }

  lemma SettledClaims(n: Net, n1: Net, child: string, c: string, p: string)
    requires Settled(n, n1, child) && Owes(n1, c, p)
    ensures c != child && Owes(n, c, p)
  {
  }

  lemma ReactivatedClaims(n1: Net, parent: string, c: string, p: string)
    requires Owes(Reactivate(n1, parent), c, p)
    ensures Owes(n1, c, p)
  {
  }

  lemma ReactivatedFits(n: Net, n1: Net, child: string, parent: string, c: string)
    requires Lent(n) && Settled(n, n1, child)
    ensures ThreadFits(Reactivate(n1, parent), c) && RankFits(Reactivate(n1, parent), c)
  {
    assert ThreadFits(n, c) && RankFits(n, c);
    assert Settled(n, n1, child);
    hide Owes, Lent;
    SettledFits(n, n1, child, c);
    hide Settled;
  }

  lemma SettledFits(n: Net, n1: Net, child: string, c: string)
    requires Settled(n, n1, child) && ThreadFits(n, c) && RankFits(n, c)
    ensures ThreadFits(n1, c) && RankFits(n1, c)
  {
    hide Owes;
    assert c != child ==> (c in n1.threads <==> c in n.threads);
  }

  /** The parent gets its session back from the only child that had a claim on it, and that claim is gone. */
  lemma ReactivateKeeps(n: Net, n1: Net, child: string, parent: string)
    requires Lent(n) && Owes(n, child, parent) && Settled(n, n1, child)
    ensures Lent(Reactivate(n1, parent))
  {
    var n' := Reactivate(n1, parent);
    forall c, p | Owes(n', c, p) ensures Owes(n, c, p) && p != parent {
      ReactivatedClaims(n1, parent, c, p);
      SettledClaims(n, n1, child, c, p);
    }
    forall c ensures ThreadFits(n', c) && RankFits(n', c) {
      ReactivatedFits(n, n1, child, parent, c);
    }
    hide Owes, Settled, ThreadFits, RankFits;
  }

  /** A closed child whose opening had failed is about to restore a parent that is handing off: to this
      child, whose own thread will reactivate it, or to another one. */
  ghost predicate Stray(n: Net, child: string) {
    && child in n.restores && child in n.sessions
    && var s := n.sessions[child];
       && s.mode == Some(ReturnToOrigin) && s.rank.None? && s.parent.Some? && s.parent.value != ""
       && s.parent.value in n.sessions && n.sessions[s.parent.value].state == HandingOff
  }

  lemma RestoreKeeps(n: Net, child: string)
    requires Lent(n) && !Stray(n, child)
    ensures Lent(DoRestore(n, child))
  {
    if child in n.restores && child in n.sessions {
      var s := n.sessions[child];
      var n1 := n.(restores := n.restores - {child});
      ForgetKeeps(n, n1, child);
      if s.mode == Some(ReturnToOrigin) && s.parent.Some? && s.parent.value != "" && s.rank.Some? {
        SettlesByRestore(n, child);
        ReactivateKeeps(n, n1, child, s.parent.value);
      }
    }
  }

  lemma SettlesByRestore(n: Net, child: string)
    requires Lent(n) && child in n.restores && child in n.sessions
    requires var s := n.sessions[child]; s.mode == Some(ReturnToOrigin) && s.parent.Some? && s.rank.Some?
    ensures Owes(n, child, n.sessions[child].parent.value) && Settled(n, n.(restores := n.restores - {child}), child)
  {
    assert RankFits(n, child) && ThreadFits(n, child);
  }

  /** Forgetting a pending restore only settles claims. */
  lemma ForgetKeeps(n: Net, n1: Net, child: string)
    requires Lent(n) && n1 == n.(restores := n.restores - {child})
    ensures Lent(n1)
  {
    forall c, p ensures Owes(n1, c, p) ==> Owes(n, c, p) {
    }
    forall c ensures ThreadFits(n1, c) && RankFits(n1, c) {
      assert ThreadFits(n, c) && RankFits(n, c);
    }
  }

  lemma HandoffKeeps(n: Net, parent: string, child: string, target: string, mode: Mode)
    requires Lent(n)
    ensures Lent(DoHandoff(n, parent, child, target, mode))
  {
    var n' := DoHandoff(n, parent, child, target, mode);
    if n' != n {
      forall c, p ensures Owes(n', c, p) <==> Owes(n, c, p) || (c == child && p == parent) {
        assert c != child ==> (Waiting(n', c) <==> Waiting(n, c)) && (Replacing(n', c) <==> Replacing(n, c));
      }
      assert RankFits(n, parent);
      forall c ensures ThreadFits(n', c) && RankFits(n', c) {
        assert ThreadFits(n, c) && RankFits(n, c);
      }
    }
  }

  lemma FinishKeeps(n: Net, child: string, streamOk: bool)
    requires Lent(n)
    ensures Lent(DoFinishHandoff(n, child, streamOk))
  {
    if child in n.threads && child in n.sessions {
      var t := n.threads[child];
      var n1 := n.(threads := n.threads - {child});
      assert RankFits(n, child) && ThreadFits(n, child);
      if n.sessions[child].rank.Some? {
        EndThreadKeeps(n, n1, child);
        CloseKeeps(n1, t.parent, HandoffReplaced, streamOk);
      } else if n.sessions[child].state in {Failed, Closed} || n.sessions[child].refused {
        assert Waiting(n, child);
        ReactivateKeeps(n, n1, child, t.parent);
      }
    }
  }

  lemma EndThreadKeeps(n: Net, n1: Net, child: string)
    requires Lent(n) && child in n.sessions && n.sessions[child].rank.Some?
    requires n1 == n.(threads := n.threads - {child})
    ensures Lent(n1)
  {
    forall c, p ensures Owes(n1, c, p) ==> Owes(n, c, p) {
    }
    forall c ensures ThreadFits(n1, c) && RankFits(n1, c) {
      assert ThreadFits(n, c) && RankFits(n, c);
    }
  }

  /** Handoff modes come only from `handoff`, and no open-failed child restores a parent that is handing
      off. Closing such a child is not excluded. */
  ghost predicate Proper(n: Net, a: Act) { FromHandoff(a) && !(a.Restore? && Stray(n, a.child)) }

  ghost predicate FromHandoff(a: Act) { a.Open? ==> a.wanted == None }

  lemma StepKeeps(n: Net, a: Act)
    requires Lent(n) && Proper(n, a)
    ensures Lent(Step(n, a))
  {
    hide Lent, DoConnect, DoClose, Register, DoRestore, DoHandoff, DoFinishHandoff, Supervision.Step;
    match a
    case Open(id, req, named, wanted) =>
      if id !in n.threads {
        OpenKeeps(n, id, req, named, wanted);
      }
    case AuthorizeStep(id) => AuthorizeKeeps(n, id);
    case AcquireStep(id, attempts) => AcquireKeeps(n, id, attempts);
    case ConnectStep(id, ok) => ConnectKeeps(n, id, ok);
    case Close(id, reason, streamOk) => CloseKeeps(n, id, reason, streamOk);
    case Restore(child) => RestoreKeeps(n, child);
    case BeginHandoff(parent, child, target, mode) => HandoffKeeps(n, parent, child, target, mode);
    case RegisterChild(child) =>
      if child in n.threads && n.threads[child].parent in n.sessions {
        var t := n.threads[child];
        OpenKeeps(n, child, Request(t.target, ViaService, Some(n.sessions[t.parent].request.target)),
                  Some(t.parent), Some(t.mode));
      }
    case FinishHandoff(child, streamOk) => FinishKeeps(n, child, streamOk);
    case Background(v, op) =>
      if v in n.services && v in n.configs {
        ServiceKeeps(n, v, Supervision.Step(n.configs[v], n.services[v], op).s);
      }
  }

  lemma ServiceKeeps(n: Net, v: string, s: Supervision.Sys)
    requires Lent(n)
    ensures Lent(n.(services := n.services[v := s]))
  {
    var n' := n.(services := n.services[v := s]);
    forall c, p ensures Owes(n', c, p) <==> Owes(n, c, p) {
    }
    forall c ensures ThreadFits(n', c) && RankFits(n', c) {
      assert ThreadFits(n, c) && RankFits(n, c);
    }
  }

  // ---------------------------------------------------------------- the theorems

  ghost predicate ProperRun(n: Net, acts: seq<Act>)
    decreases |acts|
  {
    acts == [] || (Proper(n, acts[0]) && ProperRun(Step(n, acts[0]), acts[1..]))
  }

  lemma {:induction false} RunKeeps(n: Net, acts: seq<Act>)
    requires Lent(n) && ProperRun(n, acts)
    ensures Lent(Run(n, acts))
    decreases |acts|
  {
    hide Lent, Step;
    if acts != [] {
      StepKeeps(n, acts[0]);
      RunKeeps(Step(n, acts[0]), acts[1..]);
    }
  }

  /** Over every interleaving: an active session has no child that will still return to it, and no session
      ever has two; nor a handoff thread besides. */
  lemma HandoffIsExclusive(n: Net, acts: seq<Act>)
    requires Initial(n) && ProperRun(n, acts)
    ensures var m := Run(n, acts);
            && (forall c, p | ReturningTo(m, c, p) :: p in m.sessions && m.sessions[p].state != Active)
            && (forall c, d, p | ReturningTo(m, c, p) && ReturningTo(m, d, p) :: c == d)
            && (forall c, d, p | WaitingFor(m, c, p) && ReturningTo(m, d, p) :: c == d)
  {
    StartsLent(n);
    RunKeeps(n, acts);
    hide Run, ProperRun, Initial, ThreadFits, RankFits, ReturningTo, WaitingFor;
    var m := Run(n, acts);
    assert forall c, p | ReturningTo(m, c, p) || WaitingFor(m, c, p) :: Owes(m, c, p);
  }

  lemma StartsLent(n: Net)
    requires Initial(n)
    ensures Lent(n)
  {
  }

  /** Nothing revives a session that is closing, closed or failed: a session becomes active only from its
      own opening, or from a handoff it is in. */
  lemma NoRevival(n: Net, a: Act, p: string)
    requires p in n.sessions && n.sessions[p].state != Active
    requires p in Step(n, a).sessions && Step(n, a).sessions[p].state == Active
    ensures n.sessions[p].state in {Connecting, HandingOff}
  {
    hide DoConnect, DoClose, DoFinishHandoff, DoAcquire, DoAuthorize, Supervision.Step;
    match a
    case AuthorizeStep(id) => AuthorizeRevives(n, id, p);
    case AcquireStep(id, attempts) => AcquireRevives(n, id, attempts, p);
    case ConnectStep(id, ok) => ConnectRevives(n, id, ok, p);
    case Close(id, reason, streamOk) => CloseRevivesNobody(n, id, reason, streamOk, p);
    case FinishHandoff(child, streamOk) => FinishRevives(n, child, streamOk, p);
    case Restore(child) =>
    case BeginHandoff(parent, child, target, mode) =>
    case _ => hide DoRestore, DoHandoff;
  }

  lemma AuthorizeRevives(n: Net, id: string, p: string)
    requires p in n.sessions && n.sessions[p].state != Active
    ensures p in DoAuthorize(n, id).sessions && DoAuthorize(n, id).sessions[p].state != Active
  {
    hide Authorize, OriginIsLive;
  }

  lemma AcquireRevives(n: Net, id: string, attempts: seq<Supervision.Attempt>, p: string)
    requires p in n.sessions && n.sessions[p].state != Active
    ensures p in DoAcquire(n, id, attempts).sessions && DoAcquire(n, id, attempts).sessions[p].state != Active
  {
    hide Supervision.Acquire;
  }

  lemma FinishRevives(n: Net, child: string, streamOk: bool, p: string)
    requires p in n.sessions && n.sessions[p].state != Active
    requires p in DoFinishHandoff(n, child, streamOk).sessions
             && DoFinishHandoff(n, child, streamOk).sessions[p].state == Active
    ensures n.sessions[p].state == HandingOff
  {
    hide DoClose;
    CloseRevivesNobody(n.(threads := n.threads - {child}), n.threads[child].parent, HandoffReplaced, streamOk, p);
  }

  lemma ConnectRevives(n: Net, id: string, ok: bool, p: string)
    requires p in n.sessions && n.sessions[p].state != Active
    requires p in DoConnect(n, id, ok).sessions && DoConnect(n, id, ok).sessions[p].state == Active
    ensures n.sessions[p].state == Connecting
  {
    if id in n.sessions {
      ReleaseShape(n, id);
    }
    hide ReleaseHold;
  }

  lemma CloseRevivesNobody(n: Net, id: string, reason: Reason, streamOk: bool, p: string)
    requires p in n.sessions && n.sessions[p].state != Active
    ensures p in DoClose(n, id, reason, streamOk).sessions
            && DoClose(n, id, reason, streamOk).sessions[p].state != Active
  {
    if id in n.sessions && n.sessions[id].state in {Active, HandingOff, Failed} {
      CloseShape(n, id, reason, streamOk);
    }
  }

  ghost predicate Over(n: Net, p: string) { p in n.sessions && n.sessions[p].state in {Closed, Failed} }

  /** A session that is closed or has failed is never active again, whatever happens. */
  lemma {:induction false} EndedStaysEnded(n: Net, acts: seq<Act>, p: string)
    requires Over(n, p)
    ensures Over(Run(n, acts), p)
    decreases |acts|
  {
    hide Over, Step;
    if acts != [] {
      StepStaysEnded(n, acts[0], p);
      EndedStaysEnded(Step(n, acts[0]), acts[1..], p);
    }
  }

  lemma StepStaysEnded(n: Net, a: Act, p: string)
    requires Over(n, p)
    ensures Over(Step(n, a), p)
  {
    hide DoConnect, DoClose, DoFinishHandoff, DoAcquire, DoAuthorize, Supervision.Step;
    match a
    case AuthorizeStep(id) => AuthorizeStaysEnded(n, id, p);
    case AcquireStep(id, attempts) => AcquireStaysEnded(n, id, attempts, p);
    case ConnectStep(id, ok) => ConnectStaysEnded(n, id, ok, p);
    case Close(id, reason, streamOk) => CloseStaysEnded(n, id, reason, streamOk, p);
    case FinishHandoff(child, streamOk) => FinishStaysEnded(n, child, streamOk, p);
    case Restore(child) =>
    case BeginHandoff(parent, child, target, mode) =>
    case _ => hide DoRestore, DoHandoff;
  }

  lemma AuthorizeStaysEnded(n: Net, id: string, p: string)
    requires Over(n, p)
    ensures Over(DoAuthorize(n, id), p)
  {
    hide Authorize, OriginIsLive;
  }

  lemma AcquireStaysEnded(n: Net, id: string, attempts: seq<Supervision.Attempt>, p: string)
    requires Over(n, p)
    ensures Over(DoAcquire(n, id, attempts), p)
  {
    hide Supervision.Acquire;
  }

  lemma ConnectStaysEnded(n: Net, id: string, ok: bool, p: string)
    requires Over(n, p)
    ensures Over(DoConnect(n, id, ok), p)
  {
    if id in n.sessions {
      ReleaseShape(n, id);
    }
    hide ReleaseHold;
  }

  lemma CloseStaysEnded(n: Net, id: string, reason: Reason, streamOk: bool, p: string)
    requires Over(n, p)
    ensures Over(DoClose(n, id, reason, streamOk), p)
  {
    if id in n.sessions && n.sessions[id].state in {Active, HandingOff, Failed} {
      CloseShape(n, id, reason, streamOk);
    }
  }

  lemma FinishStaysEnded(n: Net, child: string, streamOk: bool, p: string)
    requires Over(n, p)
    ensures Over(DoFinishHandoff(n, child, streamOk), p)
  {
    hide DoClose;
    if child in n.threads {
      CloseStaysEnded(n.(threads := n.threads - {child}), n.threads[child].parent, HandoffReplaced, streamOk, p);
    }
  }

  lemma {:induction false} RunInTwo(n: Net, first: seq<Act>, second: seq<Act>)
    ensures Run(n, first + second) == Run(Run(n, first), second)
    decreases |first|
  {
    hide Step;
    if first == [] {
      assert first + second == second;
    } else {
      assert (first + second)[1..] == first[1..] + second;
      RunInTwo(Step(n, first[0]), first[1..], second);
    }
  }

  lemma ChildRegistered(n: Net, p: string, child: string, denied: string)
    requires p in n.sessions && n.sessions[p].state == Active && child !in n.sessions && child !in n.threads
    ensures var m := Step(Step(n, BeginHandoff(p, child, denied, ReturnToOrigin)), RegisterChild(child));
            && m.sessions.Keys == n.sessions.Keys + {child} && m.reg == n.reg
            && m.threads == n.threads[child := Handoff(p, ReturnToOrigin, denied)] && m.sessions[p].state == HandingOff
            && m.sessions[child].request.target == denied && m.sessions[child].state == Created
            && m.sessions[child].hold == None && m.sessions[child].rank == None
            && m.sessions[child].parent == Some(p) && m.sessions[child].mode == Some(ReturnToOrigin)
  {
  }

  lemma ChildDenied(m: Net, p: string, child: string)
    requires p in m.sessions && m.sessions[p].state == HandingOff && child in m.sessions && child != p
    requires m.sessions[child].state == Created && m.sessions[child].rank == None
    requires m.sessions[child].request.target !in m.reg && child in m.threads && m.threads[child].parent == p
    ensures var k := Step(Step(m, AuthorizeStep(child)), FinishHandoff(child, true));
            && k.sessions.Keys == m.sessions.Keys && k.threads == m.threads - {child} && k.sessions[p].state == Active
            && k.sessions[child] == m.sessions[child].(state := Failed, reason := Some(OpenFailed))
  {
    var m1 := Step(m, AuthorizeStep(child));
    assert m1.sessions[child] == m.sessions[child].(state := Failed, reason := Some(OpenFailed));
    assert m1.sessions[p] == m.sessions[p];
    hide DoClose, Authorize;
  }

  /** A handoff to an unknown service: the parent is active again and a failed child is left. */
  lemma DeniedHandoff(n: Net, p: string, child: string, denied: string)
    requires p in n.sessions && n.sessions[p].state == Active && denied !in n.reg
    requires child !in n.sessions && child !in n.threads
    ensures var m := Step(Step(Step(Step(n, BeginHandoff(p, child, denied, ReturnToOrigin)), RegisterChild(child)),
                               AuthorizeStep(child)), FinishHandoff(child, true));
            && m.sessions.Keys == n.sessions.Keys + {child} && m.threads == n.threads && m.sessions[p].state == Active
            && m.sessions[child].state == Failed && m.sessions[child].hold == None
            && m.sessions[child].parent == Some(p) && m.sessions[child].mode == Some(ReturnToOrigin)
  {
    hide Step;
    ChildRegistered(n, p, child, denied);
    var m := Step(Step(n, BeginHandoff(p, child, denied, ReturnToOrigin)), RegisterChild(child));
    ChildDenied(m, p, child);
    assert m.threads - {child} == n.threads;
  }

  lemma LateClose(n: Net, p: string, child: string, other: string, target: string)
    requires p in n.sessions && n.sessions[p].state == Active && p != ""
    requires child in n.sessions && child != p && n.sessions[child].state == Failed && n.sessions[child].hold == None
    requires n.sessions[child].parent == Some(p) && n.sessions[child].mode == Some(ReturnToOrigin)
    requires other !in n.sessions && other !in n.threads
    ensures var m := Step(Step(Step(n, BeginHandoff(p, other, target, ReturnToOrigin)),
                               Close(child, CallerClosed, true)), Restore(child));
            p in m.sessions && m.sessions[p].state == Active && WaitingFor(m, other, p)
  {
    hide DoClose, DoRestore;
    var n1 := Step(n, BeginHandoff(p, other, target, ReturnToOrigin));
    LentTo(n, p, other, target);
    hide DoHandoff;
    CloseShape(n1, child, CallerClosed, true);
    FreeClose(n1, child, CallerClosed);
    RestoresParent(DoClose(n1, child, CallerClosed, true), p, child, other);
  }

  lemma LentTo(n: Net, p: string, other: string, target: string)
    requires p in n.sessions && n.sessions[p].state == Active && other !in n.sessions && other !in n.threads
    ensures var n1 := DoHandoff(n, p, other, target, ReturnToOrigin);
            && n1.sessions == n.sessions[p := n.sessions[p].(state := HandingOff)] && other in n1.threads
            && n1.threads[other].parent == p
  {
  }

  lemma RestoresParent(n: Net, p: string, child: string, other: string)
    requires child in n.restores && child in n.sessions && p in n.sessions && p != ""
             && n.sessions[p].state == HandingOff
    requires n.sessions[child].parent == Some(p) && n.sessions[child].mode == Some(ReturnToOrigin)
    requires other in n.threads && other !in n.sessions && n.threads[other].parent == p
    ensures var m := DoRestore(n, child); p in m.sessions && m.sessions[p].state == Active && WaitingFor(m, other, p)
  {
  }

  /** Nothing can go wrong in closing a session without a stream or a hold. */
  lemma FreeClose(n: Net, id: string, reason: Reason)
    requires id in n.sessions && n.sessions[id].state == Failed
             && (n.sessions[id].hold.None? || n.sessions[id].released)
    ensures id in DoClose(n, id, reason, true).sessions && DoClose(n, id, reason, true).sessions[id].state == Closed
  {
    assert ReleaseHold(SetState(n, id, Closing), id) == (SetState(n, id, Closing), true);
    hide ReleaseHold;
  }

  /** Why closing a failed handoff child is excluded: a denied handoff, a second handoff, and the late close
      of the first child make the parent active while its second child is on the way. */
  lemma FailedChildRevivesParent(n: Net, p: string, c1: string, c2: string, denied: string)
    requires p in n.sessions && n.sessions[p].state == Active && p != "" && denied !in n.reg
    requires c1 !in n.sessions && c2 !in n.sessions && c1 !in n.threads && c2 !in n.threads && c1 != c2
    ensures var first := [BeginHandoff(p, c1, denied, ReturnToOrigin), RegisterChild(c1), AuthorizeStep(c1),
                          FinishHandoff(c1, true)];
            var second := [BeginHandoff(p, c2, denied, ReturnToOrigin), Close(c1, CallerClosed, true), Restore(c1)];
            var m := Run(n, first + second);
            p in m.sessions && m.sessions[p].state == Active && WaitingFor(m, c2, p)
  {
    hide Step, WaitingFor;
    var first := [BeginHandoff(p, c1, denied, ReturnToOrigin), RegisterChild(c1), AuthorizeStep(c1),
                  FinishHandoff(c1, true)];
    var second := [BeginHandoff(p, c2, denied, ReturnToOrigin), Close(c1, CallerClosed, true), Restore(c1)];
    DeniedHandoff(n, p, c1, denied);
    RunFour(n, first);
    var m := Run(n, first);
    LateClose(m, p, c1, c2, denied);
    RunThree(m, second);
    RunInTwo(n, first, second);
  }

  lemma RunThree(n: Net, acts: seq<Act>)
    requires |acts| == 3
    ensures Run(n, acts) == Step(Step(Step(n, acts[0]), acts[1]), acts[2])
  {
    hide Step;
    var n1 := Step(n, acts[0]);
    var n2 := Step(n1, acts[1]);
    assert Run(n, acts) == Run(n1, acts[1..]);
    assert Run(n1, acts[1..]) == Run(n2, acts[1..][1..]);
    assert acts[1..][1..] == [acts[2]] && [acts[2]][1..] == [];
    assert Run(n2, [acts[2]]) == Run(Step(n2, acts[2]), []);
  }

  lemma RunFour(n: Net, acts: seq<Act>)
    requires |acts| == 4
    ensures Run(n, acts) == Step(Step(Step(Step(n, acts[0]), acts[1]), acts[2]), acts[3])
  {
    hide Step;
    RunThree(Step(n, acts[0]), acts[1..]);
  }
}
