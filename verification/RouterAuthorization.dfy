/** Authorization is anchored: every active session hangs on a chain of allowed hops from a public one. */
module RouterAuthorization {
  import opened Wrappers
  import opened RouterModel
  import Supervision = SupervisorModel

  /** Open to everybody: on the main menu, directly allowed and not reserved to administrators. */
  predicate Public(reg: Registry, v: string) {
    v in reg && reg[v].mainMenu && reg[v].directAllowed && !reg[v].adminOnly
  }

  /** A request the policy grants: for a known service that is not reserved to administrators, directly without an
      origin if it is public, or by way of a known service that it lists as an origin, public or not. */
  predicate Permitted(reg: Registry, req: Request) {
    && req.target in reg && !reg[req.target].adminOnly
    && match req.route
       case Direct => req.origin == None && Public(reg, req.target)
       case ViaService =>
         && req.origin.Some? && req.origin.value != "" && req.origin.value in reg
         && req.origin.value in reg[req.target].viaBbs
  }

  lemma AuthorizesIff(reg: Registry, req: Request)
    ensures Authorize(reg, req).None? <==> Permitted(reg, req)
  {
  }

  /** A via request comes from a session that is live at this moment, of the service it claims as origin. */
  predicate FromLive(n: Net, s: Session) {
    s.request.route == ViaService ==>
      && s.parent.Some? && s.parent.value != "" && s.parent.value in n.sessions
      && n.sessions[s.parent.value].state in {Active, HandingOff}
      && s.request.origin == Some(n.sessions[s.parent.value].request.target)
  }

  /** The session may be reached: its request was granted, and through a session of the claimed origin that was
      live. */
  ghost predicate Cleared(n: Net, id: string) {
    id in n.sessions &&
    var s := n.sessions[id];
    && Permitted(n.reg, s.request)
    && (s.request.route == ViaService ==>
          s.parent.Some? && s.parent.value in n.sessions && n.sessions[s.parent.value].rank.Some?
          && s.request.origin == Some(n.sessions[s.parent.value].request.target))
  }

  ghost predicate Fits(n: Net, id: string) {
    id in n.sessions ==>
      var s := n.sessions[id];
      && (s.state in {Acquiring, Connecting} || s.rank.Some? ==> Cleared(n, id))
      && (s.state in {Active, HandingOff} ==> s.rank.Some?)
      && (s.state in {Created, Authorizing, Acquiring, Connecting} ==> s.rank.None?)
      && (s.rank.Some? ==> s.rank.value < n.activations
                           && (s.request.route == ViaService ==>
                                 n.sessions[s.parent.value].rank.value < s.rank.value))
  }

  ghost predicate Anchored(n: Net) { forall id :: Fits(n, id) }

  /** Sessions stay, with their request and parent; a rank once given stays. */
  ghost predicate Grows(n: Net, n': Net) {
    && n'.reg == n.reg && n.activations <= n'.activations
    && forall id | id in n.sessions ::
         && id in n'.sessions
         && n'.sessions[id].request == n.sessions[id].request && n'.sessions[id].parent == n.sessions[id].parent
         && (n.sessions[id].rank.Some? ==> n'.sessions[id].rank == n.sessions[id].rank)
  }

  lemma ClearedStays(n: Net, n': Net, id: string)
    requires Grows(n, n') && Cleared(n, id)
    ensures Cleared(n', id)
  {
  }

  /** A step that activates nobody and starts no acquisition. */
  lemma Plain(n: Net, n': Net)
    requires Anchored(n) && Grows(n, n')
    requires forall id | id in n'.sessions ::
               if id in n.sessions
               then n'.sessions[id].rank == n.sessions[id].rank
                    && SmallMove(n.sessions[id].state, n'.sessions[id].state)
               else n'.sessions[id].rank == None && n'.sessions[id].state == Created
    ensures Anchored(n')
  {
    forall id ensures Fits(n', id) {
      assert Fits(n, id);
      if Cleared(n, id) {
        ClearedStays(n, n', id);
      }
    }
  }

  ghost predicate SmallMove(before: State, after: State) {
    || after == before || after in {Closing, Closed, Failed}
    || (after == Connecting && before == Acquiring)
    || (after in {Active, HandingOff} && before in {Active, HandingOff})
  }

  /** One session moves on, without being activated or cleared. */
  lemma OneMoves(n: Net, n': Net, id: string)
    requires Anchored(n) && id in n.sessions && id in n'.sessions && n'.sessions == n.sessions[id := n'.sessions[id]]
    requires n'.reg == n.reg && n'.activations == n.activations
    requires var s, s' := n.sessions[id], n'.sessions[id];
             s'.request == s.request && s'.parent == s.parent && s'.rank == s.rank && SmallMove(s.state, s'.state)
    ensures Anchored(n') && Grows(n, n')
  {
    hide Anchored;
    Plain(n, n');
  }

  /** Nothing happens to sessions. */
  lemma NoneMoves(n: Net, n': Net)
    requires Anchored(n) && n'.sessions == n.sessions && n'.reg == n.reg && n'.activations == n.activations
    ensures Anchored(n') && Grows(n, n')
  {
    hide Anchored;
    Plain(n, n');
  }

  lemma OpenKeeps(n: Net, id: string, req: Request, parent: Option<string>, mode: Option<Mode>)
    requires Anchored(n)
    ensures Anchored(Register(n, id, req, parent, mode)) && Grows(n, Register(n, id, req, parent, mode))
  {
    hide Anchored;
    Plain(n, Register(n, id, req, parent, mode));
  }

  /** What authorization does to a session, exactly: it goes on if its request is granted and comes from a live
      session, and fails otherwise; no other session changes. */
  lemma AuthorizeOutcome(n: Net, id: string)
    requires id in n.sessions && n.sessions[id].state == Created
    ensures var n' := DoAuthorize(n, id); var s := n.sessions[id];
            && n' == n.(sessions := n.sessions[id := n'.sessions[id]])
            && n'.sessions[id] == (if Permitted(n.reg, s.request) && FromLive(n, s) then s.(state := Acquiring)
                                   else s.(state := Failed, reason := Some(OpenFailed)))
  {
    hide Authorize, Permitted, OriginIsLive, FromLive;
    var s, n1 := n.sessions[id], SetState(n, id, Authorizing);
    AuthorizesIff(n.reg, s.request);
    OriginIsFrom(n, id);
    assert n1.sessions[id := s.(state := Acquiring)] == n.sessions[id := s.(state := Acquiring)];
    assert n1.sessions[id := s.(state := Failed, reason := Some(OpenFailed))]
        == n.sessions[id := s.(state := Failed, reason := Some(OpenFailed))];
  }

  lemma OriginIsFrom(n: Net, id: string)
    requires id in n.sessions && n.sessions[id].state == Created
    ensures var s := n.sessions[id]; OriginIsLive(SetState(n, id, Authorizing), s.request, s.parent) <==> FromLive(n, s)
  {
  }

  /** A session that goes on is cleared: whoever is live was active before. */
  lemma PermittedIsCleared(n: Net, id: string)
    requires id in n.sessions && n.sessions[id].state == Created && (forall x :: Fits(n, x))
    requires Permitted(n.reg, n.sessions[id].request) && FromLive(n, n.sessions[id])
    ensures Cleared(n, id)
  {
    hide Permitted;
    var s := n.sessions[id];
    if s.parent.Some? {
      assert Fits(n, s.parent.value);
    }
  }

  lemma AuthorizeKeeps(n: Net, id: string)
    requires Anchored(n)
    ensures Anchored(DoAuthorize(n, id)) && Grows(n, DoAuthorize(n, id))
  {
    if id in n.sessions && n.sessions[id].state == Created {
      assert Fits(n, id) && n.sessions[id].rank.None?;
      AuthorizeOutcome(n, id);
      var n' := DoAuthorize(n, id);
      if Permitted(n.reg, n.sessions[id].request) && FromLive(n, n.sessions[id]) {
        PermittedIsCleared(n, id);
      }
      hide DoAuthorize, Cleared, Permitted, FromLive;
      assert Grows(n, n');
      hide Grows, Fits;
      forall x ensures Fits(n', x) {
        assert Fits(n, x);
        MovedFits(n, n', id, x);
      }
    }
  }

  /** A session that failed or was cleared leaves every session fitting. */
  lemma MovedFits(n: Net, n': Net, id: string, x: string)
    requires Grows(n, n') && Fits(n, x) && id in n.sessions && n'.sessions.Keys == n.sessions.Keys
    requires forall y | y in n.sessions && y != id :: n'.sessions[y] == n.sessions[y]
    requires n.sessions[id].rank.None? && n'.sessions[id].rank.None?
    requires n'.sessions[id].state == Failed || (n'.sessions[id].state == Acquiring && Cleared(n, id))
    ensures Fits(n', x)
  {
    hide Cleared;
    if Cleared(n, x) {
      ClearedStays(n, n', x);
    }
    hide Grows;
  }

  lemma ActivateKeeps(n: Net, id: string)
    requires Anchored(n) && id in n.sessions && n.sessions[id].state == Connecting && n.sessions[id].rank.None?
    ensures Anchored(DoConnect(n, id, true)) && Grows(n, DoConnect(n, id, true))
  {
    var n' := DoConnect(n, id, true);
    assert Fits(n, id);
    forall x ensures Fits(n', x) {
      assert Fits(n, x);
      if x in n.sessions && n.sessions[x].parent.Some? {
        assert Fits(n, n.sessions[x].parent.value);
      }
      if Cleared(n, x) {
        ClearedStays(n, n', x);
      }
    }
  }

  lemma AcquireKeeps(n: Net, id: string, attempts: seq<Supervision.Attempt>)
    requires Anchored(n)
    ensures Anchored(DoAcquire(n, id, attempts)) && Grows(n, DoAcquire(n, id, attempts))
  {
    hide Anchored, Grows;
    if id in n.sessions && n.sessions[id].state == Acquiring {
      hide DoAcquire;
      AcquireShape(n, id, attempts);
      OneMoves(n, DoAcquire(n, id, attempts), id);
    } else {
      NoneMoves(n, n);
    }
  }

  lemma ConnectKeeps(n: Net, id: string, ok: bool)
    requires Anchored(n)
    ensures Anchored(DoConnect(n, id, ok)) && Grows(n, DoConnect(n, id, ok))
  {
    if id in n.sessions && n.sessions[id].state == Connecting {
      assert Fits(n, id);
      hide Anchored, Grows;
      if ok && !n.sessions[id].refused {
        ActivateKeeps(n, id);
      } else {
        if n.sessions[id].refused {
          NoneMoves(n, n);
        } else {
          ConnectShape(n, id);
          hide DoConnect;
          OneMoves(n, DoConnect(n, id, ok), id);
        }
      }
    }
  }

  /** Closing changes the state of one session, to closed or failed. */
  lemma CloseKeeps(n: Net, id: string, reason: Reason, streamOk: bool)
    requires Anchored(n)
    ensures Anchored(DoClose(n, id, reason, streamOk)) && Grows(n, DoClose(n, id, reason, streamOk))
  {
    if id in n.sessions && n.sessions[id].state in {Active, HandingOff, Failed} {
      CloseShape(n, id, reason, streamOk);
      hide DoClose, Anchored, Grows;
      OneMoves(n, DoClose(n, id, reason, streamOk), id);
    } else {
      NoneMoves(n, n);
    }
  }

  lemma ReactivateKeeps(n: Net, id: string)
    requires Anchored(n)
    ensures Anchored(Reactivate(n, id)) && Grows(n, Reactivate(n, id))
  {
    hide Anchored, Grows;
    if Reactivate(n, id) != n {
      OneMoves(n, Reactivate(n, id), id);
    } else {
      NoneMoves(n, n);
    }
  }

  lemma GrowsOn(n: Net, n1: Net, n2: Net)
    requires Grows(n, n1) && Grows(n1, n2)
    ensures Grows(n, n2)
  {
  }

  lemma StepKeeps(n: Net, a: Act)
    requires Anchored(n)
    ensures Anchored(Step(n, a)) && Grows(n, Step(n, a))
  {
    hide DoAuthorize, DoAcquire, DoConnect, DoClose, Reactivate, Register, Supervision.Step, Anchored, Grows;
    NoneMoves(n, n);
    match a
    case Open(id, req, named, wanted) => OpenKeeps(n, id, req, named, wanted);
    case AuthorizeStep(id) => AuthorizeKeeps(n, id);
    case AcquireStep(id, attempts) => AcquireKeeps(n, id, attempts);
    case ConnectStep(id, ok) => ConnectKeeps(n, id, ok);
    case Close(id, reason, streamOk) => CloseKeeps(n, id, reason, streamOk);
    case Restore(child) =>
      var n1 := n.(restores := n.restores - {child});
      NoneMoves(n, n1);
      if child in n.sessions && n.sessions[child].parent.Some? {
        ReactivateKeeps(n1, n.sessions[child].parent.value);
        GrowsOn(n, n1, Reactivate(n1, n.sessions[child].parent.value));
      }
    case BeginHandoff(parent, child, target, mode) =>
      if Step(n, a) != n {
        OneMoves(n, Step(n, a), parent);
      }
    case RegisterChild(child) =>
      if child in n.threads && n.threads[child].parent in n.sessions {
        var t := n.threads[child];
        OpenKeeps(n, child, Request(t.target, ViaService, Some(n.sessions[t.parent].request.target)),
                  Some(t.parent), Some(t.mode));
      }
    case FinishHandoff(child, streamOk) =>
      if child in n.threads {
        var n1 := n.(threads := n.threads - {child});
        var parent := n.threads[child].parent;
        NoneMoves(n, n1);
        CloseKeeps(n1, parent, HandoffReplaced, streamOk);
        ReactivateKeeps(n1, parent);
        GrowsOn(n, n1, DoClose(n1, parent, HandoffReplaced, streamOk));
        GrowsOn(n, n1, Reactivate(n1, parent));
      }
    case Background(v, op) => NoneMoves(n, Step(n, a));
  }

  lemma {:induction false} RunKeeps(n: Net, acts: seq<Act>)
    requires Anchored(n)
    ensures Anchored(Run(n, acts)) && Grows(n, Run(n, acts))
    decreases |acts|
  {
    hide Step;
    if acts != [] {
      StepKeeps(n, acts[0]);
      RunKeeps(Step(n, acts[0]), acts[1..]);
      GrowsOn(n, Step(n, acts[0]), Run(n, acts));
    }
  }

  // ---------------------------------------------------------------- the theorem

  /** A session reached through a parent whose service its target lists as an origin. */
  ghost predicate Hop(n: Net, child: string, parent: string) {
    && child in n.sessions && parent in n.sessions
    && var s, p := n.sessions[child], n.sessions[parent];
       && s.request.route == ViaService && s.parent == Some(parent)
       && s.request.target in n.reg && !n.reg[s.request.target].adminOnly
       && p.request.target in n.reg[s.request.target].viaBbs
  }

  /** `path` leads from a session through its ancestors to a direct session on a public service; every hop
      was made from an active session of a service that the hop's target lists as its origin. */
  ghost predicate Chain(n: Net, path: seq<string>) {
    && path != []
    && (forall i | 0 <= i < |path| :: path[i] in n.sessions && n.sessions[path[i]].rank.Some?)
    && (forall i | 0 <= i < |path| - 1 :: Hop(n, path[i], path[i + 1]))
    && (var last := n.sessions[path[|path| - 1]];
        last.request.route == Direct && Public(n.reg, last.request.target))
  }

  lemma {:induction false} ChainExists(n: Net, id: string) returns (path: seq<string>)
    requires Anchored(n) && id in n.sessions && n.sessions[id].rank.Some?
    ensures Chain(n, path) && path[0] == id
    decreases n.sessions[id].rank.value
  {
    var s := n.sessions[id];
    assert Fits(n, id);
    if s.request.route == Direct {
      path := [id];
    } else {
      var rest := ChainExists(n, s.parent.value);
      path := [id] + rest;
      assert Hop(n, id, s.parent.value);
      hide Hop, Fits;
      assert forall i | 0 < i < |path| :: path[i] == rest[i - 1];
      forall i | 0 <= i < |path| - 1 ensures Hop(n, path[i], path[i + 1]) {
        assert i > 0 ==> Hop(n, rest[i - 1], rest[i]);
      }
    }
  }

  /** Over every interleaving: every session that is active, or ever was, has a finite chain of parents
      ending in a direct session on a public service. */
  lemma ActiveSessionsAreAnchored(n: Net, acts: seq<Act>, more: seq<Act>, id: string)
    requires Initial(n)
    requires id in Run(n, acts).sessions && Run(n, acts).sessions[id].state == Active
    ensures exists path :: Chain(Run(Run(n, acts), more), path) && path[0] == id
  {
    assert Anchored(n);
    RunKeeps(n, acts);
    var m := Run(n, acts);
    assert Fits(m, id);
    RunKeeps(m, more);
    var path := ChainExists(Run(m, more), id);
  }

  /** Holding on to the policy alone is not enough: a granted via request says nothing about its origin
      session, which is why `open_session` also asks for a live one. */
  lemma LiveOriginIsRequired(n: Net, id: string)
    requires id in n.sessions && n.sessions[id].state == Created && n.sessions[id].request.route == ViaService
    requires var p := n.sessions[id].parent;
             p.None? || p.value !in n.sessions || n.sessions[p.value].state !in {Active, HandingOff}
             || n.sessions[id].request.origin != Some(n.sessions[p.value].request.target)
    ensures DoAuthorize(n, id).sessions[id].state == Failed
  {
    hide Authorize;
  }
}
