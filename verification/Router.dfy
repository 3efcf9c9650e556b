/** The router as the object it is: a table of session objects over the supervisors, updated in place.
    Every locked region, and every uninterrupted call made of such regions, does what RouterModel says. */
module Router {
  import opened Wrappers
  import Model = RouterModel
  import Supervision = SupervisorModel
  import Supervisors = Supervisor

  /** What a transfer on the stream met. */
  datatype Met = Data | EndOfStream | Failure

  /** One transient session. `refused` and `rank` are histories. */
  class Session {
    const request: Model.Request
    const parent: Option<string>
    const mode: Option<Model.Mode>
    var state: Model.State
    var hold: Option<nat>
    var released: bool
    var reason: Option<Model.Reason>
    ghost var refused: bool
    ghost var rank: Option<nat>

    ghost function Value(): Model.Session
      reads this
    {
      Model.Session(request, parent, mode, state, hold, released, refused, reason, rank)
    }

    constructor (req: Model.Request, p: Option<string>, m: Option<Model.Mode>)
      ensures Value() == Model.Session(req, p, m, Model.Created, None, false, false, None, None)
    {
      request, parent, mode := req, p, m;
      state, hold, released, refused, reason, rank := Model.Created, None, false, false, None, None;
    }

    /** `_transition`: an illegal move raises and changes nothing. */
    method Transition(to_: Model.State) returns (ok: bool)
      modifies this`state
      ensures ok == Model.Legal(old(state), to_) && state == if ok then to_ else old(state)
    {
      ok := Model.Legal(state, to_);
      if ok {
        state := to_;
      }
    }
  }

  lemma CloseSessionSplits(n: Model.Net, id: string, reason: Model.Reason, streamOk: bool)
    ensures var n1 := Model.DoClose(n, id, reason, streamOk);
            Model.CloseSession(n, id, reason, streamOk) ==
              if id in n.sessions && n.sessions[id].state in {Model.Active, Model.HandingOff, Model.Failed}
                 && id in n1.sessions && n1.sessions[id].state == Model.Closed
              then Model.DoRestore(n1, id)
              else if id in n.sessions && n.sessions[id].state in {Model.Active, Model.HandingOff, Model.Failed} then n1
              else n
  {
    hide Model.DoRestore, Model.Wrapped;
  }

  /** Only one session is written. */
  ghost predicate OnlyMoves(n: Model.Net, n': Model.Net, id: string) {
    id in n'.sessions && n'.sessions == n.sessions[id := n'.sessions[id]] && n'.threads == n.threads
  }

  lemma AuthorizeMoves(n: Model.Net, id: string)
    requires id in n.sessions && n.sessions[id].state == Model.Created
    ensures var n' := Model.DoAuthorize(n, id);
            && OnlyMoves(n, n', id) && n'.sessions[id].rank == n.sessions[id].rank
            && n'.sessions[id].state in {Model.Acquiring, Model.Failed}
  {
    hide Model.OriginIsLive, Model.Authorize;
  }

  lemma AcquireMoves(n: Model.Net, id: string, attempts: seq<Supervision.Attempt>)
    requires id in n.sessions && n.sessions[id].state in {Model.Acquiring, Model.Failed}
    ensures var n' := Model.DoAcquire(n, id, attempts);
            && OnlyMoves(n, n', id) && n'.sessions[id].rank == n.sessions[id].rank
            && n'.sessions[id].state in {Model.Connecting, Model.Failed}
  {
    hide Supervision.Acquire;
  }

  lemma ConnectMoves(n: Model.Net, id: string, reached: bool)
    requires id in n.sessions && n.sessions[id].state in {Model.Connecting, Model.Failed} && n.sessions[id].rank.None?
    ensures var n' := Model.DoConnect(n, id, reached);
            && OnlyMoves(n, n', id) && (n'.sessions[id].rank.Some? <==> n'.sessions[id].state == Model.Active)
            && (n'.sessions[id].state in {Model.Active, Model.Failed} || n'.sessions[id].refused)
  {
    hide Supervision.Release;
  }

  /** An opening ends active, failed or refused, and touches no other session. */
  lemma OpeningEnds(n: Model.Net, id: string, attempts: seq<Supervision.Attempt>, reached: bool)
    requires id in n.sessions && n.sessions[id].state == Model.Created && n.sessions[id].rank.None?
    ensures var n' := Model.Opening(n, id, attempts, reached);
            && OnlyMoves(n, n', id) && (n'.sessions[id].rank.Some? <==> n'.sessions[id].state == Model.Active)
            && (n'.sessions[id].state in {Model.Active, Model.Failed} || n'.sessions[id].refused)
  {
    hide Model.DoAuthorize, Model.DoAcquire, Model.DoConnect;
    var n1 := Model.DoAuthorize(n, id);
    AuthorizeMoves(n, id);
    var n2 := Model.DoAcquire(n1, id, attempts);
    AcquireMoves(n1, id, attempts);
    var n3 := Model.DoConnect(n2, id, reached);
    ConnectMoves(n2, id, reached);
    assert Model.Opening(n, id, attempts, reached) == n3;
    hide OnlyMoves;
    MovesCompose(n, n1, n2, id);
    MovesCompose(n, n2, n3, id);
  }

  lemma MovesCompose(n: Model.Net, n1: Model.Net, n2: Model.Net, id: string)
    requires OnlyMoves(n, n1, id) && OnlyMoves(n1, n2, id)
    ensures OnlyMoves(n, n2, id) && id in n1.sessions && id in n2.sessions
  {
  }

  lemma AcquireSplits(n: Model.Net, id: string, attempts: seq<Supervision.Attempt>)
    requires id in n.sessions && n.sessions[id].state == Model.Acquiring
    ensures var v := n.sessions[id].request.target;
            Model.DoAcquire(n, id, attempts) ==
              if v !in n.services || v !in n.configs then Model.OpenFailure(n, id)
              else
                var r := Supervision.Acquire(n.configs[v], n.services[v], attempts);
                var n1 := n.(services := n.services[v := r.s]);
                if r.Raise? then Model.OpenFailure(n1, id) else Model.Granted(n1, id, n.services[v].w.nextId)
  {
    hide Supervision.Acquire, Model.OpenFailure, Model.Granted;
  }

  lemma ReleaseSplits(n: Model.Net, id: string)
    requires id in n.sessions
    ensures var s := n.sessions[id];
            var v := s.request.target;
            Model.ReleaseHold(n, id) ==
              if s.hold.None? || s.released then (n, true)
              else if v !in n.services || v !in n.configs then (n, false)
              else
                var r := Supervision.Release(n.configs[v], n.services[v], s.hold.value);
                var n1 := n.(services := n.services[v := r.s], releases := n.releases + [id]);
                if r.Raise? then (n1, false) else (Model.Flagged(n1, id), true)
  {
    hide Supervision.Release, Model.Flagged;
  }

  lemma CloseSplits(n: Model.Net, id: string, reason: Model.Reason, streamOk: bool)
    requires id in n.sessions && n.sessions[id].state in {Model.Active, Model.HandingOff, Model.Failed}
    ensures var (n1, released) := Model.ReleaseHold(Model.SetState(n, id, Model.Closing), id);
            Model.DoClose(n, id, reason, streamOk) == Model.Ended(n1, id, reason, streamOk && released)
    ensures Model.Legal(n.sessions[id].state, Model.Closing)
  {
    hide Model.ReleaseHold, Model.Ended, Model.SetState;
  }

  lemma HandoffEnds(n: Model.Net, parent: string, child: string, mode: Model.Mode, streamOk: bool)
    requires parent in n.sessions && n.sessions[parent].state == Model.HandingOff
    requires child in n.sessions && child in n.threads && n.threads[child].parent == parent
             && n.threads[child].mode == mode
    requires n.sessions[child].rank.Some? || n.sessions[child].state == Model.Failed || n.sessions[child].refused
    ensures var n1 := n.(threads := n.threads - {child});
            Model.HandoffEnd(n, parent, child, mode, streamOk) ==
              if n.sessions[child].rank.None? then Model.Reactivate(n1, parent)
              else if mode == Model.Replace then Model.CloseSession(n1, parent, Model.HandoffReplaced, streamOk)
              else n1
  {
    hide Model.DoClose, Model.DoRestore;
  }

  lemma OpeningSkips(n: Model.Net, id: string, attempts: seq<Supervision.Attempt>, reached: bool)
    requires id in n.sessions
    ensures n.sessions[id].state != Model.Acquiring ==> Model.DoAcquire(n, id, attempts) == n
    ensures n.sessions[id].state != Model.Connecting ==> Model.DoConnect(n, id, reached) == n
  {
  }

  lemma RegisterShape(n: Model.Net, id: string, req: Model.Request, parent: Option<string>, mode: Option<Model.Mode>)
    ensures Model.Register(n, id, req, parent, mode).threads == n.threads
  {
  }

  lemma HandoffShape(n: Model.Net, parent: string, child: string, target: string, mode: Model.Mode)
    requires parent in n.sessions && n.sessions[parent].state == Model.Active && child !in n.sessions
             && child !in n.threads
    ensures var n' := Model.DoHandoff(n, parent, child, target, mode);
            child in n'.threads && n'.threads[child] == Model.Handoff(parent, mode, target)
  {
  }

  lemma MarkedAndUnmarked(n: Model.Net, id: string)
    requires id in n.sessions && n.sessions[id].state == Model.Active
    ensures Model.SetState(Model.SetState(n, id, Model.HandingOff), id, Model.Active) == n
  {
    Model.SetTwice(n, id, Model.HandingOff, Model.Active);
    assert Model.SetState(n, id, Model.Active).sessions == n.sessions;
  }

  /** The table and the supervisors behind it. `net` is the abstract router they stand for, histories
      included. */
  class Router {
    const registry: Model.Registry
    const supervisors: map<string, Supervisors.Supervisor>
    var sessions: map<string, Session>
    ghost var net: Model.Net

    ghost predicate Valid()
      reads this, sessions.Values, supervisors.Values
    {
      net.reg == registry && SessionsFit() && SupervisorsFit()
    }

    ghost predicate SessionsFit()
      reads this, sessions.Values
    {
      && (forall a, b | a in sessions && b in sessions && a != b :: sessions[a] != sessions[b])
      && net.sessions.Keys == sessions.Keys && (forall id | id in sessions :: net.sessions[id] == sessions[id].Value())
    }

    ghost predicate SupervisorsFit()
      reads this, supervisors.Values
    {
      && (forall a, b | a in supervisors && b in supervisors && a != b :: supervisors[a] != supervisors[b])
      && net.configs.Keys == supervisors.Keys && net.services.Keys == supervisors.Keys
      && (forall v | v in supervisors ::
            net.configs[v] == supervisors[v].config && net.services[v] == supervisors[v].View())
    }

    constructor (reg: Model.Registry, sup: map<string, Supervisors.Supervisor>)
      requires forall a, b | a in sup && b in sup && a != b :: sup[a] != sup[b]
      requires forall v | v in sup :: sup[v].View().w.rec.sessions == map[]
      ensures Valid() && Model.Initial(net) && registry == reg && supervisors == sup
    {
      registry, supervisors, sessions := reg, sup, map[];
      net := Model.Net(reg, map v | v in sup :: sup[v].config, map[], map v | v in sup :: sup[v].View(),
                       map[], {}, [], 0);
    }

    // -------------------------------------------------------------- writing one object

    /** One session object was written, and `net` follows it. */
    twostate lemma SessionWritten(id: string)
      requires old(Valid()) && sessions == old(sessions) && id in sessions && old(allocated(sessions[id]))
      requires forall x | x in sessions && x != id :: old(allocated(sessions[x])) && unchanged(sessions[x])
      requires forall v | v in supervisors :: old(allocated(supervisors[v])) && unchanged(supervisors[v])
      requires net == old(net).(sessions := old(net).sessions[id := sessions[id].Value()])
      ensures Valid()
    {
      hide SupervisorsFit, Session.Value;
      SupervisorsStay();
      forall x | x in sessions ensures net.sessions[x] == sessions[x].Value() {
        if x != id {
          assert sessions[x].Value() == old(sessions[x].Value());
        }
      }
    }

    twostate lemma SupervisorsStay()
      requires old(SupervisorsFit()) && net.configs == old(net).configs && net.services == old(net).services
      requires forall v | v in supervisors :: old(allocated(supervisors[v])) && unchanged(supervisors[v])
      ensures SupervisorsFit()
    {
      hide Supervisors.Supervisor.View;
      assert forall v | v in supervisors :: supervisors[v].View() == old(supervisors[v].View());
    }

    twostate lemma SessionsStay()
      requires old(SessionsFit()) && net.sessions == old(net).sessions && sessions == old(sessions)
      requires forall x | x in sessions :: old(allocated(sessions[x])) && unchanged(sessions[x])
      ensures SessionsFit()
    {
      hide Session.Value;
      assert forall x | x in sessions :: sessions[x].Value() == old(sessions[x].Value());
    }

    /** The same for the supervisor of one service. */
    twostate lemma ServiceWritten(v: string)
      requires old(Valid()) && sessions == old(sessions) && v in supervisors
      requires forall x | x in sessions :: old(allocated(sessions[x])) && unchanged(sessions[x])
      requires forall u | u in supervisors && u != v :: old(allocated(supervisors[u])) && unchanged(supervisors[u])
      requires net == old(net).(services := old(net).services[v := supervisors[v].View()])
      ensures Valid()
    {
      hide SessionsFit, Supervisors.Supervisor.View, Session.Value;
      SessionsStay();
      forall u | u in supervisors ensures net.services[u] == supervisors[u].View() {
        if u != v {
          assert supervisors[u].View() == old(supervisors[u].View());
        }
      }
    }

    /** A new session object was added. */
    twostate lemma SessionAdded(id: string)
      requires old(Valid()) && id !in old(sessions) && id in sessions && sessions == old(sessions)[id := sessions[id]]
      requires fresh(sessions[id])
      requires forall x | x in old(sessions) :: old(allocated(sessions[x])) && unchanged(old(sessions)[x])
      requires forall v | v in supervisors :: old(allocated(supervisors[v])) && unchanged(supervisors[v])
      requires net == old(net).(sessions := old(net).sessions[id := sessions[id].Value()])
      ensures Valid()
    {
      hide SupervisorsFit, Session.Value, Supervisors.Supervisor.View;
      SupervisorsStay();
      assert forall a, b | a in sessions && b in sessions && a != b :: sessions[a] != sessions[b];
      forall x | x in sessions ensures net.sessions[x] == sessions[x].Value() {
        if x != id {
          assert sessions[x] == old(sessions)[x] && sessions[x].Value() == old(sessions[x].Value());
        }
      }
    }

    /** What only histories need. */
    ghost method Note(threads: map<string, Model.Handoff>, restores: set<string>, releases: seq<string>,
                      activations: nat)
      requires Valid()
      modifies this`net
      ensures Valid()
      ensures net == old(net).(threads := threads, restores := restores, releases := releases,
                               activations := activations)
    {
      hide Session.Value, Supervisors.Supervisor.View;
      net := net.(threads := threads, restores := restores, releases := releases, activations := activations);
    }

    lemma Entry(id: string)
      requires Valid()
      ensures net.reg == registry
      ensures id in net.sessions <==> id in sessions
      ensures id in sessions ==>
                var s, t := sessions[id], net.sessions[id];
                && t.request == s.request && t.parent == s.parent && t.mode == s.mode && t.state == s.state
                && t.hold == s.hold
                && t.released == s.released && t.refused == s.refused && t.rank == s.rank
    {
    }

    lemma Known(v: string)
      requires Valid()
      ensures v in net.services <==> v in supervisors
      ensures v in net.configs <==> v in supervisors
      ensures v in supervisors ==> net.configs[v] == supervisors[v].config && net.services[v] == supervisors[v].View()
      ensures v in supervisors ==> forall u | u in supervisors && u != v :: supervisors[u] != supervisors[v]
    {
    }

    // -------------------------------------------------------------- opening

    /** `_register`; a generated id that is already known raises. */
    method Register(id: string, req: Model.Request, parent: Option<string>, mode: Option<Model.Mode>) returns (ok: bool)
      requires Valid()
      modifies this
      ensures Valid() && ok == (id !in old(sessions)) && net == Model.Register(old(net), id, req, parent, mode)
      ensures if ok then id in sessions && fresh(sessions[id]) && sessions[id].state == Model.Created
                         && !sessions[id].refused && sessions[id].rank.None?
                         && sessions == old(sessions)[id := sessions[id]]
              else sessions == old(sessions)
    {
      if id in sessions {
        return false;
      }
      var s := new Session(req, parent, mode);
      sessions := sessions[id := s];
      net := Model.Register(net, id, req, parent, mode);
      SessionAdded(id);
      return true;
    }

    /** `_validate_origin`. */
    method ValidateOrigin(req: Model.Request, parent: Option<string>) returns (ok: bool)
      requires Valid()
      ensures ok == Model.OriginIsLive(net, req, parent)
    {
      if req.route != Model.ViaService {
        return true;
      }
      if parent.None? || parent.value == "" || parent.value !in sessions {
        return false;
      }
      var origin := sessions[parent.value];
      if origin.state != Model.Active && origin.state != Model.HandingOff {
        return false;
      }
      return req.origin == Some(origin.request.target);
    }

    /** A legal transition of one session. */
    method Move(id: string, to_: Model.State)
      requires Valid() && id in sessions && Model.Legal(sessions[id].state, to_)
      modifies this`net, sessions[id]
      ensures Valid() && net == Model.SetState(old(net), id, to_)
      ensures sessions[id].state == to_ && sessions[id].refused == old(sessions[id].refused)
    {
      var moved := sessions[id].Transition(to_);
      net := Model.SetState(net, id, to_);
      SessionWritten(id);
    }

    /** The exception handler of `open_session` for a session that holds nothing. */
    method FailOpening(id: string)
      requires Valid() && id in sessions && Model.Legal(sessions[id].state, Model.Failed)
      modifies this`net, sessions[id]
      ensures Valid() && net == Model.OpenFailure(old(net), id)
      ensures sessions[id].state == Model.Failed && sessions[id].refused == old(sessions[id].refused)
    {
      var moved := sessions[id].Transition(Model.Failed);
      sessions[id].reason := Some(Model.OpenFailed);
      net := Model.OpenFailure(net, id);
      SessionWritten(id);
    }

    method Decide(id: string) returns (ok: bool)
      requires Valid() && id in sessions && sessions[id].state == Model.Authorizing
      modifies this`net, sessions[id]
      ensures Valid() && net == Model.Decided(old(net), id)
      ensures sessions[id].state == (if ok then Model.Acquiring else Model.Failed)
              && sessions[id].refused == old(sessions[id].refused)
    {
      hide Valid, Session.Value;
      Entry(id);
      assert Model.Legal(Model.Authorizing, Model.Acquiring) && Model.Legal(Model.Authorizing, Model.Failed);
      hide Model.Authorize, Model.OriginIsLive, Model.SetState, Model.OpenFailure, Model.Legal;
      ok := ValidateOrigin(sessions[id].request, sessions[id].parent);
      ok := ok && Model.Authorize(registry, sessions[id].request).None?;
      if ok {
        Move(id, Model.Acquiring);
      } else {
        FailOpening(id);
      }
    }

    /** Authorization: the origin must be live and the policy must agree. */
    method Authorize(id: string) returns (ok: bool)
      requires Valid() && id in sessions && sessions[id].state == Model.Created
      modifies this`net, sessions[id]
      ensures Valid() && net == Model.DoAuthorize(old(net), id)
      ensures sessions[id].state == (if ok then Model.Acquiring else Model.Failed)
              && sessions[id].refused == old(sessions[id].refused)
    {
      hide Valid, Session.Value;
      Entry(id);
      assert Model.Legal(Model.Created, Model.Authorizing);
      hide Model.Decided, Model.SetState, Model.Legal;
      Move(id, Model.Authorizing);
      ok := Decide(id);
    }

    /** The call into the supervisor of one service. */
    method Lease(v: string, attempts: seq<Supervision.Attempt>) returns (ok: bool, lease: nat)
      requires Valid() && v in supervisors
      modifies this`net, supervisors.Values
      ensures Valid() && v in old(net).services && v in old(net).configs
      ensures var n := old(net);
              var r := Supervision.Acquire(n.configs[v], n.services[v], attempts);
              net == n.(services := n.services[v := r.s]) && ok == r.Ok? && lease == n.services[v].w.nextId
    {
      hide Supervision.Acquire, Valid, Session.Value;
      Known(v);
      ghost var n := net;
      var out;
      out, lease := supervisors[v].Acquire(attempts);
      ok := out.Done?;
      assert supervisors[v].View() == Supervision.Acquire(n.configs[v], n.services[v], attempts).s
             && ok == Supervision.Acquire(n.configs[v], n.services[v], attempts).Ok? && lease == n.services[v].w.nextId;
      hide Supervisors.Supervisor.View, Supervisors.Supervisor.Report;
      net := net.(services := net.services[v := supervisors[v].View()]);
      ServiceWritten(v);
    }

    method Grant(id: string, lease: nat)
      requires Valid() && id in sessions && sessions[id].state == Model.Acquiring
      modifies this`net, sessions[id]
      ensures Valid() && net == Model.Granted(old(net), id, lease)
      ensures sessions[id].state == Model.Connecting && sessions[id].refused == old(sessions[id].refused)
    {
      assert Model.Legal(Model.Acquiring, Model.Connecting);
      sessions[id].hold := Some(lease);
      var moved := sessions[id].Transition(Model.Connecting);
      hide Model.Legal;
      net := Model.Granted(net, id, lease);
      SessionWritten(id);
    }

    /** `supervisor.acquire_session` and the assignment of its result. */
    method Acquire(id: string, attempts: seq<Supervision.Attempt>) returns (ok: bool)
      requires Valid() && id in sessions && sessions[id].state == Model.Acquiring
      modifies this`net, sessions[id], supervisors.Values
      ensures Valid() && net == Model.DoAcquire(old(net), id, attempts)
      ensures sessions[id].state == (if ok then Model.Connecting else Model.Failed)
              && sessions[id].refused == old(sessions[id].refused)
    {
      hide Valid, Session.Value;
      var v := sessions[id].request.target;
      Entry(id);
      Known(v);
      AcquireSplits(net, id, attempts);
      hide Supervision.Acquire, Model.DoAcquire, Model.OpenFailure, Model.Granted, Model.Legal;
      ok := v in supervisors;
      var lease := 0;
      if ok {
        ok, lease := Lease(v, attempts);
      }
      Conclude(id, ok, lease);
    }

    method Conclude(id: string, ok: bool, lease: nat)
      requires Valid() && id in sessions && sessions[id].state == Model.Acquiring
      modifies this`net, sessions[id]
      ensures Valid() && id in old(net).sessions
      ensures net == if ok then Model.Granted(old(net), id, lease) else Model.OpenFailure(old(net), id)
      ensures sessions[id].state == (if ok then Model.Connecting else Model.Failed)
              && sessions[id].refused == old(sessions[id].refused)
    {
      Entry(id);
      assert Model.Legal(Model.Acquiring, Model.Failed);
      hide Model.Granted, Model.OpenFailure, Model.Legal, Valid, Session.Value;
      if ok {
        Grant(id, lease);
      } else {
        FailOpening(id);
      }
    }

    // -------------------------------------------------------------- giving a hold back

    /** The call into the supervisor of one service. */
    method CallRelease(v: string, lease: nat) returns (ok: bool)
      requires Valid() && v in supervisors
      modifies this`net, supervisors.Values
      ensures Valid() && v in old(net).services && v in old(net).configs
      ensures var n := old(net);
              var r := Supervision.Release(n.configs[v], n.services[v], lease);
              net == n.(services := n.services[v := r.s]) && ok == r.Ok?
    {
      hide Supervision.Release, Valid, Session.Value;
      Known(v);
      ghost var n := net;
      var out := supervisors[v].Release(lease);
      ok := out.Done?;
      assert supervisors[v].View() == Supervision.Release(n.configs[v], n.services[v], lease).s
             && ok == Supervision.Release(n.configs[v], n.services[v], lease).Ok?;
      hide Supervisors.Supervisor.View, Supervisors.Supervisor.Report;
      net := net.(services := net.services[v := supervisors[v].View()]);
      ServiceWritten(v);
    }

    method GiveBack(id: string, v: string, lease: nat) returns (ok: bool)
      requires Valid() && v in supervisors
      modifies this`net, supervisors.Values
      ensures Valid() && v in old(net).services && v in old(net).configs
      ensures var n := old(net);
              var r := Supervision.Release(n.configs[v], n.services[v], lease);
              net == n.(services := n.services[v := r.s], releases := n.releases + [id]) && ok == r.Ok?
    {
      hide Supervision.Release, Valid, Session.Value;
      ok := CallRelease(v, lease);
      Note(net.threads, net.restores, net.releases + [id], net.activations);
    }

    method Flag(id: string)
      requires Valid() && id in sessions
      modifies this`net, sessions[id]
      ensures Valid() && net == Model.Flagged(old(net), id)
      ensures sessions[id].state == old(sessions[id].state) && sessions[id].refused == old(sessions[id].refused)
    {
      sessions[id].released := true;
      net := Model.Flagged(net, id);
      SessionWritten(id);
    }

    /** `_release_hold`: an exception of the supervisor leaves the session's flag alone. */
    method ReleaseHold(id: string) returns (ok: bool)
      requires Valid() && id in sessions
      modifies this`net, sessions[id], supervisors.Values
      ensures Valid() && (net, ok) == Model.ReleaseHold(old(net), id)
      ensures sessions[id].state == old(sessions[id].state) && sessions[id].refused == old(sessions[id].refused)
    {
      hide Valid, Session.Value;
      var s := sessions[id];
      Entry(id);
      Known(s.request.target);
      ReleaseSplits(net, id);
      hide Supervision.Release, Model.ReleaseHold, Model.Flagged;
      if s.hold.None? || s.released {
        return true;
      }
      var v := s.request.target;
      if v !in supervisors {
        return false;
      }
      ok := GiveBack(id, v, s.hold.value);
      if ok {
        Flag(id);
      }
    }

    method Rank(id: string)
      requires Valid() && id in sessions && sessions[id].state == Model.Connecting
      modifies this`net, sessions[id]
      ensures Valid() && sessions[id].state == Model.Active && id in old(net).sessions
      ensures net == old(net).(sessions := old(net).sessions[id :=
                       old(net).sessions[id].(state := Model.Active, rank := Some(old(net).activations))])
    {
      var moved := sessions[id].Transition(Model.Active);
      sessions[id].rank := Some(net.activations);
      net := net.(sessions := net.sessions[id := sessions[id].Value()]);
      SessionWritten(id);
    }

    method Activate(id: string)
      requires Valid() && id in sessions && sessions[id].state == Model.Connecting
      modifies this`net, sessions[id]
      ensures Valid() && net == Model.Activated(old(net), id) && sessions[id].state == Model.Active
    {
      hide Valid;
      Rank(id);
      Note(net.threads, net.restores, net.releases, net.activations + 1);
    }

    ghost method GiveUp(id: string)
      requires Valid() && id in sessions
      modifies this`net, sessions[id]
      ensures Valid() && net == Model.Refused(old(net), id) && sessions[id].state == old(sessions[id].state)
    {
      sessions[id].refused := true;
      net := Model.Refused(net, id);
      SessionWritten(id);
    }

    /** The connection attempt of `open_session`, with its failure handler. */
    method Connect(id: string, reached: bool)
      requires Valid() && id in sessions && sessions[id].state == Model.Connecting && !sessions[id].refused
      modifies this`net, sessions[id], supervisors.Values
      ensures Valid() && net == Model.DoConnect(old(net), id, reached)
      ensures sessions[id].state == Model.Active <==> reached
    {
      hide Valid, Session.Value;
      Entry(id);
      assert Model.Legal(Model.Connecting, Model.Failed);
      hide Model.ReleaseHold, Model.Activated, Model.Refused, Model.OpenFailure, Model.Legal;
      if reached {
        Activate(id);
        return;
      }
      var released := ReleaseHold(id);
      if released {
        FailOpening(id);
      } else {
        GiveUp(id);
      }
    }

    // -------------------------------------------------------------- closing and handing off

    method Mark(id: string, reason: Model.Reason, state: Model.State)
      requires Valid() && id in sessions && Model.Legal(sessions[id].state, state)
      modifies this`net, sessions[id]
      ensures Valid() && net == Model.Marked(old(net), id, reason, state) && sessions[id].state == state
    {
      sessions[id].reason := Some(reason);
      var moved := sessions[id].Transition(state);
      net := Model.Marked(net, id, reason, state);
      SessionWritten(id);
    }

    method End(id: string, reason: Model.Reason, clean: bool)
      requires Valid() && id in sessions && sessions[id].state == Model.Closing
      modifies this`net, sessions[id]
      ensures Valid() && net == Model.Ended(old(net), id, reason, clean)
      ensures sessions[id].state == if clean then Model.Closed else Model.Failed
      ensures clean ==> id in net.restores
    {
      hide Valid, Session.Value;
      Entry(id);
      if clean {
        Mark(id, reason, Model.Closed);
        Note(net.threads, net.restores + {id}, net.releases, net.activations);
      } else {
        Mark(id, reason, Model.Failed);
      }
    }

    /** The locked region of `close_session`. An error while the stream or the hold is given back is kept
        until the session is marked. */
    method Close(id: string, reason: Model.Reason, streamOk: bool) returns (clean: bool)
      requires Valid() && id in sessions && sessions[id].state in {Model.Active, Model.HandingOff, Model.Failed}
      modifies this`net, sessions[id], supervisors.Values
      ensures Valid() && net == Model.DoClose(old(net), id, reason, streamOk)
      ensures sessions[id].state == if clean then Model.Closed else Model.Failed
      ensures clean ==> id in net.restores
    {
      hide Valid, Session.Value;
      Entry(id);
      CloseSplits(net, id, reason, streamOk);
      hide Model.DoClose, Model.ReleaseHold, Model.SetState, Model.Ended, Model.Legal;
      Move(id, Model.Closing);
      var released := ReleaseHold(id);
      clean := streamOk && released;
      End(id, reason, clean);
    }

    method Reactivate(id: string)
      requires Valid()
      modifies this`net, if id in sessions then {sessions[id]} else {}
      ensures Valid() && net == Model.Reactivate(old(net), id)
    {
      hide Valid, Session.Value;
      Entry(id);
      hide Model.SetState;
      if id in sessions && sessions[id].state == Model.HandingOff {
        Move(id, Model.Active);
      }
    }

    /** `_restore_parent`, by the thread that closed the child. */
    method RestoreParent(child: string)
      requires Valid() && child in sessions && child in net.restores
      modifies this`net, sessions.Values
      ensures Valid() && net == Model.DoRestore(old(net), child)
    {
      hide Valid, Session.Value;
      Entry(child);
      var s := sessions[child];
      hide Model.Reactivate;
      Note(net.threads, net.restores - {child}, net.releases, net.activations);
      if s.mode == Some(Model.ReturnToOrigin) && s.parent.Some? && s.parent.value != "" {
        Reactivate(s.parent.value);
      }
    }

    /** `close_session`, uninterrupted. */
    method CloseSession(id: string, reason: Model.Reason, streamOk: bool) returns (ok: bool)
      requires Valid()
      modifies this`net, sessions.Values, supervisors.Values
      ensures Valid() && net == Model.CloseSession(old(net), id, reason, streamOk)
    {
      hide Valid, Session.Value;
      Entry(id);
      CloseSessionSplits(net, id, reason, streamOk);
      hide Model.CloseSession, Model.DoClose, Model.DoRestore;
      if id !in sessions {
        return false;
      }
      var state := sessions[id].state;
      if state !in {Model.Active, Model.HandingOff, Model.Failed} {
        return state == Model.Closed || state == Model.Closing;
      }
      ok := Close(id, reason, streamOk);
      Entry(id);
      if ok {
        RestoreParent(id);
      }
    }

    /** `open_session`, uninterrupted. */
    method Proceed(id: string, attempts: seq<Supervision.Attempt>, reached: bool) returns (ok: bool)
      requires Valid() && id in sessions && sessions[id].state == Model.Created && !sessions[id].refused
      modifies this`net, sessions[id], supervisors.Values
      ensures Valid() && net == Model.Opening(old(net), id, attempts, reached)
      ensures ok == (sessions[id].state == Model.Active)
    {
      hide Model.DoAuthorize, Model.DoAcquire, Model.DoConnect, Valid, Session.Value;
      ok := Authorize(id);
      if !ok {
        Entry(id);
        OpeningSkips(net, id, attempts, reached);
        return false;
      }
      ok := Acquire(id, attempts);
      if !ok {
        Entry(id);
        OpeningSkips(net, id, attempts, reached);
        return false;
      }
      Connect(id, reached);
      ok := reached;
    }

    method OpenSession(id: string, req: Model.Request, parent: Option<string>, mode: Option<Model.Mode>,
                       attempts: seq<Supervision.Attempt>, reached: bool) returns (ok: bool)
      requires Valid()
      modifies this, supervisors.Values
      ensures Valid() && net == Model.OpenSession(old(net), id, req, parent, mode, attempts, reached)
      ensures ok ==> id in sessions && sessions[id].state == Model.Active
    {
      hide Valid, Session.Value;
      Entry(id);
      hide Model.Register, Model.Opening;
      ok := Register(id, req, parent, mode);
      if ok {
        ok := Proceed(id, attempts, reached);
      }
    }

    /** The first region of `handoff`. */
    method BeginHandoff(parent: string, ghost child: string, ghost target: string, ghost mode: Model.Mode)
      returns (ok: bool)
      requires Valid() && child !in net.threads && child !in sessions
      modifies this`net, sessions.Values
      ensures Valid() && net == Model.DoHandoff(old(net), parent, child, target, mode)
      ensures ok == (parent in sessions && old(sessions[parent].state) == Model.Active)
      ensures ok ==> sessions[parent].state == Model.HandingOff
    {
      hide Valid, Session.Value;
      Entry(parent);
      Entry(child);
      if parent !in sessions || sessions[parent].state != Model.Active {
        return false;
      }
      assert Model.Legal(Model.Active, Model.HandingOff);
      hide Model.Legal;
      Move(parent, Model.HandingOff);
      Note(net.threads[child := Model.Handoff(parent, mode, target)], net.restores, net.releases, net.activations);
      return true;
    }

    /** The rest of `handoff`, after `open_session` returned or raised. */
    method FinishHandoff(parent: string, child: string, mode: Model.Mode, arrived: bool, streamOk: bool)
      requires Valid() && parent in sessions && child in sessions && child in net.threads
      requires net.threads[child].parent == parent && net.threads[child].mode == mode
      requires sessions[parent].state == Model.HandingOff && arrived == sessions[child].rank.Some?
      requires arrived || sessions[child].state == Model.Failed || sessions[child].refused
      modifies this`net, sessions.Values, supervisors.Values
      ensures Valid() && net == Model.HandoffEnd(old(net), parent, child, mode, streamOk)
    {
      hide Valid, Session.Value;
      Entry(parent);
      Entry(child);
      HandoffEnds(net, parent, child, mode, streamOk);
      hide Model.Reactivate, Model.HandoffEnd, Model.CloseSession;
      Note(net.threads - {child}, net.restores, net.releases, net.activations);
      if !arrived {
        Reactivate(parent);
      } else if mode == Model.Replace {
        var closed := CloseSession(parent, Model.HandoffReplaced, streamOk);
      }
    }

    /** A child id that is already known: the parent is marked and unmarked. */
    method AbandonHandoff(parent: string)
      requires Valid() && parent in sessions && sessions[parent].state == Model.Active
      modifies this`net, sessions.Values
      ensures Valid() && net == old(net)
    {
      hide Valid, Session.Value;
      Entry(parent);
      assert net.sessions[parent].state == Model.Active;
      MarkedAndUnmarked(net, parent);
      assert Model.Legal(Model.Active, Model.HandingOff) && Model.Legal(Model.HandingOff, Model.Active);
      hide Model.SetState, Model.Legal;
      Move(parent, Model.HandingOff);
      Move(parent, Model.Active);
    }

    /** `handoff` between its first region and its last. */
    method OpenChild(parent: string, child: string, target: string, mode: Model.Mode,
                     attempts: seq<Supervision.Attempt>, reached: bool) returns (ok: bool)
      requires Valid() && parent in sessions && child !in sessions
      requires child in net.threads && net.threads[child] == Model.Handoff(parent, mode, target)
      modifies this, supervisors.Values
      ensures Valid() && net == Model.Opening(Model.DoRegisterChild(old(net), child), child, attempts, reached)
      ensures parent in sessions && child in sessions && ok == sessions[child].rank.Some?
      ensures ok || sessions[child].state == Model.Failed || sessions[child].refused
      ensures sessions[parent].state == old(sessions[parent].state) && net.threads == old(net).threads
      ensures forall x | x in sessions && x != child :: x in old(sessions) && sessions[x] == old(sessions[x])
      ensures fresh(sessions[child])
    {
      hide Valid, Session.Value;
      Entry(parent);
      Entry(child);
      hide Model.Opening, Model.Register;
      var origin := sessions[parent].request.target;
      var request := Model.Request(target, Model.ViaService, Some(origin));
      ok := Register(child, request, Some(parent), Some(mode));
      ghost var n := net;
      Entry(child);
      Entry(parent);
      RegisterShape(old(net), child, request, Some(parent), Some(mode));
      ok := Proceed(child, attempts, reached);
      OpeningEnds(n, child, attempts, reached);
      Entry(child);
      Entry(parent);
    }

    /** `handoff`, uninterrupted. */
    method HandOff(parent: string, child: string, target: string, mode: Model.Mode,
                   attempts: seq<Supervision.Attempt>, reached: bool, streamOk: bool) returns (ok: bool)
      requires Valid() && child !in net.threads
      modifies this, sessions.Values, supervisors.Values
      ensures Valid() && net == Model.HandOff(old(net), parent, child, target, mode, attempts, reached, streamOk)
    {
      hide Valid, Session.Value;
      Entry(parent);
      Entry(child);
      if parent !in sessions || sessions[parent].state != Model.Active {
        return false;
      }
      if child in sessions {
        AbandonHandoff(parent);
        return false;
      }
      HandoffShape(net, parent, child, target, mode);
      hide Model.Opening, Model.DoHandoff, Model.DoRegisterChild, Model.HandoffEnd;
      ok := BeginHandoff(parent, child, target, mode);
      ok := GoOn(parent, child, target, mode, attempts, reached, streamOk);
    }

    /** `handoff` after its first region. */
    method GoOn(parent: string, child: string, target: string, mode: Model.Mode,
                attempts: seq<Supervision.Attempt>, reached: bool, streamOk: bool) returns (ok: bool)
      requires Valid() && parent in sessions && child !in sessions && sessions[parent].state == Model.HandingOff
      requires child in net.threads && net.threads[child] == Model.Handoff(parent, mode, target)
      modifies this, sessions.Values, supervisors.Values
      ensures Valid()
      ensures net == Model.HandoffEnd(Model.Opening(Model.DoRegisterChild(old(net), child), child, attempts, reached),
                                      parent, child, mode, streamOk)
    {
      hide Model.Opening, Model.DoRegisterChild, Model.HandoffEnd, Valid, Session.Value;
      ok := OpenChild(parent, child, target, mode, attempts, reached);
      FinishHandoff(parent, child, mode, ok, streamOk);
    }

    /** `read` and `write`: refused unless the session is active; the end of the stream and a transport
        error close it. */
    method Transfer(id: string, met: Met, streamOk: bool) returns (ok: bool)
      requires Valid()
      modifies this`net, sessions.Values, supervisors.Values
      ensures Valid()
      ensures net == if id in old(sessions) && old(sessions[id].state) == Model.Active && met != Data
                     then Model.CloseSession(old(net), id, if met == EndOfStream then Model.EndpointEof
                                             else Model.TransportError,
                                             streamOk)
                     else old(net)
    {
      hide Model.CloseSession, Valid, Session.Value;
      if id !in sessions || sessions[id].state != Model.Active {
        return false;
      }
      if met == Data {
        return true;
      }
      ok := CloseSession(id, if met == EndOfStream then Model.EndpointEof else Model.TransportError, streamOk);
      ok := ok && met == EndOfStream;
    }
  }
}
