/** The session router over the supervisor (scripts/ubb_router): one step per locked region, arbitrarily
    interleaved with each other and with everything else the supervisor does. */
module RouterModel {
  import opened Wrappers
  import Supervision = SupervisorModel

  // ---------------------------------------------------------------- policy

  datatype Exposure = Exposure(mainMenu: bool, viaBbs: seq<string>, adminOnly: bool, directAllowed: bool)
  type Registry = map<string, Exposure>

  datatype RouteType = Direct | ViaService
  datatype Request = Request(target: string, route: RouteType, origin: Option<string>)

  datatype Denial = UnknownTarget | AdminOnly | OriginDeclared | DirectDenied | NoOrigin | UnknownOrigin | NotVia

  /** `RoutePolicy.authorize`: why a request is denied, if it is. */
  function Authorize(reg: Registry, req: Request): Option<Denial> {
    if req.target !in reg then Some(UnknownTarget)
    else if reg[req.target].adminOnly then Some(AdminOnly)
    else match req.route
      case Direct =>
        if req.origin.Some? then Some(OriginDeclared)
        else if !reg[req.target].mainMenu || !reg[req.target].directAllowed then Some(DirectDenied)
        else None
      case ViaService =>
        if req.origin.None? || req.origin.value == "" then Some(NoOrigin)
        else if req.origin.value !in reg then Some(UnknownOrigin)
        else if req.origin.value !in reg[req.target].viaBbs then Some(NotVia)
        else None
  }

  // ---------------------------------------------------------------- sessions

  datatype State = Created | Authorizing | Acquiring | Connecting | Active | HandingOff | Closing | Closed | Failed

  predicate Legal(before: State, after: State) {
    match before
    case Created => after == Authorizing || after == Failed
    case Authorizing => after == Acquiring || after == Failed
    case Acquiring => after == Connecting || after == Failed
    case Connecting => after == Active || after == Failed
    case Active => after == HandingOff || after == Closing || after == Failed
    case HandingOff => after == Active || after == Closing || after == Failed
    case Closing => after == Closed || after == Failed
    case Failed => after == Closing || after == Closed
    case Closed => false
  }

  /** The same by where a state can be entered from: the way to an active session is one state after the other, a
      session hands off and comes back, is closed while it is active or after it failed, and fails in any state
      but those it ends in. */
  lemma EnteredFrom(before: State, after: State)
    ensures Legal(before, after) <==>
              match after
              case Created => false
              case Authorizing => before == Created
              case Acquiring => before == Authorizing
              case Connecting => before == Acquiring
              case Active => before in {Connecting, HandingOff}
              case HandingOff => before == Active
              case Closing => before in {Active, HandingOff, Failed}
              case Closed => before in {Closing, Failed}
              case Failed => before !in {Closed, Failed}
  {
  }

  datatype Mode = Replace | ReturnToOrigin
  datatype Reason =
    | CallerClosed | EndpointEof | TransportError | HandoffReplaced | ParentClosed | OpenFailed | Shutdown | Other

  /** `hold` is the lifecycle session id; `refused` tells that the opening thread failed and could not give
      the hold back, so that nobody works on the session any more; `rank` is a history: when the session
      first became active. */
  datatype Session = Session(
    request: Request, parent: Option<string>, mode: Option<Mode>, state: State,
    hold: Option<nat>, released: bool, refused: bool, reason: Option<Reason>, rank: Option<nat>)

  /** A thread inside `handoff`, named by the child it is opening. */
  datatype Handoff = Handoff(parent: string, mode: Mode, target: string)

  /** `restores` are the closed sessions whose closing thread has yet to call `_restore_parent`;
      `releases` is the history of `release_session` calls, by session. */
  datatype Net = Net(
    reg: Registry, configs: map<string, Supervision.Config>,
    sessions: map<string, Session>, services: map<string, Supervision.Sys>,
    threads: map<string, Handoff>, restores: set<string>, releases: seq<string>, activations: nat)

  function SetState(n: Net, id: string, state: State): Net
    requires id in n.sessions
  {
    n.(sessions := n.sessions[id := n.sessions[id].(state := state)])
  }

  lemma SetShape(n: Net, id: string, state: State)
    requires id in n.sessions
    ensures var n' := SetState(n, id, state);
            && id in n'.sessions && n' == n.(sessions := n'.sessions)
            && n'.sessions == n.sessions[id := n'.sessions[id]]
            && n'.sessions[id] == n.sessions[id].(state := state)
  {
  }

  lemma SetTwice(n: Net, id: string, first: State, second: State)
    requires id in n.sessions
    ensures SetState(SetState(n, id, first), id, second) == SetState(n, id, second)
  {
    assert SetState(SetState(n, id, first), id, second).sessions == SetState(n, id, second).sessions;
  }

  // ---------------------------------------------------------------- opening

  /** `_register`; a generated id that is already known raises and changes nothing. */
  function Register(n: Net, id: string, req: Request, parent: Option<string>, mode: Option<Mode>): Net {
    if id in n.sessions then n
    else n.(sessions := n.sessions[id := Session(req, parent, mode, Created, None, false, false, None, None)])
  }

  /** `_validate_origin`. */
  predicate OriginIsLive(n: Net, req: Request, parent: Option<string>) {
    req.route == ViaService ==>
      && parent.Some? && parent.value != "" && parent.value in n.sessions
      && (n.sessions[parent.value].state == Active || n.sessions[parent.value].state == HandingOff)
      && req.origin == Some(n.sessions[parent.value].request.target)
  }

  /** The exception handler of `open_session` for a session that holds nothing. */
  function OpenFailure(n: Net, id: string): Net
    requires id in n.sessions
  {
    n.(sessions := n.sessions[id := n.sessions[id].(state := Failed, reason := Some(OpenFailed))])
  }

  /** Authorization: the origin must be live and the policy must agree. */
  function DoAuthorize(n: Net, id: string): Net {
    if id !in n.sessions || n.sessions[id].state != Created then n else Decided(SetState(n, id, Authorizing), id)
  }

  function Decided(n: Net, id: string): Net
    requires id in n.sessions
  {
    var s := n.sessions[id];
    if OriginIsLive(n, s.request, s.parent) && Authorize(n.reg, s.request).None?
    then SetState(n, id, Acquiring)
    else OpenFailure(n, id)
  }

  /** `supervisor.acquire_session` and the assignment of its result. */
  function DoAcquire(n: Net, id: string, attempts: seq<Supervision.Attempt>): Net {
    if id !in n.sessions || n.sessions[id].state != Acquiring then n
    else
      var v := n.sessions[id].request.target;
      if v !in n.services || v !in n.configs then OpenFailure(n, id)
      else
        var r := Supervision.Acquire(n.configs[v], n.services[v], attempts);
        var n1 := n.(services := n.services[v := r.s]);
        if r.Raise? then OpenFailure(n1, id) else Granted(n1, id, n.services[v].w.nextId)
  }

  /** The session takes the lifecycle id it was given. */
  function Granted(n: Net, id: string, lease: nat): Net
    requires id in n.sessions
  {
    n.(sessions := n.sessions[id := n.sessions[id].(state := Connecting, hold := Some(lease))])
  }

  /** `_release_hold`: at most one release per session, and whether it went through. An unknown session is
      refused by the supervisor. */
  function ReleaseHold(n: Net, id: string): (Net, bool)
    requires id in n.sessions
  {
    var s := n.sessions[id];
    var v := s.request.target;
    if s.hold.None? || s.released then (n, true)
    else if v !in n.services || v !in n.configs then (n, false)
    else
      var r := Supervision.Release(n.configs[v], n.services[v], s.hold.value);
      var n1 := n.(services := n.services[v := r.s], releases := n.releases + [id]);
      if r.Raise? then (n1, false) else (Flagged(n1, id), true)
  }

  function Flagged(n: Net, id: string): Net
    requires id in n.sessions
  {
    n.(sessions := n.sessions[id := n.sessions[id].(released := true)])
  }

  /** The connection attempt: the session becomes active, or its hold is given back and it fails. */
  function DoConnect(n: Net, id: string, ok: bool): Net {
    if id !in n.sessions || n.sessions[id].state != Connecting || n.sessions[id].refused then n
    else if ok then Activated(n, id)
    else
      var (n1, released) := ReleaseHold(n, id);
      if released then OpenFailure(n1, id) else Refused(n1, id)
  }

  function Activated(n: Net, id: string): Net
    requires id in n.sessions
  {
    n.(sessions := n.sessions[id := n.sessions[id].(state := Active, rank := Some(n.activations))],
       activations := n.activations + 1)
  }

  /** The opening failed and so did giving the hold back: the session stays as it is. */
  function Refused(n: Net, id: string): Net
    requires id in n.sessions
  {
    n.(sessions := n.sessions[id := n.sessions[id].(refused := true)])
  }

  // ---------------------------------------------------------------- closing and handing off

  /** The locked region of `close_session`. A session that is being opened is locked by its opener or
      refuses the transition; a closed one is left alone. */
  function DoClose(n: Net, id: string, reason: Reason, streamOk: bool): Net {
    if id !in n.sessions || n.sessions[id].state !in {Active, HandingOff, Failed} then n
    else Wrapped(SetState(n, id, Closing), id, reason, streamOk)
  }

  function Wrapped(n: Net, id: string, reason: Reason, streamOk: bool): Net
    requires id in n.sessions
  {
    var (n1, released) := ReleaseHold(n, id);
    Ended(n1, id, reason, streamOk && released)
  }

  /** The session is closed, and its closing thread goes on to restore its parent, or its closing failed. */
  function Ended(n: Net, id: string, reason: Reason, clean: bool): Net
    requires id in n.sessions
  {
    if clean then Marked(n, id, reason, Closed).(restores := n.restores + {id}) else Marked(n, id, reason, Failed)
  }

  function Marked(n: Net, id: string, reason: Reason, state: State): Net
    requires id in n.sessions
  {
    n.(sessions := n.sessions[id := n.sessions[id].(state := state, reason := Some(reason))])
  }

  function Reactivate(n: Net, id: string): Net {
    if id in n.sessions && n.sessions[id].state == HandingOff then SetState(n, id, Active) else n
  }

  /** `_restore_parent`, run by the closing thread after it dropped the child's lock. */
  function DoRestore(n: Net, child: string): Net {
    if child !in n.restores || child !in n.sessions then n
    else
      var s := n.sessions[child];
      var n1 := n.(restores := n.restores - {child});
      if s.mode == Some(ReturnToOrigin) && s.parent.Some? && s.parent.value != ""
      then Reactivate(n1, s.parent.value)
      else n1
  }

  /** The first region of `handoff`. */
  function DoHandoff(n: Net, parent: string, child: string, target: string, mode: Mode): Net {
    if parent !in n.sessions || n.sessions[parent].state != Active || child in n.sessions || child in n.threads then n
    else SetState(n, parent, HandingOff).(threads := n.threads[child := Handoff(parent, mode, target)])
  }

  /** The registration of the child inside `handoff`. */
  function DoRegisterChild(n: Net, child: string): Net {
    if child !in n.threads || child in n.sessions || n.threads[child].parent !in n.sessions then n
    else
      var t := n.threads[child];
      var req := Request(t.target, ViaService, Some(n.sessions[t.parent].request.target));
      Register(n, child, req, Some(t.parent), Some(t.mode))
  }

  /** The rest of `handoff`, once `open_session` has raised or returned. */
  function DoFinishHandoff(n: Net, child: string, streamOk: bool): Net {
    if child !in n.threads || child !in n.sessions then n
    else
      var t := n.threads[child];
      var n1 := n.(threads := n.threads - {child});
      if n.sessions[child].rank.Some? then
        if t.mode == Replace then DoClose(n1, t.parent, HandoffReplaced, streamOk) else n1
      else if n.sessions[child].state in {Failed, Closed} || n.sessions[child].refused then Reactivate(n1, t.parent)
      else n
  }

  // ---------------------------------------------------------------- uninterrupted calls

  /** `open_session` when nothing comes between its regions. */
  function Opening(n: Net, id: string, attempts: seq<Supervision.Attempt>, reached: bool): Net {
    DoConnect(DoAcquire(DoAuthorize(n, id), id, attempts), id, reached)
  }

  function OpenSession(n: Net, id: string, req: Request, parent: Option<string>, mode: Option<Mode>,
                       attempts: seq<Supervision.Attempt>, reached: bool): Net {
    if id in n.sessions then n else Opening(Register(n, id, req, parent, mode), id, attempts, reached)
  }

  /** `close_session`; only the thread that closed the session restores its parent. */
  function CloseSession(n: Net, id: string, reason: Reason, streamOk: bool): Net {
    var n1 := DoClose(n, id, reason, streamOk);
    if id in n1.sessions && n1.sessions[id].state == Closed && n.sessions[id].state != Closed
    then DoRestore(n1, id)
    else n1
  }

  /** `handoff`; a child id that is already known makes the registration raise and the parent active again. */
  function HandOff(n: Net, parent: string, child: string, target: string, mode: Mode,
                   attempts: seq<Supervision.Attempt>, reached: bool, streamOk: bool): Net {
    if parent !in n.sessions || n.sessions[parent].state != Active || child in n.sessions || child in n.threads then n
    else
      HandoffEnd(Opening(DoRegisterChild(DoHandoff(n, parent, child, target, mode), child), child, attempts, reached),
                 parent, child, mode, streamOk)
  }

  /** A replaced parent is closed like any other session, so its own parent is restored in turn. */
  function HandoffEnd(n: Net, parent: string, child: string, mode: Mode, streamOk: bool): Net {
    var n1 := DoFinishHandoff(n, child, streamOk);
    if mode == Replace && parent in n1.sessions && n1.sessions[parent].state == Closed
    then DoRestore(n1, parent)
    else n1
  }

  // ---------------------------------------------------------------- what an opening writes

  /** One session changes, keeping its family and its rank; supervisors and releases apart, nothing else does. */
  ghost predicate Touches(n: Net, n': Net, id: string) {
    && id in n.sessions && id in n'.sessions && n'.sessions == n.sessions[id := n'.sessions[id]]
    && n'.threads == n.threads && n'.restores == n.restores && n'.reg == n.reg && n'.configs == n.configs
    && n'.activations == n.activations
    && n'.sessions[id].request == n.sessions[id].request && n'.sessions[id].parent == n.sessions[id].parent
    && n'.sessions[id].mode == n.sessions[id].mode && n'.sessions[id].rank == n.sessions[id].rank
  }

  lemma AuthorizeShape(n: Net, id: string)
    requires id in n.sessions && n.sessions[id].state == Created
    ensures var n' := DoAuthorize(n, id);
            && Touches(n, n', id) && n'.services == n.services && n'.releases == n.releases
            && n'.sessions[id].state in {Acquiring, Failed} && n'.sessions[id].hold == n.sessions[id].hold
            && n'.sessions[id].released == n.sessions[id].released && n'.sessions[id].refused == n.sessions[id].refused
  {
    hide Authorize, OriginIsLive, OpenFailure;
    var n1 := SetState(n, id, Authorizing);
    FailureShape(n1, id);
  }

  lemma FailureShape(n: Net, id: string)
    requires id in n.sessions
    ensures OpenFailure(n, id) == n.(sessions := OpenFailure(n, id).sessions) && Touches(n, OpenFailure(n, id), id)
    ensures var s := OpenFailure(n, id).sessions[id];
            s == n.sessions[id].(state := Failed, reason := s.reason)
  {
  }

  lemma GrantShape(n: Net, id: string, lease: nat)
    requires id in n.sessions
    ensures Granted(n, id, lease) == n.(sessions := Granted(n, id, lease).sessions)
            && Touches(n, Granted(n, id, lease), id)
    ensures Granted(n, id, lease).sessions[id] == n.sessions[id].(state := Connecting, hold := Some(lease))
  {
  }

  lemma AcquireShape(n: Net, id: string, attempts: seq<Supervision.Attempt>)
    requires id in n.sessions && n.sessions[id].state == Acquiring
    ensures var n' := DoAcquire(n, id, attempts);
            && Touches(n, n', id) && n'.releases == n.releases && n'.sessions[id].state in {Connecting, Failed}
            && n'.sessions[id].released == n.sessions[id].released && n'.sessions[id].refused == n.sessions[id].refused
  {
    hide Supervision.Acquire, OpenFailure, Granted;
    var v := n.sessions[id].request.target;
    FailureShape(n, id);
    if v in n.services && v in n.configs {
      var n1 := n.(services := n.services[v := Supervision.Acquire(n.configs[v], n.services[v], attempts).s]);
      FailureShape(n1, id);
      GrantShape(n1, id, n.services[v].w.nextId);
    }
  }

  /** A connection that is not made. */
  lemma ConnectShape(n: Net, id: string)
    requires id in n.sessions && n.sessions[id].state == Connecting && !n.sessions[id].refused
    ensures var n' := DoConnect(n, id, false);
            && Touches(n, n', id) && n'.sessions[id].state in {Connecting, Failed}
            && (n'.sessions[id].refused <==> n'.sessions[id].state == Connecting)
  {
    ReleaseShape(n, id);
    hide ReleaseHold;
  }

  lemma ActivateShape(n: Net, id: string)
    requires id in n.sessions && n.sessions[id].state == Connecting && !n.sessions[id].refused
    ensures var n' := DoConnect(n, id, true);
            && n'.threads == n.threads && n'.restores == n.restores && n'.reg == n.reg && n'.configs == n.configs
            && n'.services == n.services && n'.releases == n.releases && n'.activations == n.activations + 1
            && n'.sessions == n.sessions[id := n.sessions[id].(state := Active, rank := Some(n.activations))]
  {
  }

  // ---------------------------------------------------------------- what a close writes

  lemma ReleaseShape(n: Net, id: string)
    requires id in n.sessions
    ensures var n1 := ReleaseHold(n, id).0;
            && n1.threads == n.threads && n1.restores == n.restores && n1.reg == n.reg
            && n1.activations == n.activations
            && id in n1.sessions && n1.sessions == n.sessions[id := n1.sessions[id]]
            && n1.sessions[id] == n.sessions[id].(released := n1.sessions[id].released)
  {
    assert n.sessions == n.sessions[id := n.sessions[id]];
  }

  /** Everything but the supervisors and the history of releases, which only `ReleaseHold` writes. */
  ghost predicate CloseWrites(n: Net, n': Net, id: string) {
    && n'.threads == n.threads && n'.reg == n.reg && n'.activations == n.activations
    && id in n.sessions && id in n'.sessions && n'.sessions == n.sessions[id := n'.sessions[id]]
    && n'.sessions[id].state in {Closed, Failed}
    && n'.sessions[id] == n.sessions[id].(state := n'.sessions[id].state, reason := n'.sessions[id].reason,
                                          released := n'.sessions[id].released)
    && n'.restores == (if n'.sessions[id].state == Closed then n.restores + {id} else n.restores)
  }

  lemma WrapShape(n: Net, id: string, reason: Reason, streamOk: bool)
    requires id in n.sessions
    ensures CloseWrites(n, Wrapped(n, id, reason, streamOk), id)
  {
    ReleaseShape(n, id);
    EndShape(n, ReleaseHold(n, id).0, id, reason, streamOk && ReleaseHold(n, id).1);
    hide ReleaseHold, CloseWrites, Ended;
  }

  lemma EndShape(n: Net, n1: Net, id: string, reason: Reason, clean: bool)
    requires id in n.sessions && id in n1.sessions && n1.sessions == n.sessions[id := n1.sessions[id]]
    requires n1.threads == n.threads && n1.restores == n.restores && n1.reg == n.reg && n1.activations == n.activations
    requires n1.sessions[id] == n.sessions[id].(released := n1.sessions[id].released)
    ensures CloseWrites(n, Ended(n1, id, reason, clean), id)
  {
  }

  lemma CloseShape(n: Net, id: string, reason: Reason, streamOk: bool)
    requires id in n.sessions && n.sessions[id].state in {Active, HandingOff, Failed}
    ensures CloseWrites(n, DoClose(n, id, reason, streamOk), id)
  {
    WrapShape(SetState(n, id, Closing), id, reason, streamOk);
    hide Wrapped;
  }

  // ---------------------------------------------------------------- runs

  datatype Act =
    | Open(id: string, req: Request, named: Option<string>, wanted: Option<Mode>)
    | AuthorizeStep(id: string)
    | AcquireStep(id: string, attempts: seq<Supervision.Attempt>)
    | ConnectStep(id: string, ok: bool)
    | Close(id: string, reason: Reason, streamOk: bool)
    | Restore(child: string)
    | BeginHandoff(parent: string, child: string, target: string, mode: Mode)
    | RegisterChild(child: string)
    | FinishHandoff(child: string, streamOk: bool)
    | Background(service: string, op: Supervision.Op)

  function Step(n: Net, a: Act): Net {
    match a
    case Open(id, req, named, wanted) => if id in n.threads then n else Register(n, id, req, named, wanted)
    case AuthorizeStep(id) => DoAuthorize(n, id)
    case AcquireStep(id, attempts) => DoAcquire(n, id, attempts)
    case ConnectStep(id, ok) => DoConnect(n, id, ok)
    case Close(id, reason, streamOk) => DoClose(n, id, reason, streamOk)
    case Restore(child) => DoRestore(n, child)
    case BeginHandoff(parent, child, target, mode) => DoHandoff(n, parent, child, target, mode)
    case RegisterChild(child) => DoRegisterChild(n, child)
    case FinishHandoff(child, streamOk) => DoFinishHandoff(n, child, streamOk)
    case Background(v, op) =>
      if v in n.services && v in n.configs
      then n.(services := n.services[v := Supervision.Step(n.configs[v], n.services[v], op).s])
      else n
  }

  function Run(n: Net, acts: seq<Act>): Net
    decreases |acts|
  {
    if acts == [] then n else Run(Step(n, acts[0]), acts[1..])
  }

  /** A router without sessions over freshly built supervisors. */
  predicate Initial(n: Net) {
    && n.sessions == map[] && n.threads == map[] && n.restores == {} && n.releases == [] && n.activations == 0
    && (forall v | v in n.services :: n.services[v].w.rec.sessions == map[])
  }

  /** What holds at every moment of a run holds at its start and at every moment of the rest. */
  lemma EveryMoment(n: Net, acts: seq<Act>, p: Net -> bool)
    requires acts != []
    ensures (forall k: nat | k <= |acts| :: p(Run(n, acts[..k])))
       <==> p(n) && forall k: nat | k <= |acts[1..]| :: p(Run(Step(n, acts[0]), acts[1..][..k]))
  {
    hide Step;
    var n1, rest := Step(n, acts[0]), acts[1..];
    assert Run(n, acts[..0]) == n;
    forall k: nat | k <= |rest| ensures Run(n, acts[..k + 1]) == Run(n1, rest[..k]) {
      assert acts[..k + 1][1..] == rest[..k];
    }
    hide Run;
    if forall k: nat | k <= |acts| :: p(Run(n, acts[..k])) {
      forall k: nat | k <= |rest| ensures p(Run(n1, rest[..k])) {
        assert p(Run(n, acts[..k + 1]));
      }
    }
    if p(n) && forall k: nat | k <= |rest| :: p(Run(n1, rest[..k])) {
      forall k: nat | k <= |acts| ensures p(Run(n, acts[..k])) {
        if k > 0 {
          assert p(Run(n1, rest[..k - 1]));
        }
      }
    }
  }

  // ---------------------------------------------------------------- uninterrupted calls are runs

  lemma {:induction false} RunOneMore(n: Net, acts: seq<Act>, last: Act)
    ensures Run(n, acts + [last]) == Step(Run(n, acts), last)
    decreases |acts|
  {
    hide Step;
    if acts == [] {
      assert acts + [last] == [last] && [last][1..] == [];
      assert Run(Step(n, last), []) == Step(n, last);
    } else {
      assert (acts + [last])[1..] == acts[1..] + [last];
      RunOneMore(Step(n, acts[0]), acts[1..], last);
    }
  }

  lemma OpenSessionIsRun(n: Net, id: string, req: Request, parent: Option<string>, mode: Option<Mode>,
                         attempts: seq<Supervision.Attempt>, reached: bool) returns (acts: seq<Act>)
    requires id !in n.threads
    ensures OpenSession(n, id, req, parent, mode, attempts, reached) == Run(n, acts)
  {
    hide Register, DoAuthorize, DoAcquire, DoConnect;
    acts := [];
    if id !in n.sessions {
      acts := OpeningIsRun(n, [Open(id, req, parent, mode)], id, attempts, reached);
      RunOneMore(n, [], Open(id, req, parent, mode));
      assert [] + [Open(id, req, parent, mode)] == [Open(id, req, parent, mode)];
    }
  }

  lemma OpeningIsRun(n: Net, before: seq<Act>, id: string, attempts: seq<Supervision.Attempt>, reached: bool)
    returns (acts: seq<Act>)
    ensures Opening(Run(n, before), id, attempts, reached) == Run(n, acts)
  {
    hide Run, DoAuthorize, DoAcquire, DoConnect;
    RunOneMore(n, before, AuthorizeStep(id));
    acts := before + [AuthorizeStep(id)];
    RunOneMore(n, acts, AcquireStep(id, attempts));
    acts := acts + [AcquireStep(id, attempts)];
    RunOneMore(n, acts, ConnectStep(id, reached));
    acts := acts + [ConnectStep(id, reached)];
  }

  lemma CloseSessionIsRun(n: Net, id: string, reason: Reason, streamOk: bool) returns (acts: seq<Act>)
    ensures CloseSession(n, id, reason, streamOk) == Run(n, acts)
  {
    hide DoClose, DoRestore;
    acts := [Close(id, reason, streamOk)];
    RunOneMore(n, [], acts[0]);
    assert [] + acts == acts;
    if CloseSession(n, id, reason, streamOk) != DoClose(n, id, reason, streamOk) {
      RunOneMore(n, acts, Restore(id));
      acts := acts + [Restore(id)];
    }
  }

  lemma HandOffIsRun(n: Net, parent: string, child: string, target: string, mode: Mode,
                     attempts: seq<Supervision.Attempt>, reached: bool, streamOk: bool) returns (acts: seq<Act>)
    ensures HandOff(n, parent, child, target, mode, attempts, reached, streamOk) == Run(n, acts)
  {
    hide DoHandoff, DoRegisterChild, Opening, HandoffEnd;
    acts := [];
    if parent in n.sessions && n.sessions[parent].state == Active && child !in n.sessions && child !in n.threads {
      var begin, register := BeginHandoff(parent, child, target, mode), RegisterChild(child);
      RunOneMore(n, [], begin);
      RunOneMore(n, [] + [begin], register);
      acts := OpeningIsRun(n, [] + [begin] + [register], child, attempts, reached);
      acts := HandoffEndIsRun(n, acts, parent, child, mode, streamOk);
    }
  }

  lemma HandoffEndIsRun(n: Net, before: seq<Act>, parent: string, child: string, mode: Mode, streamOk: bool)
    returns (acts: seq<Act>)
    ensures HandoffEnd(Run(n, before), parent, child, mode, streamOk) == Run(n, acts)
  {
    hide Run, DoFinishHandoff, DoRestore;
    RunOneMore(n, before, FinishHandoff(child, streamOk));
    acts := before + [FinishHandoff(child, streamOk)];
    if HandoffEnd(Run(n, before), parent, child, mode, streamOk) != Run(n, acts) {
      RunOneMore(n, acts, Restore(parent));
      acts := acts + [Restore(parent)];
    }
  }
}
