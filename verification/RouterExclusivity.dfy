/** When exactly handoffs stay exclusive: as long as no child whose opening failed restores a parent that is
    handing off. Closing such a child at any other moment does no harm. */
module RouterExclusivity {
  import opened Wrappers
  import opened RouterModel
  import opened RouterHandoff
  import Supervision = SupervisorModel

  /** No session is active while a child has a claim on it, and no two children have one. */
  ghost predicate Exclusive(n: Net) {
    && (forall c, p | Owes(n, c, p) :: p in n.sessions && n.sessions[p].state != Active)
    && (forall c, d, p | Owes(n, c, p) && Owes(n, d, p) :: c == d)
  }

  ghost predicate Awaited(n: Net, p: string) { exists c :: Owes(n, c, p) }

  /** Whoever is handing off is waited for by somebody. */
  ghost predicate Owed(n: Net) {
    forall p | p in n.sessions && n.sessions[p].state == HandingOff && p != "" :: Awaited(n, p)
  }

  // ---------------------------------------------------------------- claims persist

  /** Claims stay, and nobody else starts handing off. */
  lemma ClaimsStay(n: Net, n': Net)
    requires Owed(n)
    requires forall c, p | Owes(n, c, p) && p in n'.sessions && n'.sessions[p].state == HandingOff :: Owes(n', c, p)
    requires forall p | p in n'.sessions && n'.sessions[p].state == HandingOff ::
               p in n.sessions && n.sessions[p].state == HandingOff
    ensures Owed(n')
  {
    forall p | p in n'.sessions && n'.sessions[p].state == HandingOff && p != "" ensures Awaited(n', p) {
      var c :| Owes(n, c, p);
    }
  }

  /** A step that writes one session, changing neither its family nor its rank. */
  lemma OneWrites(n: Net, n': Net, id: string)
    requires Owed(n) && id in n.sessions && id in n'.sessions && n'.sessions == n.sessions[id := n'.sessions[id]]
    requires n'.threads == n.threads && n.restores <= n'.restores
    requires var s, s' := n.sessions[id], n'.sessions[id];
             && s'.parent == s.parent && s'.mode == s.mode && s'.rank == s.rank
             && (s'.state == HandingOff ==> s.state == HandingOff)
             && (s'.state == Closed ==> s.state == Closed || id in n'.restores)
    ensures Owed(n')
  {
    forall c, p | Owes(n, c, p) ensures Owes(n', c, p) {
    }
    hide Owes;
    ClaimsStay(n, n');
  }

  lemma OpenOwed(n: Net, id: string, req: Request, parent: Option<string>, mode: Option<Mode>)
    requires Owed(n)
    ensures Owed(Register(n, id, req, parent, mode))
  {
    var n' := Register(n, id, req, parent, mode);
    if id !in n.sessions {
      forall c, p | Owes(n, c, p) ensures Owes(n', c, p) {
      }
      hide Owes;
      ClaimsStay(n, n');
    }
  }

  lemma AuthorizeOwed(n: Net, id: string)
    requires Owed(n)
    ensures Owed(DoAuthorize(n, id))
  {
    hide Owed;
    if id in n.sessions && n.sessions[id].state == Created {
      hide DoAuthorize;
      AuthorizeShape(n, id);
      OneWrites(n, DoAuthorize(n, id), id);
    }
  }

  lemma AcquireOwed(n: Net, id: string, attempts: seq<Supervision.Attempt>)
    requires Owed(n)
    ensures Owed(DoAcquire(n, id, attempts))
  {
    hide Owed;
    if id in n.sessions && n.sessions[id].state == Acquiring {
      hide DoAcquire;
      AcquireShape(n, id, attempts);
      OneWrites(n, DoAcquire(n, id, attempts), id);
    }
  }

  lemma ConnectOwed(n: Net, id: string, ok: bool)
    requires Owed(n) && Lent(n)
    ensures Owed(DoConnect(n, id, ok))
  {
    if id in n.sessions && n.sessions[id].state == Connecting && !n.sessions[id].refused {
      if ok {
        ActivateOwed(n, id);
      } else {
        hide Owed, DoConnect, Lent;
        ConnectShape(n, id);
        OneWrites(n, DoConnect(n, id, ok), id);
      }
    }
  }

  /** The claim of a child that becomes active changes form. */
  lemma ActivateOwed(n: Net, id: string)
    requires Owed(n) && Lent(n) && id in n.sessions && n.sessions[id].state == Connecting && !n.sessions[id].refused
    ensures Owed(DoConnect(n, id, true))
  {
    var n' := DoConnect(n, id, true);
    ActivateShape(n, id);
    hide DoConnect;
    assert ThreadFits(n, id);
    hide Lent, ThreadFits, Owed;
    forall c, p | Owes(n, c, p) ensures Owes(n', c, p) {
      if c == id {
        assert n'.sessions[id].rank.Some? && n'.sessions[id].state == Active;
      }
    }
    hide Owes;
    ClaimsStay(n, n');
  }

  lemma CloseOwed(n: Net, id: string, reason: Reason, streamOk: bool)
    requires Owed(n)
    ensures Owed(DoClose(n, id, reason, streamOk))
  {
    hide Owed;
    if id in n.sessions && n.sessions[id].state in {Active, HandingOff, Failed} {
      CloseShape(n, id, reason, streamOk);
      hide DoClose;
      OneWrites(n, DoClose(n, id, reason, streamOk), id);
    }
  }

  /** Reactivating a parent settles every claim on it. */
  lemma ReactivateOwed(n: Net, n1: Net, parent: string)
    requires Owed(n) && n1.sessions == n.sessions
    requires forall c, p | Owes(n, c, p) && p != parent :: Owes(n1, c, p)
    ensures Owed(Reactivate(n1, parent))
  {
    var n' := Reactivate(n1, parent);
    forall c, p | Owes(n1, c, p) ensures Owes(n', c, p) {
    }
    hide Owes;
    ClaimsStay(n, n');
  }

  lemma RestoreOwed(n: Net, child: string)
    requires Owed(n)
    ensures Owed(DoRestore(n, child))
  {
    hide Owed;
    if child in n.restores && child in n.sessions {
      var s := n.sessions[child];
      var n1 := n.(restores := n.restores - {child});
      forall c, p | Owes(n, c, p)
        && (c != child || s.rank.None? || s.mode != Some(ReturnToOrigin) || s.parent != Some(p))
        ensures Owes(n1, c, p)
      {
      }
      hide Owes;
      if s.mode == Some(ReturnToOrigin) && s.parent.Some? && s.parent.value != "" {
        ReactivateOwed(n, n1, s.parent.value);
      } else if s.mode == Some(ReturnToOrigin) && s.parent.Some? {
        EmptyParent(n, n1);
      } else {
        ClaimsStay(n, n1);
      }
    }
  }

  /** A parent without a name is never restored, and not spoken of. */
  lemma EmptyParent(n: Net, n1: Net)
    requires Owed(n) && n1.sessions == n.sessions
    requires forall c, p | Owes(n, c, p) && p != "" :: Owes(n1, c, p)
    ensures Owed(n1)
  {
    hide Owes;
    forall p | p in n1.sessions && n1.sessions[p].state == HandingOff && p != "" ensures Awaited(n1, p) {
      var c :| Owes(n, c, p);
    }
  }

  lemma HandoffOwed(n: Net, parent: string, child: string, target: string, mode: Mode)
    requires Owed(n)
    ensures Owed(DoHandoff(n, parent, child, target, mode))
  {
    var n' := DoHandoff(n, parent, child, target, mode);
    if n' != n {
      assert Owes(n', child, parent);
      forall c, p | Owes(n, c, p) ensures Owes(n', c, p) {
      }
      hide Owes;
      forall p | p in n'.sessions && n'.sessions[p].state == HandingOff && p != "" ensures Awaited(n', p) {
        if p != parent {
          var c :| Owes(n, c, p);
        }
      }
    }
  }

  lemma FinishOwed(n: Net, child: string, streamOk: bool)
    requires Owed(n) && Lent(n)
    ensures Owed(DoFinishHandoff(n, child, streamOk))
  {
    hide Owed;
    if child in n.threads && child in n.sessions {
      var t := n.threads[child];
      var n1 := n.(threads := n.threads - {child});
      ThreadsClaim(n, child);
      hide Lent;
      forall c, p | Owes(n, c, p) && p != t.parent ensures Owes(n1, c, p) {
      }
      if n.sessions[child].rank.Some? {
        if t.mode == Replace {
          hide Owes;
          ReplacedOwed(n, n1, t.parent, streamOk);
        } else {
          forall c, p | Owes(n, c, p) ensures Owes(n1, c, p) {
          }
          hide Owes;
          ClaimsStay(n, n1);
        }
      } else if n.sessions[child].state in {Failed, Closed} || n.sessions[child].refused {
        hide Owes;
        ReactivateOwed(n, n1, t.parent);
      }
    }
  }

  lemma ThreadsClaim(n: Net, child: string)
    requires Lent(n) && child in n.threads && child in n.sessions
    ensures forall p | Owes(n, child, p) :: p == n.threads[child].parent
  {
    assert ThreadFits(n, child);
  }

  /** Closing an active, handing-off or failed session leaves every claim where it was. */
  lemma CloseOwes(n: Net, n': Net, id: string)
    requires CloseWrites(n, n', id) && n.sessions[id].state in {Active, HandingOff, Failed}
    ensures forall c, p | Owes(n, c, p) :: Owes(n', c, p)
  {
  }

  /** A replaced parent that was handing off is closed, and no longer spoken of. */
  lemma ReplacedOwed(n: Net, n1: Net, parent: string, streamOk: bool)
    requires Owed(n) && n1 == n.(threads := n1.threads)
    requires forall c, p | Owes(n, c, p) && p != parent :: Owes(n1, c, p)
    ensures Owed(DoClose(n1, parent, HandoffReplaced, streamOk))
  {
    var n' := DoClose(n1, parent, HandoffReplaced, streamOk);
    if parent in n.sessions && n.sessions[parent].state in {Active, HandingOff, Failed} {
      CloseShape(n1, parent, HandoffReplaced, streamOk);
      CloseOwes(n1, n', parent);
    }
    hide DoClose, Owes, CloseWrites;
    forall p | p in n'.sessions && n'.sessions[p].state == HandingOff && p != "" ensures Awaited(n', p) {
      var c :| Owes(n, c, p);
    }
  }

  lemma StepOwed(n: Net, a: Act)
    requires Owed(n) && Lent(n)
    ensures Owed(Step(n, a))
  {
    hide Owed, Lent, DoConnect, DoClose, DoAuthorize, DoAcquire, Register, DoRestore, DoHandoff, DoFinishHandoff,
         Supervision.Step;
    match a
    case Open(id, req, named, wanted) => OpenOwed(n, id, req, named, wanted);
    case AuthorizeStep(id) => AuthorizeOwed(n, id);
    case AcquireStep(id, attempts) => AcquireOwed(n, id, attempts);
    case ConnectStep(id, ok) => ConnectOwed(n, id, ok);
    case Close(id, reason, streamOk) => CloseOwed(n, id, reason, streamOk);
    case Restore(child) => RestoreOwed(n, child);
    case BeginHandoff(parent, child, target, mode) => HandoffOwed(n, parent, child, target, mode);
    case RegisterChild(child) =>
      if child in n.threads && n.threads[child].parent in n.sessions {
        var t := n.threads[child];
        OpenOwed(n, child, Request(t.target, ViaService, Some(n.sessions[t.parent].request.target)), Some(t.parent),
                 Some(t.mode));
      }
    case FinishHandoff(child, streamOk) => FinishOwed(n, child, streamOk);
    case Background(v, op) =>
      if v in n.services && v in n.configs {
        ServiceOwed(n, v, Supervision.Step(n.configs[v], n.services[v], op).s);
      }
  }

  lemma ServiceOwed(n: Net, v: string, s: Supervision.Sys)
    requires Owed(n)
    ensures Owed(n.(services := n.services[v := s]))
  {
    var n' := n.(services := n.services[v := s]);
    forall c, p | Owes(n, c, p) ensures Owes(n', c, p) {
    }
    hide Owes;
    ClaimsStay(n, n');
  }

  // ---------------------------------------------------------------- the exact condition

  /** A stray restore makes a session active on which a child still has a claim. */
  lemma StrayRestoreBreaks(n: Net, child: string)
    requires Owed(n) && Stray(n, child)
    ensures !Exclusive(DoRestore(n, child))
  {
    var p := n.sessions[child].parent.value;
    var n' := DoRestore(n, child);
    assert n'.sessions[p].state == Active;
    assert Awaited(n, p);
    var c :| Owes(n, c, p);
    assert Owes(n', c, p);
  }

  /** Over every interleaving with handoff modes only from `handoff`: at every moment an active session has
      no child with a claim on it, and no session has two, if and only if no child whose opening failed
      restores a parent that is handing off. */
  lemma ExclusiveIffNoStrayRestore(n: Net, acts: seq<Act>)
    requires Initial(n) && forall a | a in acts :: FromHandoff(a)
    ensures (forall k: nat | k <= |acts| :: Exclusive(Run(n, acts[..k]))) <==> ProperRun(n, acts)
  {
    StartsLent(n);
    ExactlyProper(n, acts);
  }

  lemma {:induction false} ExactlyProper(n: Net, acts: seq<Act>)
    requires Lent(n) && Owed(n) && forall a | a in acts :: FromHandoff(a)
    ensures (forall k: nat | k <= |acts| :: Exclusive(Run(n, acts[..k]))) <==> ProperRun(n, acts)
    decreases |acts|
  {
    hide Lent, Owed, Exclusive, Step, Stray;
    LentIsExclusive(n);
    assert Run(n, acts[..0]) == n;
    if acts != [] {
      var n1 := Step(n, acts[0]);
      EveryMoment(n, acts, m => Exclusive(m));
      if Proper(n, acts[0]) {
        StepKeeps(n, acts[0]);
        StepOwed(n, acts[0]);
        ExactlyProper(n1, acts[1..]);
      } else {
        StrayStepBreaks(n, acts[0]);
        assert Run(n1, acts[1..][..0]) == n1;
      }
    }
  }

  lemma StrayStepBreaks(n: Net, a: Act)
    requires Owed(n) && FromHandoff(a) && !Proper(n, a)
    ensures !Exclusive(Step(n, a))
  {
    StrayRestoreBreaks(n, a.child);
    hide Exclusive;
  }

  lemma LentIsExclusive(n: Net)
    requires Lent(n)
    ensures Exclusive(n)
  {
  }

  /** A late close, exactly: in any state, closing a failed child that holds nothing changes its parent if and
      only if the parent is handing off at that moment. */
  lemma LateCloseRevivesIff(n: Net, child: string, p: string, reason: Reason)
    requires child in n.sessions && p in n.sessions && p != ""
    requires var s := n.sessions[child];
             s.state == Failed && (s.hold.None? || s.released) && s.mode == Some(ReturnToOrigin) && s.parent == Some(p)
    ensures var m := Step(Step(n, Close(child, reason, true)), Restore(child));
            && p in m.sessions
            && (child != p ==>
                  m.sessions[p] == n.sessions[p].(
                    state := if n.sessions[p].state == HandingOff then Active else n.sessions[p].state))
            && (m.sessions[p].state == Active && n.sessions[p].state != Active <==> n.sessions[p].state == HandingOff)
  {
    var n1 := Step(n, Close(child, reason, true));
    CloseShape(n, child, reason, true);
    FreeClose(n, child, reason);
    hide DoClose;
  }
}
