/** When exactly lifecycle holds are conserved: as long as no supervisor that has sessions is made to forget them,
    by a forced stop or by the end of its process. Stopping a service without sessions by force does no harm. */
module RouterLosses {
  import opened Wrappers
  import opened RouterModel
  import opened RouterConservation
  import Supervision = SupervisorModel

  /** A supervisor that forgets a session leaves a router session holding what nobody knows. */
  lemma RobberyBreaks(n: Net, a: Act)
    requires Conserved(n) && Robs(n, a)
    ensures !Agree(Step(n, a))
  {
    hide Agree, HoldFits, ReleasedOnce, Backed;
    var v := a.service;
    var h: nat :| h in n.services[v].w.rec.sessions;
    var id :| Held(n, id, v, h) && !n.sessions[id].released;
    hide Supervision.Step;
    ForgettingForgets(n.configs[v], n.services[v], a.op);
    Unknown(Step(n, a), id, v, h);
  }

  lemma Unknown(m: Net, id: string, v: string, h: nat)
    requires Held(m, id, v, h) && !m.sessions[id].released && v in m.services && h !in m.services[v].w.rec.sessions
    ensures !Agree(m)
  {
  }

  /** Over every interleaving of router calls with anything the supervisors do but serve other clients: the
      sessions of each supervisor are at every moment exactly those held in the router, if and only if no
      forced stop and no crash ever meets a supervisor that has sessions. */
  lemma ConservedIffNothingForgotten(n: Net, acts: seq<Act>)
    requires Initial(n) && forall a | a in acts :: OnlyClient(a)
    ensures (forall k: nat | k <= |acts| :: Agree(Run(n, acts[..k]))) <==> Undisturbed(n, acts)
  {
    assert Conserved(n);
    Exactly(n, acts);
  }

  lemma {:induction false} Exactly(n: Net, acts: seq<Act>)
    requires Conserved(n) && forall a | a in acts :: OnlyClient(a)
    ensures (forall k: nat | k <= |acts| :: Agree(Run(n, acts[..k]))) <==> Undisturbed(n, acts)
    decreases |acts|
  {
    SidesAgree(n);
    hide Conserved, Agree, Step, Robs;
    assert Run(n, acts[..0]) == n;
    if acts != [] {
      var n1 := Step(n, acts[0]);
      EveryMoment(n, acts, m => Agree(m));
      if Robs(n, acts[0]) {
        RobberyBreaks(n, acts[0]);
        assert Run(n1, acts[1..][..0]) == n1;
      } else {
        StepConserves(n, acts[0]);
        Exactly(n1, acts[1..]);
      }
    }
  }
}
