/** Lifecycle states, the transition table, holds and the persisted instance record
    (scripts/ubb_supervisor/state_machine.py, scripts/ubb_supervisor/models.py). */
module Lifecycle {
  import opened Wrappers

  datatype State = Stopped | Starting | Ready | Running | Maintenance | Stopping | Failed

  predicate Legal(before: State, after: State) {
    match before
    case Stopped => after == Starting
    case Starting => after == Ready || after == Failed
    case Ready => after == Running || after == Maintenance || after == Stopping || after == Failed
    case Running => after == Maintenance || after == Stopping || after == Failed
    case Maintenance => after == Running || after == Stopping || after == Failed
    case Stopping => after == Stopped || after == Failed
    case Failed => after == Starting || after == Stopped
  }

  /** The same by where a state can be entered from: a service runs only after it was ready or in maintenance, is
      stopped from the three states in which it is up, and can fail in any state but those it rests in. */
  lemma EnteredFrom(before: State, after: State)
    ensures Legal(before, after) <==>
              match after
              case Stopped => before in {Stopping, Failed}
              case Starting => before in {Stopped, Failed}
              case Ready => before == Starting
              case Running => before in {Ready, Maintenance}
              case Maintenance => before in {Ready, Running}
              case Stopping => before in {Ready, Running, Maintenance}
              case Failed => before !in {Stopped, Failed}
  {
  }

  predicate Active(s: State) { s == Ready || s == Running || s == Maintenance }

  datatype Mode = OnDemand | AlwaysOn
  datatype Sharing = SingleSession | Multiuser
  datatype Restart = Never | OnFailure | Always

  /** The keys of the hold dictionary. `start` accepts any text as a reason, hence `Custom`. */
  datatype Hold = AdminHold | AlwaysOnHold | SessionsHold | MaintenanceHold | RecoveryHold | Custom(name: string)

  type Holds = map<Hold, nat>

  /** `active_holds`: the sum of all counts. */
  ghost function ActiveHolds(h: Holds): nat
    decreases |h|
  {
    if h == map[] then 0 else var k :| k in h; h[k] + ActiveHolds(h - {k})
  }

  /** What every caller of `active_holds` asks: is the sum non-zero? */
  predicate Held(h: Holds) { exists k | k in h :: h[k] > 0 }

  lemma {:induction false} HeldIsPositiveSum(h: Holds)
    ensures Held(h) <==> ActiveHolds(h) > 0
    decreases |h|
  {
    if h != map[] {
      var k :| k in h && ActiveHolds(h) == h[k] + ActiveHolds(h - {k});
      HeldIsPositiveSum(h - {k});
      if Held(h) {
        var j :| j in h && h[j] > 0;
        assert j == k || (j in h - {k} && (h - {k})[j] > 0);
      }
    }
  }

  function Count(h: Holds, k: Hold): nat { if k in h then h[k] else 0 }

  datatype Error =
    | Busy | InvalidTransition | DriverFailed | ReadinessTimeout | RestartLimit
    | RuntimeDied | StaleState | UnknownSession | UnknownJob | JobForbidden | JobFailed
    | ScheduleError | Unfinished

  datatype JobResult = JobResult(at: nat, ok: bool)

  /** `InstanceState`; times are integer clock readings. */
  datatype Record = Record(
    state: State, holds: Holds, sessions: map<nat, nat>, adminIntent: bool,
    idleDeadline: Option<nat>, lastStart: Option<nat>, lastStop: Option<nat>, lastFailure: Option<Error>,
    restartTimes: seq<nat>, nextRestart: Option<nat>, exhausted: bool,
    results: map<string, JobResult>, lastRun: map<string, nat>)

  const FRESH := Record(Stopped, map[], map[], false, None, None, None, None, [], None, false, map[], map[])

  predicate Durable(k: Hold) { k == AdminHold || k == AlwaysOnHold }

  /** `to_dict(persist=True)`: what reaches the state file. */
  function Persisted(r: Record): Record {
    r.(holds := map k | k in r.holds && Durable(k) :: r.holds[k], sessions := map[])
  }

  /** `from_dict`: filters the holds again and never trusts stored sessions. */
  function Loaded(file: Record): Record {
    file.(holds := map k | k in file.holds && Durable(k) :: file.holds[k], sessions := map[])
  }

  /** A record written and read back keeps exactly its durable holds and loses its sessions; a second
      restart loses nothing more. */
  lemma ReloadForgetsOnlyTransients(r: Record)
    ensures var l := Loaded(Persisted(r));
            && l == r.(holds := l.holds, sessions := map[])
            && (forall k :: Count(l.holds, k) == if k == AdminHold || k == AlwaysOnHold then Count(r.holds, k) else 0)
            && Loaded(Persisted(l)) == l
  {
    var l := Loaded(Persisted(r));
    assert Loaded(Persisted(l)).holds == l.holds;
  }
}
