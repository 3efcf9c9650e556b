/** The order in which router threads take locks, and why they never wait for each other in a circle. */
module RouterLocks {
  import opened Wrappers

  /** Session locks are numbered by registration; a service lock is the supervisor's lock of that service. */
  datatype Lock = SessionLock(number: nat) | ServiceLock(service: string) | IndexLock | JournalLock | StoreLock

  /** Outer locks rank above inner ones, and among sessions the younger above the older. */
  function Level(l: Lock): nat {
    match l
    case JournalLock => 0
    case StoreLock => 0
    case IndexLock => 1
    case ServiceLock(_) => 2
    case SessionLock(number) => 3 + number
  }

  datatype Action = Take(lock: Lock) | Drop(lock: Lock)

  /** A thread holding `held`, innermost last, takes only locks ranked below everything it holds, drops
      them in reverse order, and ends with none. */
  predicate Disciplined(held: seq<Lock>, todo: seq<Action>)
    decreases |todo|
  {
    if todo == [] then held == []
    else match todo[0]
      case Take(l) => (forall k | k in held :: Level(l) < Level(k)) && Disciplined(held + [l], todo[1..])
      case Drop(l) => held != [] && held[|held| - 1] == l && Disciplined(held[..|held| - 1], todo[1..])
  }

  // ---------------------------------------------------------------- threads and the wait-for graph

  datatype Thread = Thread(held: seq<Lock>, todo: seq<Action>)

  predicate Exclusive(threads: seq<Thread>) {
    forall i, j, l | 0 <= i < j < |threads| && l in threads[i].held :: l !in threads[j].held
  }

  /** Thread `i` waits for thread `j`. */
  predicate Waits(threads: seq<Thread>, i: nat, j: nat)
    requires i < |threads| && j < |threads|
  {
    threads[i].todo != [] && threads[i].todo[0].Take? && threads[i].todo[0].lock in threads[j].held
  }

  predicate CanStep(threads: seq<Thread>, i: nat)
    requires i < |threads|
  {
    && threads[i].todo != []
    && (threads[i].todo[0].Take? ==> forall j | 0 <= j < |threads| :: threads[i].todo[0].lock !in threads[j].held)
    && (threads[i].todo[0].Drop? ==> threads[i].held != [])
  }

  function Advance(threads: seq<Thread>, i: nat): seq<Thread>
    requires i < |threads| && CanStep(threads, i)
  {
    var t := threads[i];
    threads[i := match t.todo[0]
                 case Take(l) => Thread(t.held + [l], t.todo[1..])
                 case Drop(_) => Thread(t.held[..|t.held| - 1], t.todo[1..])]
  }

  /** Any interleaving: each entry names the thread that moves, if it can. */
  function Execute(threads: seq<Thread>, schedule: seq<nat>): seq<Thread>
    decreases |schedule|
  {
    if schedule == [] then threads
    else if schedule[0] < |threads| && CanStep(threads, schedule[0])
    then Execute(Advance(threads, schedule[0]), schedule[1..])
    else Execute(threads, schedule[1..])
  }

  predicate Sane(threads: seq<Thread>) {
    Exclusive(threads) && forall i | 0 <= i < |threads| :: Disciplined(threads[i].held, threads[i].todo)
  }

  lemma AdvanceIsSane(threads: seq<Thread>, i: nat)
    requires Sane(threads) && i < |threads| && CanStep(threads, i)
    ensures Sane(Advance(threads, i)) && |Advance(threads, i)| == |threads|
  {
    var after := Advance(threads, i);
    forall k, j, l | 0 <= k < j < |after| && l in after[k].held ensures l !in after[j].held {
      assert j != i ==> after[j] == threads[j];
      assert k != i ==> after[k] == threads[k];
      assert Disciplined(threads[i].held, threads[i].todo);
    }
  }

  lemma {:induction false} ExecuteIsSane(threads: seq<Thread>, schedule: seq<nat>)
    requires Sane(threads)
    ensures Sane(Execute(threads, schedule)) && |Execute(threads, schedule)| == |threads|
    decreases |schedule|
  {
    if schedule != [] {
      if schedule[0] < |threads| && CanStep(threads, schedule[0]) {
        AdvanceIsSane(threads, schedule[0]);
        ExecuteIsSane(Advance(threads, schedule[0]), schedule[1..]);
      } else {
        ExecuteIsSane(threads, schedule[1..]);
      }
    }
  }

  /** What a waiting thread waits for ranks above whatever the holder itself waits for. */
  lemma WaitsDescend(threads: seq<Thread>, i: nat, j: nat)
    requires Sane(threads) && i < |threads| && j < |threads| && Waits(threads, i, j)
    ensures threads[j].todo != []
    ensures threads[j].todo[0].Take? ==> Level(threads[j].todo[0].lock) < Level(threads[i].todo[0].lock)
  {
    assert Disciplined(threads[j].held, threads[j].todo);
  }

  /** The wait-for graph has no cycle, of any length. */
  lemma {:induction false} NoWaitCycle(threads: seq<Thread>, cycle: seq<nat>)
    requires Sane(threads) && cycle != [] && forall k | 0 <= k < |cycle| :: cycle[k] < |threads|
    requires forall k | 0 <= k < |cycle| - 1 :: Waits(threads, cycle[k], cycle[k + 1])
    ensures !Waits(threads, cycle[|cycle| - 1], cycle[0])
  {
    var last := |cycle| - 1;
    if Waits(threads, cycle[last], cycle[0]) {
      WaitLevels(threads, cycle, last);
    }
  }

  lemma {:induction false} WaitLevels(threads: seq<Thread>, path: seq<nat>, k: nat)
    requires Sane(threads) && k < |path| && forall i | 0 <= i < |path| :: path[i] < |threads|
    requires forall i | 0 <= i < |path| - 1 :: Waits(threads, path[i], path[i + 1])
    requires threads[path[k]].todo != [] && threads[path[k]].todo[0].Take?
    ensures threads[path[0]].todo != [] && threads[path[0]].todo[0].Take?
    ensures Level(threads[path[k]].todo[0].lock) <= Level(threads[path[0]].todo[0].lock)
  {
    if k > 0 {
      assert Waits(threads, path[k - 1], path[k]);
      WaitsDescend(threads, path[k - 1], path[k]);
      WaitLevels(threads, path, k - 1);
    }
  }

  /** As long as a thread has something left to do, some thread can move. */
  lemma {:induction false} SomebodyCanStep(threads: seq<Thread>, i: nat) returns (mover: nat)
    requires Sane(threads) && i < |threads| && threads[i].todo != []
    ensures mover < |threads| && CanStep(threads, mover)
    decreases if threads[i].todo[0].Take? then Level(threads[i].todo[0].lock) + 1 else 0
  {
    assert Disciplined(threads[i].held, threads[i].todo);
    if CanStep(threads, i) {
      mover := i;
    } else {
      var j :| 0 <= j < |threads| && threads[i].todo[0].lock in threads[j].held;
      assert Waits(threads, i, j);
      WaitsDescend(threads, i, j);
      mover := SomebodyCanStep(threads, j);
    }
  }

  // ---------------------------------------------------------------- what the router's operations take

  const NOTE := [Take(JournalLock), Drop(JournalLock)]
  const FIND := [Take(IndexLock), Drop(IndexLock)]

  function Inside(l: Lock, body: seq<Action>): seq<Action> { [Take(l)] + body + [Drop(l)] }

  function Maybe(b: bool, body: seq<Action>): seq<Action> { if b then body else [] }

  /** `acquire_session` or `release_session`, journaling `events` transitions. */
  function Supervise(service: string, events: nat): seq<Action> { Inside(ServiceLock(service), Stored(events)) }

  function Stored(events: nat): seq<Action> {
    if events == 0 then [] else [Take(StoreLock), Drop(StoreLock)] + Stored(events - 1)
  }

  /** `open_session`: how far it gets before it fails or returns is `stage`; `events` counts journaled
      supervisor transitions. */
  function OpenLocks(child: nat, parent: Option<nat>, service: string, stage: nat, failed: bool, events: nat)
    : seq<Action>
  {
    FIND + NOTE + Inside(SessionLock(child), OpenBody(parent, service, stage, failed, events))
  }

  function OpenBody(parent: Option<nat>, service: string, stage: nat, failed: bool, events: nat): seq<Action> {
    NOTE
    + Maybe(parent.Some?, FIND)
    + Maybe(parent.Some? && stage >= 1, Inside(SessionLock(parent.GetOr(0)), []))
    + Maybe(stage >= 2, NOTE)
    + Maybe(stage >= 2, Supervise(service, events))
    + Maybe(stage >= 3, NOTE)
    + Maybe(failed && stage >= 3, Supervise(service, events))
    + Maybe(failed || stage >= 3, NOTE)
  }

  /** How one `close_session` goes: `busy` unless the session is closing or closed already, `holds` if there
      is a hold to release, `above` the parent to restore, `revives` if that one is handing off. */
  datatype Ending = Ending(above: Option<nat>, service: string, busy: bool, holds: bool, revives: bool, events: nat)

  /** `close_session` with `_restore_parent` after it. */
  function CloseLocks(session: nat, e: Ending): seq<Action> {
    FIND
    + Inside(SessionLock(session), Maybe(e.busy, NOTE + Maybe(e.holds, Supervise(e.service, e.events)) + NOTE))
    + Maybe(e.above.Some?, FIND + Inside(SessionLock(e.above.GetOr(0)), Maybe(e.revives, NOTE)))
  }

  /** `handoff`: mark the parent, open the child, then reactivate or close the parent. */
  function HandoffLocks(parent: nat, child: nat, there: string, stage: nat, failed: bool, events: nat,
                        revives: bool, replaced: Option<Ending>): seq<Action> {
    FIND + Inside(SessionLock(parent), NOTE)
    + OpenLocks(child, Some(parent), there, stage, failed, events)
    + Maybe(failed, Inside(SessionLock(parent), Maybe(revives, NOTE)))
    + Maybe(!failed && replaced.Some?, CloseLocks(parent, replaced.GetOr(Ending(None, there, false, false, false, 0))))
  }

  /** `read` or `write`, closing the session on end of stream or error. */
  function ReadLocks(session: nat, ended: Option<Ending>): seq<Action> {
    FIND + Inside(SessionLock(session), [])
    + Maybe(ended.Some?, CloseLocks(session, ended.GetOr(Ending(None, "", false, false, false, 0))))
  }

  datatype Call =
    | Opening(child: nat, parent: Option<nat>, service: string, stage: nat, failed: bool, events: nat)
    | ClosingDown(session: nat, ending: Ending)
    | HandingOver(origin: nat, child: nat, there: string, stage: nat, failed: bool, events: nat,
                  revives: bool, replaced: Option<Ending>)
    | Reading(session: nat, ended: Option<Ending>)
    | Supervising(service: string, events: nat)

  function Program(c: Call): seq<Action> {
    match c
    case Opening(child, parent, service, stage, failed, events) =>
      OpenLocks(child, parent, service, stage, failed, events)
    case ClosingDown(session, ending) => CloseLocks(session, ending)
    case HandingOver(origin, child, there, stage, failed, events, revives, replaced) =>
      HandoffLocks(origin, child, there, stage, failed, events, revives, replaced)
    case Reading(session, ended) => ReadLocks(session, ended)
    case Supervising(service, events) => Supervise(service, events)
  }

  /** Every named parent was registered before its child. */
  predicate ParentsAreOlder(c: Call) {
    match c
    case Opening(child, parent, _, _, _, _) => parent.Some? ==> parent.value < child
    case HandingOver(origin, child, _, _, _, _, _, _) => origin < child
    case _ => true
  }

  // ---------------------------------------------------------------- they are disciplined

  /** `body` keeps the discipline when started with `held`, and gives everything back. */
  ghost predicate Safe(held: seq<Lock>, body: seq<Action>) {
    forall rest :: Disciplined(held, rest) ==> Disciplined(held, body + rest)
  }

  lemma SafeNothing(held: seq<Lock>)
    ensures Safe(held, [])
  {
    forall rest | Disciplined(held, rest) ensures Disciplined(held, [] + rest) {
      assert [] + rest == rest;
    }
  }

  lemma SafeThen(held: seq<Lock>, first: seq<Action>, second: seq<Action>)
    requires Safe(held, first) && Safe(held, second)
    ensures Safe(held, first + second)
  {
    forall rest | Disciplined(held, rest) ensures Disciplined(held, first + second + rest) {
      assert first + second + rest == first + (second + rest);
    }
  }

  lemma SafeInside(held: seq<Lock>, l: Lock, body: seq<Action>)
    requires (forall k | k in held :: Level(l) < Level(k)) && Safe(held + [l], body)
    ensures Safe(held, Inside(l, body))
  {
    forall rest | Disciplined(held, rest) ensures Disciplined(held, Inside(l, body) + rest) {
      var tail := [Drop(l)] + rest;
      assert tail[1..] == rest && (held + [l])[..|held|] == held;
      assert Disciplined(held + [l], tail);
      assert Disciplined(held + [l], body + tail);
      assert Inside(l, body) + rest == [Take(l)] + (body + tail);
      assert ([Take(l)] + (body + tail))[1..] == body + tail;
    }
  }

  lemma SafeMaybe(held: seq<Lock>, b: bool, body: seq<Action>)
    requires b ==> Safe(held, body)
    ensures Safe(held, Maybe(b, body))
  {
    SafeNothing(held);
  }

  lemma SafeLeaf(held: seq<Lock>, l: Lock)
    requires forall k | k in held :: Level(l) < Level(k)
    ensures Safe(held, [Take(l), Drop(l)])
  {
    SafeNothing(held + [l]);
    SafeInside(held, l, []);
    assert Inside(l, []) == [Take(l), Drop(l)];
  }

  lemma {:induction false} SafeStored(held: seq<Lock>, events: nat)
    requires forall k | k in held :: Level(k) > 0
    ensures Safe(held, Stored(events))
  {
    SafeNothing(held);
    if events > 0 {
      SafeLeaf(held, StoreLock);
      SafeStored(held, events - 1);
      SafeThen(held, [Take(StoreLock), Drop(StoreLock)], Stored(events - 1));
    }
  }

  lemma SafeSupervise(held: seq<Lock>, service: string, events: nat)
    requires forall k | k in held :: Level(k) > 2
    ensures Safe(held, Supervise(service, events))
  {
    SafeStored(held + [ServiceLock(service)], events);
    SafeInside(held, ServiceLock(service), Stored(events));
  }

  lemma SafeBody(held: seq<Lock>, parent: Option<nat>, service: string, stage: nat, failed: bool, events: nat)
    requires forall k | k in held :: Level(k) > 2 && (parent.Some? ==> Level(k) > 3 + parent.value)
    ensures Safe(held, OpenBody(parent, service, stage, failed, events))
  {
    hide Safe, Supervise;
    var p := SessionLock(parent.GetOr(0));
    SafeLeaf(held, JournalLock);
    SafeLeaf(held, IndexLock);
    SafeSupervise(held, service, events);
    SafeNothing(held + [p]);
    SafeMaybe(held, parent.Some?, FIND);
    var a := NOTE + Maybe(parent.Some?, FIND);
    SafeThen(held, NOTE, Maybe(parent.Some?, FIND));
    if parent.Some? {
      SafeInside(held, p, []);
    }
    SafeMaybe(held, parent.Some? && stage >= 1, Inside(p, []));
    var b := a + Maybe(parent.Some? && stage >= 1, Inside(p, []));
    SafeThen(held, a, Maybe(parent.Some? && stage >= 1, Inside(p, [])));
    SafeMaybe(held, stage >= 2, NOTE);
    var d := b + Maybe(stage >= 2, NOTE);
    SafeThen(held, b, Maybe(stage >= 2, NOTE));
    SafeMaybe(held, stage >= 2, Supervise(service, events));
    var e := d + Maybe(stage >= 2, Supervise(service, events));
    SafeThen(held, d, Maybe(stage >= 2, Supervise(service, events)));
    SafeMaybe(held, stage >= 3, NOTE);
    var f := e + Maybe(stage >= 3, NOTE);
    SafeThen(held, e, Maybe(stage >= 3, NOTE));
    SafeMaybe(held, failed && stage >= 3, Supervise(service, events));
    var g := f + Maybe(failed && stage >= 3, Supervise(service, events));
    SafeThen(held, f, Maybe(failed && stage >= 3, Supervise(service, events)));
    SafeMaybe(held, failed || stage >= 3, NOTE);
    SafeThen(held, g, Maybe(failed || stage >= 3, NOTE));
  }

  lemma SafeOpen(child: nat, parent: Option<nat>, service: string, stage: nat, failed: bool, events: nat)
    requires parent.Some? ==> parent.value < child
    ensures Safe([], OpenLocks(child, parent, service, stage, failed, events))
  {
    hide Safe, OpenBody;
    SafeLeaf([], JournalLock);
    SafeLeaf([], IndexLock);
    SafeThen([], FIND, NOTE);
    assert [] + [SessionLock(child)] == [SessionLock(child)];
    SafeBody([SessionLock(child)], parent, service, stage, failed, events);
    SafeInside([], SessionLock(child), OpenBody(parent, service, stage, failed, events));
    SafeThen([], FIND + NOTE, Inside(SessionLock(child), OpenBody(parent, service, stage, failed, events)));
  }

  lemma SafeNoted(session: nat, noted: bool)
    ensures Safe([], Inside(SessionLock(session), Maybe(noted, NOTE)))
  {
    assert [] + [SessionLock(session)] == [SessionLock(session)];
    SafeLeaf([SessionLock(session)], JournalLock);
    SafeMaybe([SessionLock(session)], noted, NOTE);
    SafeInside([], SessionLock(session), Maybe(noted, NOTE));
  }

  lemma SafeClose(session: nat, e: Ending)
    ensures Safe([], CloseLocks(session, e))
  {
    hide Safe, Supervise;
    var own := [SessionLock(session)];
    assert [] + own == own;
    SafeLeaf(own, JournalLock);
    var release := Maybe(e.holds, Supervise(e.service, e.events));
    SafeSupervise(own, e.service, e.events);
    SafeMaybe(own, e.holds, Supervise(e.service, e.events));
    SafeThen(own, NOTE, release);
    SafeThen(own, NOTE + release, NOTE);
    var body := Maybe(e.busy, NOTE + release + NOTE);
    SafeMaybe(own, e.busy, NOTE + release + NOTE);
    SafeInside([], SessionLock(session), body);
    SafeLeaf([], IndexLock);
    SafeThen([], FIND, Inside(SessionLock(session), body));
    SafeNoted(e.above.GetOr(0), e.revives);
    var back := FIND + Inside(SessionLock(e.above.GetOr(0)), Maybe(e.revives, NOTE));
    SafeThen([], FIND, Inside(SessionLock(e.above.GetOr(0)), Maybe(e.revives, NOTE)));
    SafeMaybe([], e.above.Some?, back);
    SafeThen([], FIND + Inside(SessionLock(session), body), Maybe(e.above.Some?, back));
  }

  lemma SafeHandoff(parent: nat, child: nat, there: string, stage: nat, failed: bool, events: nat,
                    revives: bool, replaced: Option<Ending>)
    requires parent < child
    ensures Safe([], HandoffLocks(parent, child, there, stage, failed, events, revives, replaced))
  {
    hide Safe, OpenLocks, CloseLocks;
    SafeLeaf([], IndexLock);
    SafeNoted(parent, true);
    var mark := Inside(SessionLock(parent), NOTE);
    assert Maybe(true, NOTE) == NOTE;
    SafeThen([], FIND, mark);
    var open := OpenLocks(child, Some(parent), there, stage, failed, events);
    SafeOpen(child, Some(parent), there, stage, failed, events);
    SafeThen([], FIND + mark, open);
    SafeNoted(parent, revives);
    var back := Maybe(failed, Inside(SessionLock(parent), Maybe(revives, NOTE)));
    SafeMaybe([], failed, Inside(SessionLock(parent), Maybe(revives, NOTE)));
    SafeThen([], FIND + mark + open, back);
    var e := replaced.GetOr(Ending(None, there, false, false, false, 0));
    SafeClose(parent, e);
    SafeMaybe([], !failed && replaced.Some?, CloseLocks(parent, e));
    SafeThen([], FIND + mark + open + back, Maybe(!failed && replaced.Some?, CloseLocks(parent, e)));
  }

  lemma SafeRead(session: nat, ended: Option<Ending>)
    ensures Safe([], ReadLocks(session, ended))
  {
    hide Safe, CloseLocks;
    SafeLeaf([], IndexLock);
    SafeNothing([SessionLock(session)]);
    assert [] + [SessionLock(session)] == [SessionLock(session)];
    SafeInside([], SessionLock(session), []);
    SafeThen([], FIND, Inside(SessionLock(session), []));
    var e := ended.GetOr(Ending(None, "", false, false, false, 0));
    SafeClose(session, e);
    SafeMaybe([], ended.Some?, CloseLocks(session, e));
    SafeThen([], FIND + Inside(SessionLock(session), []), Maybe(ended.Some?, CloseLocks(session, e)));
  }

  lemma ProgramIsDisciplined(c: Call)
    requires ParentsAreOlder(c)
    ensures Disciplined([], Program(c))
  {
    hide OpenLocks, CloseLocks, HandoffLocks, Supervise;
    assert Safe([], Program(c)) by {
      match c
      case Opening(child, parent, service, stage, failed, events) =>
        SafeOpen(child, parent, service, stage, failed, events);
      case ClosingDown(session, ending) => SafeClose(session, ending);
      case HandingOver(origin, child, there, stage, failed, events, revives, replaced) =>
        SafeHandoff(origin, child, there, stage, failed, events, revives, replaced);
      case Reading(session, ended) => SafeRead(session, ended);
      case Supervising(service, events) => SafeSupervise([], service, events);
    }
    assert Program(c) + [] == Program(c);
  }

  // ---------------------------------------------------------------- the theorems

  function Begun(calls: seq<Call>): seq<Thread> {
    seq(|calls|, i requires 0 <= i < |calls| => Thread([], Program(calls[i])))
  }

  lemma BegunIsSane(calls: seq<Call>)
    requires forall c | c in calls :: ParentsAreOlder(c)
    ensures Sane(Begun(calls))
  {
    hide Program;
    forall i | 0 <= i < |calls| ensures Disciplined(Begun(calls)[i].held, Begun(calls)[i].todo) {
      ProgramIsDisciplined(calls[i]);
    }
  }

  /** No deadlock: any number of router and supervisor calls, interleaved in any way, are never stuck,
      and no set of threads ever waits in a circle, as long as parents are registered before children. */
  lemma RouterNeverDeadlocks(calls: seq<Call>, schedule: seq<nat>, cycle: seq<nat>)
    requires forall c | c in calls :: ParentsAreOlder(c)
    ensures var threads := Execute(Begun(calls), schedule);
            && ((exists i | 0 <= i < |threads| :: threads[i].todo != []) ==>
                  exists i | 0 <= i < |threads| :: CanStep(threads, i))
            && (cycle != [] && (forall k | 0 <= k < |cycle| :: cycle[k] < |threads|)
                && (forall k | 0 <= k < |cycle| - 1 :: Waits(threads, cycle[k], cycle[k + 1])) ==>
                  !Waits(threads, cycle[|cycle| - 1], cycle[0]))
  {
    BegunIsSane(calls);
    ExecuteIsSane(Begun(calls), schedule);
    hide Begun, Execute;
    var threads := Execute(Begun(calls), schedule);
    if i :| 0 <= i < |threads| && threads[i].todo != [] {
      var mover := SomebodyCanStep(threads, i);
    }
    if cycle != [] && (forall k | 0 <= k < |cycle| :: cycle[k] < |threads|)
       && (forall k | 0 <= k < |cycle| - 1 :: Waits(threads, cycle[k], cycle[k + 1])) {
      NoWaitCycle(threads, cycle);
    }
  }

  // ---------------------------------------------------------------- the hypothesis is needed

  /** Thread `i` takes and drops a lock nobody holds. */
  lemma PassThrough(threads: seq<Thread>, i: nat, l: Lock, rest: seq<Action>, schedule: seq<nat>)
    requires i < |threads| && threads[i].todo == [Take(l), Drop(l)] + rest
    requires forall j | 0 <= j < |threads| :: l !in threads[j].held
    ensures Execute(threads, [i, i] + schedule) == Execute(threads[i := Thread(threads[i].held, rest)], schedule)
  {
    var t := threads[i];
    var inside := threads[i := Thread(t.held + [l], [Drop(l)] + rest)];
    assert t.todo[1..] == [Drop(l)] + rest;
    assert Advance(threads, i) == inside;
    assert (t.held + [l])[..|t.held|] == t.held && ([Drop(l)] + rest)[1..] == rest;
    assert Advance(inside, i) == threads[i := Thread(t.held, rest)];
    assert ([i, i] + schedule)[1..] == [i] + schedule && ([i] + schedule)[1..] == schedule;
  }

  /** Thread `i` takes a lock nobody holds. */
  lemma GoesIn(threads: seq<Thread>, i: nat, l: Lock, rest: seq<Action>, schedule: seq<nat>)
    requires i < |threads| && threads[i].todo == [Take(l)] + rest
    requires forall j | 0 <= j < |threads| :: l !in threads[j].held
    ensures Execute(threads, [i] + schedule) == Execute(threads[i := Thread(threads[i].held + [l], rest)], schedule)
  {
    assert ([Take(l)] + rest)[1..] == rest && ([i] + schedule)[1..] == schedule;
    assert Advance(threads, i) == threads[i := Thread(threads[i].held + [l], rest)];
  }

  /** What an opening thread does up to the point where it takes its parent's lock. */
  function UpToParent(own: Lock, wait: seq<Action>): seq<Action> {
    FIND + (NOTE + ([Take(own)] + (NOTE + (FIND + wait))))
  }

  lemma Regroup(a: seq<Action>, b: seq<Action>, t: Action, u: Action, c: seq<Action>, d: seq<Action>,
                e: seq<Action>, f: seq<Action>, g: seq<Action>, z: seq<Action>)
    ensures a + b + [t, u] + c + d + e + f + g + z == a + (b + ([t] + ([u] + (c + d + e + f + g) + z)))
  {
    var m := c + d + e + f + g;
    assert a + b + [t, u] + c + d + e + f + g == a + b + [t, u] + m;
    assert [t, u] + m + z == [t] + ([u] + m + z);
    assert a + b + [t, u] + m + z == a + (b + ([t, u] + m + z));
  }

  lemma OpeningTakesParent(child: nat, parent: nat, service: string, stage: nat, failed: bool, events: nat)
    returns (rest: seq<Action>)
    requires stage >= 1
    ensures OpenLocks(child, Some(parent), service, stage, failed, events)
         == UpToParent(SessionLock(child), [Take(SessionLock(parent))] + rest)
  {
    hide Supervise;
    var own := SessionLock(child);
    var c := Maybe(stage >= 2, NOTE);
    var d := Maybe(stage >= 2, Supervise(service, events));
    var e := Maybe(stage >= 3, NOTE);
    var f := Maybe(failed && stage >= 3, Supervise(service, events));
    var g := Maybe(failed || stage >= 3, NOTE);
    var take, drop := Take(SessionLock(parent)), Drop(SessionLock(parent));
    rest := [drop] + (c + d + e + f + g) + [Drop(own)];
    assert Inside(SessionLock(parent), []) == [take, drop];
    var body := OpenBody(Some(parent), service, stage, failed, events);
    assert body == NOTE + FIND + [take, drop] + c + d + e + f + g;
    Regroup(NOTE, FIND, take, drop, c, d, e, f, g, [Drop(own)]);
    assert body + [Drop(own)] == NOTE + (FIND + ([take] + rest));
    hide OpenBody, Maybe, NOTE, FIND;
    assert Inside(own, body) == [Take(own)] + (body + [Drop(own)]);
    assert (FIND + NOTE) + Inside(own, body) == FIND + (NOTE + Inside(own, body));
  }

  function SoloSchedule(i: nat, schedule: seq<nat>): seq<nat> {
    [i, i] + ([i, i] + ([i] + ([i, i] + ([i, i] + schedule))))
  }

  lemma OpeningReachesParent(threads: seq<Thread>, i: nat, own: Lock, wait: seq<Action>, schedule: seq<nat>)
    requires i < |threads| && own.SessionLock? && threads[i] == Thread([], UpToParent(own, wait))
    requires forall j | 0 <= j < |threads| ::
               own !in threads[j].held && IndexLock !in threads[j].held && JournalLock !in threads[j].held
    ensures Execute(threads, SoloSchedule(i, schedule)) == Execute(threads[i := Thread([own], wait)], schedule)
  {
    hide Execute;
    var s1 := [i, i] + schedule;
    var s2 := [i, i] + s1;
    var d3 := NOTE + (FIND + wait);
    var d2 := [Take(own)] + d3;
    PassThrough(threads, i, IndexLock, NOTE + d2, [i, i] + ([i] + s2));
    var t1 := threads[i := Thread([], NOTE + d2)];
    PassThrough(t1, i, JournalLock, d2, [i] + s2);
    var t2 := threads[i := Thread([], d2)];
    assert t1[i := t2[i]] == t2;
    GoesIn(t2, i, own, d3, s2);
    var t3 := threads[i := Thread([own], d3)];
    assert t2[i := t3[i]] == t3 && [] + [own] == [own];
    PassThrough(t3, i, JournalLock, FIND + wait, s1);
    var t4 := threads[i := Thread([own], FIND + wait)];
    assert t3[i := t4[i]] == t4;
    PassThrough(t4, i, IndexLock, wait, schedule);
    assert t4[i := Thread([own], wait)] == threads[i := Thread([own], wait)];
  }

  /** Without the hypothesis there is a deadlock: two openings that name each other's session as parent
      can each lock their own session and then wait for the other's for good. */
  lemma MutualParentsDeadlock(service: string, events: nat) returns (schedule: seq<nat>)
    ensures var calls := [Opening(0, Some(1), service, 1, true, events), Opening(1, Some(0), service, 1, true, events)];
            var threads := Execute(Begun(calls), schedule);
            && |threads| == 2 && Waits(threads, 0, 1) && Waits(threads, 1, 0)
            && !CanStep(threads, 0) && !CanStep(threads, 1)
  {
    hide OpenLocks;
    var calls := [Opening(0, Some(1), service, 1, true, events), Opening(1, Some(0), service, 1, true, events)];
    var second := SoloSchedule(1, []);
    schedule := SoloSchedule(0, second);
    var threads := Begun(calls);
    var rest := OpeningTakesParent(0, 1, service, 1, true, events);
    var rest' := OpeningTakesParent(1, 0, service, 1, true, events);
    OpeningReachesParent(threads, 0, SessionLock(0), [Take(SessionLock(1))] + rest, second);
    var half := threads[0 := Thread([SessionLock(0)], [Take(SessionLock(1))] + rest)];
    OpeningReachesParent(half, 1, SessionLock(1), [Take(SessionLock(0))] + rest', []);
    var stuck := half[1 := Thread([SessionLock(1)], [Take(SessionLock(0))] + rest')];
    assert Execute(stuck, []) == stuck;
    assert stuck[0].todo[0] == Take(SessionLock(1)) && stuck[1].todo[0] == Take(SessionLock(0));
  }

  // ---------------------------------------------------------------- what the session lock guards

  /** Wherever `todo` calls a supervisor, the thread has `l`, which it has at the start if `held`. */
  predicate Guarded(l: Lock, held: bool, todo: seq<Action>)
    decreases |todo|
  {
    if todo == [] then true
    else match todo[0]
      case Take(m) => (m.ServiceLock? ==> held) && Guarded(l, held || m == l, todo[1..])
      case Drop(m) => Guarded(l, held && m != l, todo[1..])
  }

  /** `body` may come before anything that is guarded, and leaves `l` as it found it. */
  ghost predicate Guards(l: Lock, held: bool, body: seq<Action>) {
    forall rest :: Guarded(l, held, rest) ==> Guarded(l, held, body + rest)
  }

  lemma GuardsNothing(l: Lock, held: bool)
    ensures Guards(l, held, [])
  {
    forall rest | Guarded(l, held, rest) ensures Guarded(l, held, [] + rest) {
      assert [] + rest == rest;
    }
  }

  lemma GuardsThen(l: Lock, held: bool, first: seq<Action>, second: seq<Action>)
    requires Guards(l, held, first) && Guards(l, held, second)
    ensures Guards(l, held, first + second)
  {
    forall rest | Guarded(l, held, rest) ensures Guarded(l, held, first + second + rest) {
      assert first + second + rest == first + (second + rest);
    }
  }

  /** Another lock around something guarded; the lock of a supervisor only when `l` is there. */
  lemma GuardsInside(l: Lock, held: bool, m: Lock, body: seq<Action>)
    requires m != l && (m.ServiceLock? ==> held) && Guards(l, held, body)
    ensures Guards(l, held, Inside(m, body))
  {
    forall rest | Guarded(l, held, rest) ensures Guarded(l, held, Inside(m, body) + rest) {
      var tail := [Drop(m)] + rest;
      assert tail[1..] == rest;
      assert Guarded(l, held, tail);
      assert Guarded(l, held, body + tail);
      assert Inside(m, body) + rest == [Take(m)] + (body + tail) && ([Take(m)] + (body + tail))[1..] == body + tail;
    }
  }

  /** `l` itself around what needs it. */
  lemma GuardsItself(l: Lock, body: seq<Action>)
    requires !l.ServiceLock? && Guards(l, true, body)
    ensures Guards(l, false, Inside(l, body))
  {
    forall rest | Guarded(l, false, rest) ensures Guarded(l, false, Inside(l, body) + rest) {
      var tail := [Drop(l)] + rest;
      assert tail[1..] == rest;
      assert Guarded(l, true, tail);
      assert Guarded(l, true, body + tail);
      assert Inside(l, body) + rest == [Take(l)] + (body + tail) && ([Take(l)] + (body + tail))[1..] == body + tail;
    }
  }

  lemma GuardsLeaf(l: Lock, held: bool, m: Lock)
    requires m != l && !m.ServiceLock?
    ensures Guards(l, held, [Take(m), Drop(m)])
  {
    GuardsNothing(l, held);
    GuardsInside(l, held, m, []);
    assert Inside(m, []) == [Take(m), Drop(m)];
  }

  lemma {:induction false} GuardsStored(l: Lock, held: bool, events: nat)
    requires l != StoreLock
    ensures Guards(l, held, Stored(events))
  {
    GuardsNothing(l, held);
    if events > 0 {
      GuardsLeaf(l, held, StoreLock);
      GuardsStored(l, held, events - 1);
      GuardsThen(l, held, [Take(StoreLock), Drop(StoreLock)], Stored(events - 1));
    }
  }

  lemma GuardsSupervise(l: Lock, service: string, events: nat)
    requires l.SessionLock?
    ensures Guards(l, true, Supervise(service, events))
  {
    GuardsStored(l, true, events);
    GuardsInside(l, true, ServiceLock(service), Stored(events));
  }

  lemma GuardsMaybe(l: Lock, held: bool, b: bool, body: seq<Action>)
    requires b ==> Guards(l, held, body)
    ensures Guards(l, held, Maybe(b, body))
  {
    GuardsNothing(l, held);
  }

  lemma GuardsNotes(l: Lock, held: bool)
    requires l.SessionLock?
    ensures Guards(l, held, NOTE) && Guards(l, held, FIND)
  {
    GuardsLeaf(l, held, JournalLock);
    GuardsLeaf(l, held, IndexLock);
  }

  lemma GuardsOpenBody(l: Lock, parent: Option<nat>, service: string, stage: nat, failed: bool, events: nat)
    requires l.SessionLock? && (parent.Some? ==> l != SessionLock(parent.value))
    ensures Guards(l, true, OpenBody(parent, service, stage, failed, events))
  {
    hide Guards, Supervise, Inside;
    GuardsNotes(l, true);
    GuardsSupervise(l, service, events);
    GuardsNothing(l, true);
    if parent.Some? {
      GuardsInside(l, true, SessionLock(parent.value), []);
    }
    var parts := [NOTE, Maybe(parent.Some?, FIND),
                  Maybe(parent.Some? && stage >= 1, Inside(SessionLock(parent.GetOr(0)), [])),
                  Maybe(stage >= 2, NOTE), Maybe(stage >= 2, Supervise(service, events)), Maybe(stage >= 3, NOTE),
                  Maybe(failed && stage >= 3, Supervise(service, events)), Maybe(failed || stage >= 3, NOTE)];
    GuardsThen(l, true, parts[0], parts[1]);
    GuardsThen(l, true, parts[0] + parts[1], parts[2]);
    GuardsThen(l, true, parts[0] + parts[1] + parts[2], parts[3]);
    GuardsThen(l, true, parts[0] + parts[1] + parts[2] + parts[3], parts[4]);
    GuardsThen(l, true, parts[0] + parts[1] + parts[2] + parts[3] + parts[4], parts[5]);
    GuardsThen(l, true, parts[0] + parts[1] + parts[2] + parts[3] + parts[4] + parts[5], parts[6]);
    GuardsThen(l, true, parts[0] + parts[1] + parts[2] + parts[3] + parts[4] + parts[5] + parts[6], parts[7]);
  }

  lemma GuardsCloseBody(l: Lock, e: Ending)
    requires l.SessionLock?
    ensures Guards(l, true, Maybe(e.busy, NOTE + Maybe(e.holds, Supervise(e.service, e.events)) + NOTE))
  {
    hide Guards, Supervise;
    GuardsNotes(l, true);
    GuardsSupervise(l, e.service, e.events);
    GuardsMaybe(l, true, e.holds, Supervise(e.service, e.events));
    GuardsThen(l, true, NOTE, Maybe(e.holds, Supervise(e.service, e.events)));
    GuardsThen(l, true, NOTE + Maybe(e.holds, Supervise(e.service, e.events)), NOTE);
    GuardsNothing(l, true);
  }

  /** Opening and closing call the supervisor for a session only under that session's own lock, so no two threads
      ever do so for one session at a time. */
  lemma SupervisedUnderLock(c: Call)
    requires ParentsAreOlder(c) && (c.ClosingDown? ==> c.ending.above != Some(c.session))
    ensures c.Opening? ==> Guarded(SessionLock(c.child), false, Program(c))
    ensures c.ClosingDown? ==> Guarded(SessionLock(c.session), false, Program(c))
  {
    hide Guards, Guarded, OpenBody, Inside, Supervise;
    if c.Opening? {
      var l := SessionLock(c.child);
      var body := OpenBody(c.parent, c.service, c.stage, c.failed, c.events);
      GuardsOpenBody(l, c.parent, c.service, c.stage, c.failed, c.events);
      GuardsItself(l, body);
      GuardsNotes(l, false);
      GuardsThen(l, false, FIND, NOTE);
      GuardsThen(l, false, FIND + NOTE, Inside(l, body));
      GuardsAlone(l, Program(c));
    } else if c.ClosingDown? {
      var l, e := SessionLock(c.session), c.ending;
      var body := Maybe(e.busy, NOTE + Maybe(e.holds, Supervise(e.service, e.events)) + NOTE);
      GuardsCloseBody(l, e);
      GuardsItself(l, body);
      GuardsNotes(l, false);
      GuardsThen(l, false, FIND, Inside(l, body));
      GuardsAbove(l, e);
      GuardsThen(l, false, FIND + Inside(l, body),
                 Maybe(e.above.Some?, FIND + Inside(SessionLock(e.above.GetOr(0)), Maybe(e.revives, NOTE))));
      GuardsAlone(l, Program(c));
    }
  }

  lemma GuardsAbove(l: Lock, e: Ending)
    requires l.SessionLock? && (e.above.Some? ==> l != SessionLock(e.above.value))
    ensures Guards(l, false, Maybe(e.above.Some?, FIND + Inside(SessionLock(e.above.GetOr(0)), Maybe(e.revives, NOTE))))
  {
    hide Guards;
    GuardsNotes(l, false);
    GuardsNothing(l, false);
    if e.above.Some? {
      GuardsInside(l, false, SessionLock(e.above.value), Maybe(e.revives, NOTE));
      GuardsThen(l, false, FIND, Inside(SessionLock(e.above.value), Maybe(e.revives, NOTE)));
    }
  }

  lemma GuardsAlone(l: Lock, body: seq<Action>)
    requires Guards(l, false, body)
    ensures Guarded(l, false, body)
  {
    assert body + [] == body;
    assert Guarded(l, false, []);
  }
}
