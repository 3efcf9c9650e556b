/** When a start succeeds, from the driver's answers alone. */
module SupervisorReadiness {
  import opened Wrappers
  import opened Lifecycle
  import opened SupervisorModel

  // ---------------------------------------------------------------- the times of the checks

  /** When check `k` begins: all checks before it, and the sleeps between them, which never pass the deadline. */
  function Begins(poll: Positive, checks: nat -> Check, now: nat, deadline: nat, k: nat): nat
    decreases k, 0
  {
    if k == 0 then now
    else
      var end := Ends(poll, checks, now, deadline, k - 1);
      end + if end >= deadline then 0 else Min(poll, deadline - end)
  }

  /** When check `k` has been answered. */
  function Ends(poll: Positive, checks: nat -> Check, now: nat, deadline: nat, k: nat): nat
    decreases k, 1
  {
    Begins(poll, checks, now, deadline, k) + checks(k).takes
  }

  /** Check `k` is made: every check before it said "not yet" before the deadline. */
  ghost predicate Made(poll: Positive, checks: nat -> Check, now: nat, deadline: nat, k: nat) {
    forall i: nat | i < k :: checks(i).answer == NotYet && Ends(poll, checks, now, deadline, i) < deadline
  }

  /** Check `k` is the one that ends the waiting, with this answer. */
  ghost predicate Decides(poll: Positive, checks: nat -> Check, now: nat, deadline: nat, k: nat, answer: Answer) {
    && Made(poll, checks, now, deadline, k) && checks(k).answer == answer
    && (answer == NotYet ==> Ends(poll, checks, now, deadline, k) >= deadline)
  }

  function Verdict(answer: Answer): Option<Error> {
    match answer
    case IsReady => None
    case Broken => Some(DriverFailed)
    case NotYet => Some(ReadinessTimeout)
  }

  // ---------------------------------------------------------------- the wait

  lemma MadeFirst(poll: Positive, checks: nat -> Check, now: nat, deadline: nat)
    ensures Made(poll, checks, now, deadline, 0)
  {
  }

  /** The wait as it stands at check `i` ends as the deciding check says. */
  lemma {:induction false} WaitFrom(poll: Positive, checks: nat -> Check, now: nat, deadline: nat, i: nat, k: nat,
                                    answer: Answer)
    requires i <= k && Decides(poll, checks, now, deadline, k, answer)
    ensures AwaitReady(poll, checks, Begins(poll, checks, now, deadline, i), deadline, i)
         == Waited(Ends(poll, checks, now, deadline, k), Verdict(answer))
    decreases k - i
  {
    var begin, end := Begins(poll, checks, now, deadline, i), Ends(poll, checks, now, deadline, i);
    if i < k {
      assert checks(i).answer == NotYet && end < deadline;
      assert Begins(poll, checks, now, deadline, i + 1) == end + Min(poll, deadline - end);
      hide Ends, Begins;
      WaitFrom(poll, checks, now, deadline, i + 1, k, answer);
    }
  }

  /** Some check decides: each sleep brings the deadline nearer. */
  lemma {:induction false} SomeDecides(poll: Positive, checks: nat -> Check, now: nat, deadline: nat, i: nat)
    returns (k: nat, answer: Answer)
    requires Made(poll, checks, now, deadline, i)
    ensures Decides(poll, checks, now, deadline, k, answer)
    decreases if deadline < Begins(poll, checks, now, deadline, i) then 0
              else deadline - Begins(poll, checks, now, deadline, i)
  {
    k, answer := i, checks(i).answer;
    if answer == NotYet && Ends(poll, checks, now, deadline, i) < deadline {
      var end := Ends(poll, checks, now, deadline, i);
      assert Begins(poll, checks, now, deadline, i + 1) == end + Min(poll, deadline - end);
      k, answer := SomeDecides(poll, checks, now, deadline, i + 1);
    }
  }

  lemma OneDecides(poll: Positive, checks: nat -> Check, now: nat, deadline: nat, k: nat, answer: Answer, j: nat,
                   other: Answer)
    requires Decides(poll, checks, now, deadline, k, answer) && Decides(poll, checks, now, deadline, j, other)
    ensures k == j && answer == other
  {
    hide Ends;
  }

  /** The readiness loop, exactly: the wait ends with the answer of the one check that decides, when that check
      ends. It is the first that says anything but "not yet", or says so at the deadline or later. */
  lemma WaitEndsIff(poll: Positive, checks: nat -> Check, now: nat, deadline: nat, at: nat, answer: Answer)
    ensures AwaitReady(poll, checks, now, deadline, 0) == Waited(at, Verdict(answer)) <==>
            exists k: nat ::
              Decides(poll, checks, now, deadline, k, answer) && at == Ends(poll, checks, now, deadline, k)
  {
    MadeFirst(poll, checks, now, deadline);
    var k, decided := SomeDecides(poll, checks, now, deadline, 0);
    assert Begins(poll, checks, now, deadline, 0) == now;
    WaitFrom(poll, checks, now, deadline, 0, k, decided);
    forall j: nat | Decides(poll, checks, now, deadline, j, answer) ensures j == k && answer == decided {
      OneDecides(poll, checks, now, deadline, j, answer, k, decided);
    }
    hide Ends, Begins, AwaitReady;
  }

  // ---------------------------------------------------------------- the start

  /** The clock's zero does not matter. */
  lemma {:induction false} TimesShift(poll: Positive, checks: nat -> Check, now: nat, deadline: nat, k: nat, delay: nat)
    ensures Begins(poll, checks, now + delay, deadline + delay, k) == Begins(poll, checks, now, deadline, k) + delay
    ensures Ends(poll, checks, now + delay, deadline + delay, k) == Ends(poll, checks, now, deadline, k) + delay
  {
    if k > 0 {
      TimesShift(poll, checks, now, deadline, k - 1, delay);
    }
  }

  lemma DecidesShift(poll: Positive, checks: nat -> Check, now: nat, deadline: nat, k: nat, answer: Answer, delay: nat)
    ensures Decides(poll, checks, now + delay, deadline + delay, k, answer)
       <==> Decides(poll, checks, now, deadline, k, answer)
  {
    forall i: nat
      ensures Ends(poll, checks, now + delay, deadline + delay, i) == Ends(poll, checks, now, deadline, i) + delay
    {
      TimesShift(poll, checks, now, deadline, i, delay);
    }
    hide Ends;
  }

  /** Check `k`, counted from the end of the start call, decides the start. */
  ghost predicate Decisive(c: Config, a: Attempt, k: nat, answer: Answer) {
    a.start.ok && Decides(c.poll, a.checks, 0, c.startupTimeout, k, answer)
  }

  /** The driver's answers bring the service up: the start call succeeds, and a check says "ready" after checks
      that said "not yet" before the time was up. */
  ghost predicate ComesUp(c: Config, a: Attempt) {
    exists k: nat :: Decisive(c, a, k, IsReady)
  }

  /** A start attempt, exactly: it fails at once if the start call does, and otherwise is decided by one check;
      a failed one also takes its cleanup. */
  lemma StartDecides(c: Config, now: nat, a: Attempt)
    ensures var r := TryStart(c, now, a); var started := now + a.start.takes;
            && (!a.start.ok ==> r == Waited(started + a.cleanup, Some(DriverFailed)))
            && (a.start.ok ==>
                  exists k: nat, answer :: Decisive(c, a, k, answer)
                    && r == Waited(started + Ends(c.poll, a.checks, 0, c.startupTimeout, k)
                                   + (if answer == IsReady then 0 else a.cleanup), Verdict(answer)))
  {
    var started := now + a.start.takes;
    MadeFirst(c.poll, a.checks, 0, c.startupTimeout);
    var k, answer := SomeDecides(c.poll, a.checks, 0, c.startupTimeout, 0);
    DecidesShift(c.poll, a.checks, 0, c.startupTimeout, k, answer, started);
    TimesShift(c.poll, a.checks, 0, c.startupTimeout, k, started);
    assert 0 + started == started;
    var end := Ends(c.poll, a.checks, started, c.startupTimeout + started, k);
    WaitEndsIff(c.poll, a.checks, started, started + c.startupTimeout, end, answer);
    hide AwaitReady, Ends, Decides;
    if a.start.ok {
      assert Decisive(c, a, k, answer);
    }
  }

  /** So an attempt succeeds, whenever it is made, if and only if the driver's answers bring the service up. */
  lemma SucceedsIff(c: Config, now: nat, a: Attempt)
    ensures TryStart(c, now, a).error.None? <==> ComesUp(c, a)
  {
    StartDecides(c, now, a);
    hide TryStart, Decides, Ends;
    if a.start.ok {
      var k: nat, answer :| Decisive(c, a, k, answer) && TryStart(c, now, a).error == Verdict(answer);
      forall j: nat | Decisive(c, a, j, IsReady) ensures answer == IsReady {
        OneDecides(c.poll, a.checks, 0, c.startupTimeout, k, answer, j, IsReady);
      }
    }
  }
}
