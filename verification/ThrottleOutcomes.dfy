/** What one login does to the throttle, exactly, key by key. */
module ThrottleOutcomes {
  import opened Wrappers
  import opened Throttle
  import Bound = ThrottleBound

  /** No delay below four failures; then five seconds, doubled with each failure, up to a minute. */
  lemma DelayDoubles(failures: nat)
    ensures failures < 4 ==> Delay(failures) == 0
    ensures Delay(4) == 5
    ensures failures >= 4 ==> Delay(failures + 1) == Min(60, 2 * Delay(failures))
  {
    assert Power(0) == 1;
    if failures >= 4 {
      assert Power(failures + 1 - 4) == 2 * Power(failures - 4);
    }
  }

  /** The wait is the time to the later of the two pauses in whole seconds, rounded up. */
  lemma WaitRoundsUp(t: Table, user: string, source: string, now: nat)
    ensures var wait := Wait(t, user, source, now); var a, b := RetryAt(t, User(user)), RetryAt(t, Source(source));
            && (wait == 0 <==> a <= now && b <= now)
            && a <= now + 1000 * wait && b <= now + 1000 * wait
            && (wait > 0 ==> now + 1000 * (wait - 1) < a || now + 1000 * (wait - 1) < b)
  {
  }

  /** A successful login forgets both keys and nothing else. */
  lemma SuccessClears(t: Table, user: string, source: string, k: Key)
    requires Distinct(t)
    ensures Find(Cleared(t, user, source), k) ==
              if k == User(user) || k == Source(source) then None else Find(t, k)
  {
    WithoutIsDistinct(t, User(user));
    WithoutIsDistinct(Without(t, User(user)), Source(source));
    hide Find, Without;
  }

  /** What a table has for a key that has not expired. */
  function Live(t: Table, k: Key, now: nat): Option<Item> {
    match Find(t, k)
    case Some(x) => if Expired(x, now) then None else Some(x)
    case None => None
  }

  /** The failure counted for a key: one more than there were, with its delay from now. */
  function Counted(t: Table, k: Key, now: nat): Item {
    var n := (match Live(t, k, now) case Some(x) => x.failures case None => 0) + 1;
    Item(k, n, now + 1000 * Delay(n))
  }

  /** A failure counts both keys up by one; every other key keeps what it has unless it is expired or evicted, and
      none is evicted as long as there is room. */
  lemma FailureCounts(t: Table, user: string, source: string, now: nat, limit: nat, k: Key)
    requires Distinct(t) && |t| <= limit && limit >= 2
    ensures var x := Find(Failed(t, user, source, now, limit), k);
            && (k == User(user) || k == Source(source) ==> x == Some(Counted(t, k, now)))
            && (k != User(user) && k != Source(source) ==>
                  (x == Live(t, k, now) || x == None) && (|t| + 2 <= limit ==> x == Live(t, k, now)))
  {
    hide *;
    var a := Attempt(user, "", now, 0, false);
    var t1 := Cleaned(t, now, limit);
    CleanedLives(t, now, limit, k);
    BothFinds(t1, user, source, now, k);
    var last := BothBumped(t1, user, source, now);
    NoneExpires(t, user, source, now, limit);
    TrimmedFinds(last, limit, k);
    var u, v := LastTwo(t1, user, source, now);
    CountedIs(t, t1, k, now);
    if k == User(user) || k == Source(source) {
      StaysInTrimmed(last, limit, if k == User(user) then u else v);
    }
    RoomForAll(t1, user, source, now, limit);
    FailedIs(t, user, source, now, limit);
  }

  lemma FailedIs(t: Table, user: string, source: string, now: nat, limit: nat)
    ensures Failed(t, user, source, now, limit)
         == Trimmed(Kept(BothBumped(Cleaned(t, now, limit), user, source, now), now), limit)
  {
    hide BothBumped, Kept, Trimmed;
  }

  lemma CleanedLives(t: Table, now: nat, limit: nat, k: Key)
    requires Distinct(t) && |t| <= limit
    ensures Distinct(Cleaned(t, now, limit)) && Find(Cleaned(t, now, limit), k) == Live(t, k, now)
    ensures |Cleaned(t, now, limit)| <= |t|
  {
    Bound.CleanedFinds(t, now, limit);
    Bound.KeptIsSmaller(t, now);
    hide Find, Kept, Distinct;
  }

  lemma BothFinds(t: Table, user: string, source: string, now: nat, k: Key)
    requires Distinct(t)
    ensures var last := BothBumped(t, user, source, now); var n := Failures(t, k) + 1;
            && Distinct(last)
            && Find(last, k) == if k == User(user) || k == Source(source) then Some(Item(k, n, now + 1000 * Delay(n)))
                                else Find(t, k)
  {
    hide Find, Bumped, Delay, Distinct;
    var mid := Bumped(t, User(user), now);
    BumpLeaves(t, User(user), now, k);
    BumpLeaves(t, User(user), now, Source(source));
    BumpLeaves(mid, Source(source), now, k);
  }

  lemma CountedIs(t: Table, t1: Table, k: Key, now: nat)
    requires Find(t1, k) == Live(t, k, now)
    ensures var n := Failures(t1, k) + 1; Counted(t, k, now) == Item(k, n, now + 1000 * Delay(n))
  {
    hide Live, Find, Delay;
  }

  /** The counted keys are the two youngest entries. */
  lemma LastTwo(t: Table, user: string, source: string, now: nat) returns (u: Item, v: Item)
    requires Distinct(t)
    ensures var last := BothBumped(t, user, source, now);
            && |last| >= 2 && last[|last| - 2] == u && last[|last| - 1] == v
            && u.key == User(user) && v.key == Source(source)
            && Find(last, User(user)) == Some(u) && Find(last, Source(source)) == Some(v)
  {
    var mid := Bumped(t, User(user), now);
    var last := BothBumped(t, user, source, now);
    u, v := mid[|mid| - 1], last[|last| - 1];
    WithoutLast(Without(t, User(user)), u, Source(source));
    BothFinds(t, user, source, now, User(user));
    Bound.FoundWhereItIs(last, u);
    Bound.FoundWhereItIs(last, v);
    hide Find, Without, Delay, Distinct;
  }

  lemma {:induction false} WithoutLast(t: Table, x: Item, k: Key)
    requires x.key != k
    ensures Without(t + [x], k) == Without(t, k) + [x]
  {
    if t == [] {
      assert t + [x] == [x] && [x][1..] == [];
    } else {
      assert (t + [x])[1..] == t[1..] + [x] && (t + [x])[0] == t[0];
      WithoutLast(t[1..], x, k);
    }
  }

  lemma StaysInTrimmed(t: Table, limit: nat, x: Item)
    requires Distinct(t) && limit >= 2 && |t| >= 2 && (x == t[|t| - 1] || x == t[|t| - 2])
    ensures Find(Trimmed(t, limit), x.key) == Some(x)
  {
    TrimmedFinds(t, limit, x.key);
    var r := Trimmed(t, limit);
    assert x == r[|r| - 1] || x == r[|r| - 2];
    Bound.FoundWhereItIs(r, x);
    hide Find, Distinct;
  }

  /** Nothing that was just cleaned or counted has expired. */
  lemma NoneExpires(t: Table, user: string, source: string, now: nat, limit: nat)
    requires Distinct(t) && |t| <= limit
    ensures var last := BothBumped(Cleaned(t, now, limit), user, source, now); Kept(last, now) == last
  {
    var t1 := Cleaned(t, now, limit);
    var last := BothBumped(t1, user, source, now);
    hide Find, Cleaned, BothBumped, Kept;
    forall x | x in last ensures !Expired(x, now) {
      CleanedLives(t, now, limit, x.key);
      BothFinds(t1, user, source, now, x.key);
      Bound.FoundWhereItIs(last, x);
      DelayIs(Failures(t1, x.key) + 1);
    }
    Bound.AllKept(last, now);
  }

  lemma DelayIs(n: nat)
    ensures n >= 4 ==> Delay(n) >= 5
  {
    if n >= 4 {
      Bound.DelayIsPositive(n);
    }
  }

  lemma RoomForAll(t: Table, user: string, source: string, now: nat, limit: nat)
    ensures |t| + 2 <= limit ==> Trimmed(BothBumped(t, user, source, now), limit) == BothBumped(t, user, source, now)
  {
    Bound.WithoutIsSmaller(t, User(user));
    Bound.WithoutIsSmaller(Bumped(t, User(user), now), Source(source));
    hide Without;
  }
}
