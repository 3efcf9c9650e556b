/** The login throttle (scripts/ubb_admin/auth.py) as the dashboard's login drives it
    (scripts/ubb_dashboard.py). The clock counts milliseconds. */
module Throttle {
  import opened Wrappers

  datatype Key = User(name: string) | Source(address: string)
  datatype Item = Item(key: Key, failures: nat, retryAt: nat)

  /** The ordered dictionary, oldest entry first. */
  type Table = seq<Item>

  predicate Distinct(t: Table) { forall i, j | 0 <= i < j < |t| :: t[i].key != t[j].key }

  function Find(t: Table, k: Key): (x: Option<Item>)
    ensures x.Some? <==> exists i :: 0 <= i < |t| && t[i].key == k
    ensures x.Some? ==> x.value in t && x.value.key == k
  {
    if t == [] then None else if t[0].key == k then Some(t[0]) else Find(t[1..], k)
  }

  function Without(t: Table, k: Key): Table {
    if t == [] then [] else if t[0].key == k then Without(t[1..], k) else [t[0]] + Without(t[1..], k)
  }

  function Power(exponent: nat): nat { if exponent == 0 then 1 else 2 * Power(exponent - 1) }

  /** `_delay`, in seconds. */
  function Delay(failures: nat): nat { if failures < 4 then 0 else Min(60, 5 * Power(failures - 4)) }

  predicate Expired(x: Item, now: nat) { x.failures >= 4 && x.retryAt <= now }

  function Kept(t: Table, now: nat): Table {
    if t == [] then []
    else (if Expired(t[0], now) then [] else [t[0]]) + Kept(t[1..], now)
  }

  function Trimmed(t: Table, limit: nat): Table { if |t| <= limit then t else t[|t| - limit..] }

  /** `_cleanup`. */
  function Cleaned(t: Table, now: nat, limit: nat): Table { Trimmed(Kept(t, now), limit) }

  /** `retry_after` on a table that was just cleaned, in whole seconds, rounded up. */
  function Wait(t: Table, user: string, source: string, now: nat): nat {
    var at := Max(RetryAt(t, User(user)), RetryAt(t, Source(source)));
    if at <= now then 0 else (at - now + 999) / 1000
  }

  function RetryAt(t: Table, k: Key): nat {
    match Find(t, k)
    case Some(x) => x.retryAt
    case None => 0
  }

  function Failures(t: Table, k: Key): nat {
    match Find(t, k)
    case Some(x) => x.failures
    case None => 0
  }

  /** One more failure for one key, which becomes the youngest. */
  function Bumped(t: Table, k: Key, now: nat): Table {
    var failures := Failures(t, k) + 1;
    Without(t, k) + [Item(k, failures, now + 1000 * Delay(failures))]
  }

  function BothBumped(t: Table, user: string, source: string, now: nat): Table {
    Bumped(Bumped(t, User(user), now), Source(source), now)
  }

  /** `failure`. */
  function Failed(t: Table, user: string, source: string, now: nat, limit: nat): Table {
    Cleaned(BothBumped(Cleaned(t, now, limit), user, source, now), now, limit)
  }

  /** `success`. */
  function Cleared(t: Table, user: string, source: string): Table { Without(Without(t, User(user)), Source(source)) }

  // ---------------------------------------------------------------- the object

  class LoginThrottle {
    const limit: nat
    var entries: Table

    ghost predicate Valid()
      reads this
    {
      Distinct(entries)
    }

    constructor (maxEntries: nat)
      ensures Valid() && limit == maxEntries && entries == []
    {
      limit, entries := maxEntries, [];
    }

    method Cleanup(now: nat)
      requires Valid()
      modifies this
      ensures Valid() && entries == Cleaned(old(entries), now, limit) && |entries| <= limit
    {
      KeptIsDistinct(entries, now);
      Expire(now);
      Evict();
    }

    method Expire(now: nat)
      modifies this
      ensures entries == Kept(old(entries), now)
    {
      var kept: Table := [];
      assert entries[0..] == entries && Kept(entries[|entries|..], now) == [];
      hide Kept;
      for i := 0 to |entries|
        invariant entries == old(entries) && Kept(entries, now) == kept + Kept(entries[i..], now)
      {
        KeptSoFar(entries, kept, i, now);
        if !Expired(entries[i], now) {
          kept := kept + [entries[i]];
        }
      }
      entries := kept;
    }

    method Evict()
      requires Valid()
      modifies this
      ensures Valid() && entries == Trimmed(old(entries), limit)
    {
      while |entries| > limit
        invariant Valid() && Trimmed(entries, limit) == Trimmed(old(entries), limit)
      {
        entries := entries[1..];
      }
    }

    method RetryAfter(user: string, source: string, now: nat) returns (wait: nat)
      requires Valid()
      modifies this
      ensures Valid() && entries == Cleaned(old(entries), now, limit) && wait == Wait(entries, user, source, now)
    {
      Cleanup(now);
      var at := Max(RetryAt(entries, User(user)), RetryAt(entries, Source(source)));
      wait := if at <= now then 0 else (at - now + 999) / 1000;
    }

    method Bump(k: Key, now: nat) returns (delay: nat)
      requires Valid()
      modifies this
      ensures Valid() && entries == Bumped(old(entries), k, now) && delay == Delay(Failures(old(entries), k) + 1)
    {
      var failures := Failures(entries, k) + 1;
      delay := Delay(failures);
      WithoutIsDistinct(entries, k);
      entries := Without(entries, k) + [Item(k, failures, now + 1000 * delay)];
    }

    method Failure(user: string, source: string, now: nat) returns (delay: nat)
      requires Valid()
      modifies this
      ensures Valid() && entries == Failed(old(entries), user, source, now, limit) && |entries| <= limit
      ensures var t := Cleaned(old(entries), now, limit);
              delay == Max(Delay(Failures(t, User(user)) + 1), Delay(Failures(t, Source(source)) + 1))
    {
      hide Find, Cleaned, Bumped;
      Cleanup(now);
      ghost var t := entries;
      var first := Bump(User(user), now);
      BumpLeaves(t, User(user), now, Source(source));
      var second := Bump(Source(source), now);
      Cleanup(now);
      delay := Max(first, second);
    }

    method Success(user: string, source: string)
      requires Valid()
      modifies this
      ensures Valid() && entries == Cleared(old(entries), user, source)
    {
      WithoutIsDistinct(entries, User(user));
      WithoutIsDistinct(Without(entries, User(user)), Source(source));
      entries := Without(entries, User(user));
      entries := Without(entries, Source(source));
    }
  }

  // ---------------------------------------------------------------- the dictionary

  lemma KeptSoFar(t: Table, kept: Table, i: nat, now: nat)
    requires i < |t| && Kept(t, now) == kept + Kept(t[i..], now)
    ensures Kept(t, now) == (if Expired(t[i], now) then kept else kept + [t[i]]) + Kept(t[i + 1..], now)
  {
    var rest := Kept(t[i + 1..], now);
    assert Kept(t[i..], now) == (if Expired(t[i], now) then [] else [t[i]]) + rest by {
      assert t[i..][1..] == t[i + 1..];
    }
    hide Kept, Expired;
    assert kept + ([t[i]] + rest) == (kept + [t[i]]) + rest && [] + rest == rest;
  }

  lemma {:induction false} KeptIsPart(t: Table, now: nat)
    requires Distinct(t)
    ensures Distinct(Kept(t, now)) && forall x | x in Kept(t, now) :: x in t
  {
    if t != [] {
      KeptIsPart(t[1..], now);
      var rest := Kept(t[1..], now);
      assert forall i | 0 <= i < |rest| :: rest[i] in t[1..] && rest[i].key != t[0].key;
    }
  }

  lemma {:induction false} KeptFinds(t: Table, now: nat, k: Key)
    requires Distinct(t)
    ensures Find(Kept(t, now), k) == (match Find(t, k)
                                      case Some(x) => if Expired(x, now) then None else Some(x)
                                      case None => None)
  {
    if t != [] {
      KeptFinds(t[1..], now, k);
      if !Expired(t[0], now) {
        assert Kept(t, now)[0] == t[0] && Kept(t, now)[1..] == Kept(t[1..], now);
      } else {
        assert Kept(t, now) == Kept(t[1..], now);
        assert t[0].key == k ==> Find(t[1..], k).None?;
      }
    }
  }

  lemma KeptIsDistinct(t: Table, now: nat)
    requires Distinct(t)
    ensures Distinct(Kept(t, now))
    ensures forall k :: Find(Kept(t, now), k) == (match Find(t, k)
                                                  case Some(x) => if Expired(x, now) then None else Some(x)
                                                  case None => None)
  {
    hide Find, Kept;
    KeptIsPart(t, now);
    forall k ensures Find(Kept(t, now), k) == (match Find(t, k)
                                               case Some(x) => if Expired(x, now) then None else Some(x)
                                               case None => None)
    {
      KeptFinds(t, now, k);
    }
  }

  lemma {:induction false} WithoutIsPart(t: Table, k: Key)
    requires Distinct(t)
    ensures Distinct(Without(t, k)) && forall x | x in Without(t, k) :: x in t && x.key != k
  {
    if t != [] {
      WithoutIsPart(t[1..], k);
      var rest := Without(t[1..], k);
      assert forall i | 0 <= i < |rest| :: rest[i] in t[1..] && rest[i].key != t[0].key;
    }
  }

  lemma {:induction false} WithoutFinds(t: Table, k: Key, j: Key)
    requires Distinct(t)
    ensures Find(Without(t, k), j) == if j == k then None else Find(t, j)
  {
    if t != [] {
      WithoutFinds(t[1..], k, j);
      if t[0].key != k {
        assert Without(t, k)[0] == t[0] && Without(t, k)[1..] == Without(t[1..], k);
      } else {
        assert Without(t, k) == Without(t[1..], k) && Find(t[1..], k).None?;
      }
    }
  }

  lemma WithoutIsDistinct(t: Table, k: Key)
    requires Distinct(t)
    ensures Distinct(Without(t, k))
    ensures forall j :: Find(Without(t, k), j) == if j == k then None else Find(t, j)
  {
    hide Find, Without;
    WithoutIsPart(t, k);
    forall j ensures Find(Without(t, k), j) == if j == k then None else Find(t, j) {
      WithoutFinds(t, k, j);
    }
  }

  lemma {:induction false} FindLast(t: Table, x: Item, k: Key)
    requires Find(t, x.key).None?
    ensures Find(t + [x], k) == if k == x.key then Some(x) else Find(t, k)
  {
    if t != [] {
      assert (t + [x])[1..] == t[1..] + [x];
      FindLast(t[1..], x, k);
    }
  }

  lemma {:induction false} TrimmedFinds(t: Table, limit: nat, k: Key)
    requires Distinct(t)
    ensures Distinct(Trimmed(t, limit)) && |Trimmed(t, limit)| <= limit
    ensures Find(Trimmed(t, limit), k).Some? ==> Find(Trimmed(t, limit), k) == Find(t, k)
  {
    if |t| > limit {
      assert Trimmed(t, limit) == Trimmed(t[1..], limit);
      TrimmedFinds(t[1..], limit, k);
    }
  }

  lemma BumpLeaves(t: Table, k: Key, now: nat, j: Key)
    requires Distinct(t)
    ensures Distinct(Bumped(t, k, now))
    ensures var n := Failures(t, k) + 1;
            Find(Bumped(t, k, now), j) == if j == k then Some(Item(k, n, now + 1000 * Delay(n))) else Find(t, j)
  {
    var n := Failures(t, k) + 1;
    WithoutIsDistinct(t, k);
    FindLast(Without(t, k), Item(k, n, now + 1000 * Delay(n)), j);
  }

  // ---------------------------------------------------------------- the dashboard's login

  /** One call of `login`. The clock is read at `at`, and again `lag` later when the password was checked. */
  datatype Attempt = Attempt(user: string, remote: string, at: nat, lag: nat, verified: bool) {
    function Source(): string { SourceOf(remote) }

    function Later(): nat { at + lag }
  }

  function SourceOf(remote: string): string { if remote == "" then "unknown" else remote }

  datatype Outcome = Refused | Rejected | Accepted

  function TryLogin(t: Table, limit: nat, a: Attempt): (Table, Outcome) {
    var t1 := Cleaned(t, a.at, limit);
    if Wait(t1, a.user, a.Source(), a.at) > 0 then (t1, Refused)
    else if a.verified then (Cleared(t1, a.user, a.Source()), Accepted)
    else (Failed(t1, a.user, a.Source(), a.Later(), limit), Rejected)
  }

  class DashboardApp {
    const throttle: LoginThrottle

    constructor (t: LoginThrottle)
      ensures throttle == t
    {
      throttle := t;
    }

    method Login(user: string, remote: string, at: nat, lag: nat, verified: bool) returns (out: Outcome)
      requires throttle.Valid()
      modifies throttle
      ensures throttle.Valid()
      ensures (throttle.entries, out)
              == TryLogin(old(throttle.entries), throttle.limit, Attempt(user, remote, at, lag, verified))
    {
      hide Cleaned, Failed, Cleared, Wait;
      var source := SourceOf(remote);
      var wait := throttle.RetryAfter(user, source, at);
      if wait > 0 {
        return Refused;
      }
      if !verified {
        var delay := throttle.Failure(user, source, at + lag);
        return Rejected;
      }
      throttle.Success(user, source);
      return Accepted;
    }
  }
}
