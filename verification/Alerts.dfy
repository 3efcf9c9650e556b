/** The alert store (scripts/ubb_monitoring/engine.py): conditions of a snapshot become records that are
    activated, cleared and finally evicted. */
module Alerts {
  import opened Wrappers

  // ---------------------------------------------------------------- conditions of a snapshot

  datatype Health = Healthy | Degraded | Unhealthy | Unknown
  datatype Service = Service(id: string, health: Health, backedUp: bool, readiness: string)
  datatype Host = Host(id: string, health: Health)
  datatype Snapshot = Snapshot(services: seq<Service>, hosts: seq<Host>)

  datatype Severity = Critical | Warning
  datatype Subject = OfService(id: string) | OfHost(id: string)
  datatype Condition = Condition(severity: Severity, subject: Subject, summary: string)
  type Conditions = map<string, Condition>

  function ServiceConditions(s: Service): Conditions {
    (if s.health == Unhealthy
     then map["health:" + s.id := Condition(Critical, OfService(s.id), "service health is unhealthy")]
     else if s.health == Degraded
     then map["health:" + s.id := Condition(Warning, OfService(s.id), "service health is degraded")]
     else map[])
    + (if s.backedUp then map[]
       else map["backup:" + s.id := Condition(Warning, OfService(s.id), "no backup evidence recorded")])
    + (if s.readiness == "NOT_READY" || s.readiness == "BLOCKED"
       then map["qualification:" + s.id := Condition(Warning, OfService(s.id), "qualification is " + s.readiness)]
       else map[])
  }

  function HostConditions(h: Host): Conditions {
    if h.health == Unknown
    then map["host:" + h.id := Condition(Warning, OfHost(h.id), "remote host has no current telemetry")] else map[]
  }

  function FromServices(services: seq<Service>): Conditions {
    if services == [] then map[]
    else FromServices(services[..|services| - 1]) + ServiceConditions(services[|services| - 1])
  }

  function FromHosts(hosts: seq<Host>): Conditions {
    if hosts == [] then map[] else FromHosts(hosts[..|hosts| - 1]) + HostConditions(hosts[|hosts| - 1])
  }

  function ActiveConditions(s: Snapshot): Conditions { FromServices(s.services) + FromHosts(s.hosts) }

  // ---------------------------------------------------------------- records

  datatype Phase = ACTIVE | CLEARED
  datatype Alert = Alert(condition: Condition, phase: Phase, firstSeen: nat, lastSeen: nat, count: nat,
                         clearedAt: Option<nat>)
  type File = map<string, Alert>

  function Raised(prior: Option<Alert>, c: Condition, now: nat): Alert {
    match prior
    case None => Alert(c, ACTIVE, now, now, 1, None)
    case Some(a) => Alert(c, ACTIVE, a.firstSeen, now, a.count + 1, None)
  }

  function Lowered(a: Alert, now: nat): Alert {
    if a.phase == ACTIVE then a.(phase := CLEARED, clearedAt := Some(now)) else a
  }

  function Merged(file: File, active: Conditions, now: nat): File {
    map k | k in file.Keys + active.Keys ::
      if k in active then Raised(Lookup(file, k), active[k], now) else Lowered(file[k], now)
  }

  function ClearedKeys(f: File): set<string> { set k | k in f && f[k].phase == CLEARED }

  /** The lexicographic order of texts. */
  predicate Less(a: string, b: string) {
    b != [] && (a == [] || a[0] < b[0] || (a[0] == b[0] && Less(a[1..], b[1..])))
  }

  function Age(a: Alert): nat { if a.clearedAt.None? then 0 else a.clearedAt.value + 1 }

  /** The order in which cleared records are evicted: the stored file lists its records by key, and sorting
      by the time they were cleared keeps that order among equals. */
  predicate Before(f: File, a: string, b: string)
    requires a in f && b in f
  {
    Age(f[a]) < Age(f[b]) || (Age(f[a]) == Age(f[b]) && Less(a, b))
  }

  /** The records that `retention` cleared ones come after. */
  function Surplus(f: File, retention: nat): set<string> {
    set k | k in ClearedKeys(f) && |Later(f, k)| >= retention
  }

  function Later(f: File, k: string): set<string>
    requires k in f
  {
    set j | j in ClearedKeys(f) && Before(f, k, j)
  }

  function Evaluated(file: File, active: Conditions, now: nat, retention: nat): File {
    var m := Merged(file, active, now);
    m - Surplus(m, retention)
  }

  // ---------------------------------------------------------------- the order is total

  lemma {:induction false} LessIsStrict(a: string)
    ensures !Less(a, a)
  {
    if a != [] {
      LessIsStrict(a[1..]);
    }
  }

  lemma {:induction false} LessIsTotal(a: string, b: string)
    ensures a == b || Less(a, b) || Less(b, a)
  {
    if a != [] && b != [] && a[0] == b[0] {
      LessIsTotal(a[1..], b[1..]);
      assert a[1..] == b[1..] ==> a == [a[0]] + a[1..] == b;
    }
  }

  lemma {:induction false} LessIsTransitive(a: string, b: string, c: string)
    requires Less(a, b) && Less(b, c)
    ensures Less(a, c)
  {
    if a != [] && a[0] == b[0] == c[0] {
      LessIsTransitive(a[1..], b[1..], c[1..]);
    }
  }

  // ---------------------------------------------------------------- sorting

  ghost predicate InOrder(f: File, t: seq<string>) {
    && (forall i | 0 <= i < |t| :: t[i] in f)
    && (forall i, j | 0 <= i < j < |t| :: Before(f, t[i], t[j]))
  }

  /** Where `k` belongs in a sorted list. */
  method Position(f: File, t: seq<string>, k: string) returns (p: nat)
    requires InOrder(f, t) && k in f && k !in t
    ensures p <= |t| && (forall i | 0 <= i < p :: Before(f, t[i], k)) && (forall i | p <= i < |t| :: Before(f, k, t[i]))
  {
    p := 0;
    while p < |t| && Before(f, t[p], k)
      invariant p <= |t| && forall i | 0 <= i < p :: Before(f, t[i], k)
    {
      p := p + 1;
    }
    if p < |t| {
      LessIsTotal(t[p], k);
      forall i | p <= i < |t| ensures Before(f, k, t[i]) {
        if i > p {
          BeforeIsTransitive(f, k, t[p], t[i]);
        }
      }
    }
  }

  lemma BeforeIsTransitive(f: File, a: string, b: string, c: string)
    requires a in f && b in f && c in f && Before(f, a, b) && Before(f, b, c)
    ensures Before(f, a, c)
  {
    if Less(a, b) && Less(b, c) {
      LessIsTransitive(a, b, c);
    }
  }

  /** The cleared records, next to be evicted first. */
  method SortCleared(f: File) returns (t: seq<string>)
    ensures InOrder(f, t) && (set k | k in t) == ClearedKeys(f)
  {
    t := [];
    var left := ClearedKeys(f);
    while left != {}
      invariant InOrder(f, t) && left <= ClearedKeys(f) && (set k | k in t) == ClearedKeys(f) - left
      decreases |left|
    {
      var k :| k in left;
      assert k !in t;
      var p := Position(f, t, k);
      Inserted(f, t, p, k);
      hide InOrder;
      t := t[..p] + [k] + t[p..];
      left := left - {k};
    }
  }

  lemma Inserted(f: File, t: seq<string>, p: nat, k: string)
    requires p <= |t| && InOrder(f, t) && k in f
    requires (forall i | 0 <= i < p :: Before(f, t[i], k)) && (forall i | p <= i < |t| :: Before(f, k, t[i]))
    ensures (set x | x in t[..p] + [k] + t[p..]) == (set x | x in t) + {k}
    ensures InOrder(f, t[..p] + [k] + t[p..])
  {
    hide Before;
    var u := t[..p] + [k] + t[p..];
    assert t == t[..p] + t[p..];
    forall i, j | 0 <= i < j < |u| ensures Before(f, u[i], u[j]) {
      assert i < p ==> u[i] == t[i];
      assert i > p ==> u[i] == t[i - 1];
      assert j < p ==> u[j] == t[j];
      assert j > p ==> u[j] == t[j - 1];
    }
  }

  lemma LaterInOrder(f: File, t: seq<string>, i: nat)
    requires InOrder(f, t) && (set k | k in t) == ClearedKeys(f) && i < |t|
    ensures |Later(f, t[i])| == |t| - 1 - i
  {
    var rest := t[i + 1..];
    forall j ensures j in Later(f, t[i]) <==> j in rest {
      if j in Later(f, t[i]) {
        assert j in t;
        var n :| 0 <= n < |t| && t[n] == j;
        if n <= i {
          NotBothWays(f, t[n], t[i]);
        }
        assert j == rest[n - i - 1];
      }
      assert forall n | 0 <= n < |rest| :: rest[n] == t[n + i + 1] && rest[n] in t;
    }
    assert Later(f, t[i]) == (set j | j in rest);
    forall a, b | 0 <= a < b < |rest| ensures rest[a] != rest[b] {
      NotBothWays(f, rest[a], rest[b]);
    }
    DistinctCount(rest);
  }

  lemma NotBothWays(f: File, a: string, b: string)
    requires a in f && b in f && (a == b || Before(f, a, b))
    ensures !Before(f, b, a)
  {
    LessIsStrict(a);
    if Less(a, b) && Less(b, a) {
      LessIsTransitive(a, b, a);
    }
  }

  lemma {:induction false} DistinctCount(t: seq<string>)
    requires forall a, b | 0 <= a < b < |t| :: t[a] != t[b]
    ensures |set k | k in t| == |t|
  {
    if t != [] {
      DistinctCount(t[1..]);
      assert (set k | k in t) == {t[0]} + set k | k in t[1..];
    }
  }

  /** The surplus is a prefix of the sorted list. */
  lemma SurplusIsPrefix(f: File, t: seq<string>, retention: nat)
    requires InOrder(f, t) && (set k | k in t) == ClearedKeys(f)
    ensures var n := if |t| > retention then |t| - retention else 0;
            Surplus(f, retention) == set k | k in t[..n]
  {
    var n := if |t| > retention then |t| - retention else 0;
    forall k ensures k in Surplus(f, retention) <==> k in t[..n] {
      if k in ClearedKeys(f) {
        assert k in t;
        var i :| 0 <= i < |t| && t[i] == k;
        LaterInOrder(f, t, i);
        if k in t[..n] {
          var j :| 0 <= j < n && t[j] == k;
          LaterInOrder(f, t, j);
        }
      } else {
        assert k !in t;
      }
    }
  }

  // ---------------------------------------------------------------- the engine

  class MonitoringEngine {
    const retention: nat
    /** The alert file. */
    var file: File

    constructor (wanted: int)
      ensures retention >= 10 && retention == (if wanted >= 10 then wanted else 10) && file == map[]
    {
      retention := if wanted >= 10 then wanted else 10;
      file := map[];
    }

    method CollectServices(services: seq<Service>) returns (active: Conditions)
      ensures active == FromServices(services)
    {
      hide ServiceConditions;
      active := map[];
      for i := 0 to |services|
        invariant active == FromServices(services[..i])
      {
        active := active + ServiceConditions(services[i]);
        assert services[..i + 1][..i] == services[..i];
      }
      assert services[..|services|] == services;
    }

    method CollectHosts(hosts: seq<Host>) returns (active: Conditions)
      ensures active == FromHosts(hosts)
    {
      hide HostConditions;
      active := map[];
      for i := 0 to |hosts|
        invariant active == FromHosts(hosts[..i])
      {
        active := active + HostConditions(hosts[i]);
        assert hosts[..i + 1][..i] == hosts[..i];
      }
      assert hosts[..|hosts|] == hosts;
    }

    method Collect(s: Snapshot) returns (active: Conditions)
      ensures active == ActiveConditions(s)
    {
      hide FromServices, FromHosts;
      active := CollectServices(s.services);
      var ofHosts := CollectHosts(s.hosts);
      active := active + ofHosts;
    }

    method Evaluate(s: Snapshot, now: nat) returns (records: File)
      modifies this
      ensures file == records == Evaluated(old(file), ActiveConditions(s), now, retention)
    {
      hide Merged, Surplus;
      var active := Collect(s);
      var merged := Merge(active, now);
      records := Trim(merged);
      file := records;
    }

    /** The cleared records beyond the retention go, oldest first. */
    method Trim(merged: File) returns (records: File)
      ensures records == merged - Surplus(merged, retention)
    {
      var cleared := SortCleared(merged);
      SurplusIsPrefix(merged, cleared, retention);
      hide Surplus, InOrder, ClearedKeys;
      records := merged;
      if |cleared| > retention {
        for i := 0 to |cleared| - retention
          invariant records == merged - set k | k in cleared[..i]
        {
          records := records - {cleared[i]};
          assert cleared[..i + 1] == cleared[..i] + [cleared[i]];
        }
      }
    }

    /** The active conditions first, then what the file has besides. */
    method Merge(active: Conditions, now: nat) returns (records: File)
      ensures records == Merged(file, active, now)
    {
      hide Raised, Lowered, Lookup;
      var raised := Raise(active, now);
      var others := Lower(file.Keys - active.Keys, now);
      records := raised + others;
    }

    method Lower(keys: set<string>, now: nat) returns (records: File)
      requires keys <= file.Keys
      ensures records.Keys == keys && forall k | k in keys :: records[k] == Lowered(file[k], now)
    {
      hide Lowered;
      records := map[];
      var left := keys;
      while left != {}
        invariant left <= keys && records.Keys == keys - left
        invariant forall k | k in records :: records[k] == Lowered(file[k], now)
        decreases |left|
      {
        var k :| k in left;
        records := records[k := Lowered(file[k], now)];
        left := left - {k};
      }
    }

    method Raise(active: Conditions, now: nat) returns (records: File)
      ensures records.Keys == active.Keys
              && forall k | k in active :: records[k] == Raised(Lookup(file, k), active[k], now)
    {
      hide Raised, Lookup;
      records := map[];
      var left := active.Keys;
      while left != {}
        invariant left <= active.Keys && records.Keys == active.Keys - left
        invariant forall k | k in records :: records[k] == Raised(Lookup(file, k), active[k], now)
        decreases |left|
      {
        var k :| k in left;
        records := records[k := Raised(Lookup(file, k), active[k], now)];
        left := left - {k};
      }
    }
  }
}
