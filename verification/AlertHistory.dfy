/** What the alert store holds is what happened: every record tells the history of its condition. */
module AlertHistory {
  import opened Wrappers
  import opened Alerts

  datatype Evaluation = Evaluation(snapshot: Snapshot, now: nat)

  /** The alert file after a sequence of evaluations. */
  function Stored(h: seq<Evaluation>, retention: nat): File {
    if h == [] then map[]
    else
      var last := h[|h| - 1];
      Evaluated(Stored(h[..|h| - 1], retention), ActiveConditions(last.snapshot), last.now, retention)
  }

  predicate Holds(h: seq<Evaluation>, i: nat, k: string)
    requires i < |h|
  {
    k in ActiveConditions(h[i].snapshot)
  }

  /** The evaluation that created the record that is there now. */
  function Born(h: seq<Evaluation>, retention: nat, k: string): nat
    requires k in Stored(h, retention)
  {
    var before := h[..|h| - 1];
    if k in Stored(before, retention) then Born(before, retention, k) else |h| - 1
  }

  /** In how many evaluations from `start` on the condition was active. */
  function Occurrences(h: seq<Evaluation>, start: nat, k: string): nat {
    if |h| <= start then 0
    else Occurrences(h[..|h| - 1], start, k) + (if Holds(h, |h| - 1, k) then 1 else 0)
  }

  // ---------------------------------------------------------------- one evaluation

  lemma EvaluatedHas(file: File, active: Conditions, now: nat, retention: nat, k: string)
    ensures var f := Evaluated(file, active, now, retention);
            && (k in active ==> k in f && f[k] == Raised(Lookup(file, k), active[k], now))
            && (k in f && k !in active ==> k in file && f[k] == Lowered(file[k], now))
  {
  }

  /** A record is active exactly when its condition is in the snapshot just evaluated, so an active record
      is never evicted. */
  lemma ActiveIffHolding(h: seq<Evaluation>, retention: nat, k: string)
    requires h != []
    ensures k in Stored(h, retention) && Stored(h, retention)[k].phase == ACTIVE <==> Holds(h, |h| - 1, k)
  {
    var last := h[|h| - 1];
    EvaluatedHas(Stored(h[..|h| - 1], retention), ActiveConditions(last.snapshot), last.now, retention, k);
    hide Evaluated;
  }

  // ---------------------------------------------------------------- records tell their history

  /** `last` is the latest evaluation in which the condition was active. */
  predicate LatestHolding(h: seq<Evaluation>, last: nat, k: string) {
    last < |h| && Holds(h, last, k) && forall i | last < i < |h| :: !Holds(h, i, k)
  }

  /** Everything in a record follows from the history since it was created. */
  predicate Tells(a: Alert, h: seq<Evaluation>, born: nat, last: nat, k: string) {
    && born <= last && LatestHolding(h, last, k) && Holds(h, born, k)
    && a.firstSeen == h[born].now && a.count == Occurrences(h, born, k)
    && a.lastSeen == h[last].now && a.condition == ActiveConditions(h[last].snapshot)[k]
    && (if last == |h| - 1 then a.phase == ACTIVE && a.clearedAt == None
        else a.phase == CLEARED && a.clearedAt == Some(h[last + 1].now))
  }

  lemma {:induction false} RecordTellsHistory(h: seq<Evaluation>, retention: nat, k: string) returns (last: nat)
    requires k in Stored(h, retention)
    ensures Tells(Stored(h, retention)[k], h, Born(h, retention, k), last, k)
  {
    var before, now := h[..|h| - 1], h[|h| - 1];
    assert before + [now] == h;
    hide *;
    var active := ActiveConditions(now.snapshot);
    var file := Stored(before, retention);
    StoredGrows(before, now, retention, k);
    EvaluatedHas(file, active, now.now, retention, k);
    if k in file {
      last := RecordTellsHistory(before, retention, k);
      Extended(file[k], before, now, Born(before, retention, k), last, k);
      if k in active {
        last := |h| - 1;
      }
    } else {
      last := |h| - 1;
      Created(before, now, k);
    }
  }

  lemma StoredGrows(h: seq<Evaluation>, now: Evaluation, retention: nat, k: string)
    ensures var file, g := Stored(h, retention), h + [now];
            && Stored(g, retention) == Evaluated(file, ActiveConditions(now.snapshot), now.now, retention)
            && (k in Stored(g, retention) ==> Born(g, retention, k) == if k in file then Born(h, retention, k) else |h|)
  {
    var g := h + [now];
    assert g[..|g| - 1] == h && g[|h|] == now;
    hide Evaluated, ActiveConditions;
  }

  lemma Created(h: seq<Evaluation>, now: Evaluation, k: string)
    requires k in ActiveConditions(now.snapshot)
    ensures Tells(Raised(None, ActiveConditions(now.snapshot)[k], now.now), h + [now], |h|, |h|, k)
  {
    hide ActiveConditions;
    var g := h + [now];
    assert g[..|g| - 1] == h && g[|h|] == now && Occurrences(h, |h|, k) == 0;
    assert Holds(g, |h|, k);
  }

  /** One more evaluation raises or lowers the record, and what it tells stays true. */
  lemma Extended(a: Alert, h: seq<Evaluation>, now: Evaluation, born: nat, last: nat, k: string)
    requires Tells(a, h, born, last, k)
    ensures var active := ActiveConditions(now.snapshot);
            if k in active then Tells(Raised(Some(a), active[k], now.now), h + [now], born, |h|, k)
            else Tells(Lowered(a, now.now), h + [now], born, last, k)
  {
    hide ActiveConditions;
    var g := h + [now];
    assert g[..|g| - 1] == h;
    assert forall i | 0 <= i < |h| :: g[i] == h[i] && Holds(g, i, k) == Holds(h, i, k);
    assert g[|h|] == now && Holds(g, |h|, k) == (k in ActiveConditions(now.snapshot));
    if Holds(g, |h|, k) {
      assert LatestHolding(g, |h|, k);
    } else {
      assert LatestHolding(g, last, k);
    }
  }

  // ---------------------------------------------------------------- eviction

  /** Nothing evicted was cleared later than something kept. */
  lemma EvictionTakesOldest(f: File, retention: nat, gone: string, kept: string)
    requires gone in Surplus(f, retention) && kept in ClearedKeys(f) - Surplus(f, retention)
    ensures Age(f[gone]) <= Age(f[kept]) && Before(f, gone, kept)
  {
    LessIsTotal(gone, kept);
    if Before(f, kept, gone) {
      forall j | j in Later(f, gone) ensures j in Later(f, kept) {
        BeforeIsTransitive(f, kept, gone, j);
      }
      SubsetIsSmaller(Later(f, gone), Later(f, kept));
    }
  }

  lemma {:induction false} PlaceOf(f: File, t: seq<string>, k: string) returns (p: nat)
    requires InOrder(f, t) && k in f && k !in t
    ensures p <= |t| && (forall i | 0 <= i < p :: Before(f, t[i], k)) && (forall i | p <= i < |t| :: Before(f, k, t[i]))
  {
    if t == [] {
      p := 0;
    } else {
      var last := |t| - 1;
      LessIsTotal(t[last], k);
      if Before(f, t[last], k) {
        forall i | 0 <= i < last ensures Before(f, t[i], k) {
          BeforeIsTransitive(f, t[i], t[last], k);
        }
        p := |t|;
      } else {
        p := PlaceOf(f, t[..last], k);
      }
    }
  }

  lemma {:induction false} SortedKeys(f: File, keys: set<string>) returns (t: seq<string>)
    requires keys <= f.Keys
    ensures InOrder(f, t) && (set k | k in t) == keys
  {
    if keys == {} {
      t := [];
    } else {
      var k :| k in keys;
      var u := SortedKeys(f, keys - {k});
      assert k !in u;
      var p := PlaceOf(f, u, k);
      Inserted(f, u, p, k);
      t := u[..p] + [k] + u[p..];
      hide InOrder;
    }
  }

  /** Of the cleared records as many as fit are kept, and never more than the retention. */
  lemma RetentionIsExact(f: File, retention: nat)
    ensures |ClearedKeys(f) - Surplus(f, retention)|
         == if |ClearedKeys(f)| <= retention then |ClearedKeys(f)| else retention
  {
    var t := SortedKeys(f, ClearedKeys(f));
    SurplusIsPrefix(f, t, retention);
    var n := if |t| > retention then |t| - retention else 0;
    forall i, j | 0 <= i < j < |t| ensures t[i] != t[j] {
      NotBothWays(f, t[i], t[j]);
    }
    hide *;
    DistinctCount(t);
    DistinctCount(t[n..]);
    WithoutPrefix(t, n);
  }

  lemma WithoutPrefix(t: seq<string>, n: nat)
    requires n <= |t| && forall i, j | 0 <= i < j < |t| :: t[i] != t[j]
    ensures (set k | k in t) - (set k | k in t[..n]) == set k | k in t[n..]
  {
    assert t == t[..n] + t[n..];
  }

  lemma ClearedAreBounded(h: seq<Evaluation>, retention: nat)
    requires h != []
    ensures |ClearedKeys(Stored(h, retention))| <= retention
  {
    var last := h[|h| - 1];
    var m := Merged(Stored(h[..|h| - 1], retention), ActiveConditions(last.snapshot), last.now);
    RetentionIsExact(m, retention);
    hide Merged, Surplus, ActiveConditions;
    assert ClearedKeys(m - Surplus(m, retention)) == ClearedKeys(m) - Surplus(m, retention);
  }

  // ---------------------------------------------------------------- where conditions come from

  /** What is to be said of a service: its health, a missing backup, a readiness that blocks it. */
  predicate SaysOfService(s: Service, k: string, c: Condition) {
    || (k == "health:" + s.id && s.health == Unhealthy
        && c == Condition(Critical, OfService(s.id), "service health is unhealthy"))
    || (k == "health:" + s.id && s.health == Degraded
        && c == Condition(Warning, OfService(s.id), "service health is degraded"))
    || (k == "backup:" + s.id && !s.backedUp
        && c == Condition(Warning, OfService(s.id), "no backup evidence recorded"))
    || (k == "qualification:" + s.id && (s.readiness == "NOT_READY" || s.readiness == "BLOCKED")
        && c == Condition(Warning, OfService(s.id), "qualification is " + s.readiness))
  }

  predicate SaysOfHost(h: Host, k: string, c: Condition) {
    k == "host:" + h.id && h.health == Unknown
    && c == Condition(Warning, OfHost(h.id), "remote host has no current telemetry")
  }

  lemma ServiceSaid(s: Service, k: string, c: Condition)
    ensures k in ServiceConditions(s) && ServiceConditions(s)[k] == c <==> SaysOfService(s, k, c)
  {
    assert ("health:" + s.id)[0] == 'h' && ("backup:" + s.id)[0] == 'b' && ("qualification:" + s.id)[0] == 'q';
  }

  lemma HostSaid(h: Host, k: string, c: Condition)
    ensures k in HostConditions(h) && HostConditions(h)[k] == c <==> SaysOfHost(h, k, c)
  {
  }

  ghost predicate Reported(s: Snapshot, k: string, c: Condition) {
    || (exists i :: 0 <= i < |s.services| && SaysOfService(s.services[i], k, c))
    || (exists i :: 0 <= i < |s.hosts| && SaysOfHost(s.hosts[i], k, c))
  }

  /** A key is active exactly when something is to be said under it of some service or host of the snapshot. */
  lemma ActiveIffReported(s: Snapshot, k: string)
    ensures k in ActiveConditions(s) <==> exists c :: Reported(s, k, c)
  {
    hide ServiceConditions, HostConditions, SaysOfService, SaysOfHost;
    ReportedByService(s.services, k);
    ReportedByHost(s.hosts, k);
    forall service: Service, c
      ensures k in ServiceConditions(service) && ServiceConditions(service)[k] == c <==> SaysOfService(service, k, c)
    {
      ServiceSaid(service, k, c);
    }
    forall host: Host, c ensures k in HostConditions(host) && HostConditions(host)[k] == c <==> SaysOfHost(host, k, c) {
      HostSaid(host, k, c);
    }
    if i :| 0 <= i < |s.services| && k in ServiceConditions(s.services[i]) {
      assert Reported(s, k, ServiceConditions(s.services[i])[k]);
    }
    if i :| 0 <= i < |s.hosts| && k in HostConditions(s.hosts[i]) {
      assert Reported(s, k, HostConditions(s.hosts[i])[k]);
    }
  }

  /** No two services and no two hosts share an id. */
  predicate DistinctIds(s: Snapshot) {
    && (forall i, j | 0 <= i < j < |s.services| :: s.services[i].id != s.services[j].id)
    && (forall i, j | 0 <= i < j < |s.hosts| :: s.hosts[i].id != s.hosts[j].id)
  }

  /** With an id each, the active condition is just what is to be said: its severity, its subject and its text. */
  lemma ConditionIsReported(s: Snapshot, k: string, c: Condition)
    requires DistinctIds(s)
    ensures k in ActiveConditions(s) && ActiveConditions(s)[k] == c <==> Reported(s, k, c)
  {
    hide ServiceConditions, HostConditions;
    SaidByService(s.services, k, c);
    SaidByHost(s.hosts, k, c);
    hide SaysOfHost, SaysOfService;
    KindsDiffer(s, k);
    hide FromServices, FromHosts;
  }

  lemma KindsDiffer(s: Snapshot, k: string)
    ensures k in FromServices(s.services) ==> k !in FromHosts(s.hosts)
  {
    hide FromServices, FromHosts, ServiceConditions, HostConditions;
    ReportedByService(s.services, k);
    ReportedByHost(s.hosts, k);
    forall service: Service, host: Host ensures k in ServiceConditions(service) ==> k !in HostConditions(host) {
      KeysDiffer(service, host, k);
    }
  }

  lemma KeysDiffer(s: Service, h: Host, k: string)
    ensures k in ServiceConditions(s) ==> k !in HostConditions(h)
  {
    assert ("health:" + s.id)[1] == 'e' && ("backup:" + s.id)[0] == 'b' && ("qualification:" + s.id)[0] == 'q';
    assert ("host:" + h.id)[0] == 'h' && ("host:" + h.id)[1] == 'o';
  }

  lemma {:induction false} SaidByService(services: seq<Service>, k: string, c: Condition)
    requires forall i, j | 0 <= i < j < |services| :: services[i].id != services[j].id
    ensures k in FromServices(services) && FromServices(services)[k] == c <==>
              exists i :: 0 <= i < |services| && SaysOfService(services[i], k, c)
  {
    hide ServiceConditions, SaysOfService;
    if services != [] {
      var rest, last := services[..|services| - 1], services[|services| - 1];
      SaidByService(rest, k, c);
      ServiceSaid(last, k, c);
      if k in ServiceConditions(last) {
        forall i | 0 <= i < |rest| ensures !SaysOfService(rest[i], k, c) {
          OneService(rest[i], last, k, c);
        }
      }
    }
  }

  lemma OneService(s: Service, t: Service, k: string, c: Condition)
    requires s.id != t.id && k in ServiceConditions(t)
    ensures !SaysOfService(s, k, c)
  {
    SameEnds("health:", s.id, t.id);
    SameEnds("backup:", s.id, t.id);
    SameEnds("qualification:", s.id, t.id);
    assert ("health:" + s.id)[0] == 'h' && ("backup:" + s.id)[0] == 'b' && ("qualification:" + s.id)[0] == 'q';
    assert ("health:" + t.id)[0] == 'h' && ("backup:" + t.id)[0] == 'b' && ("qualification:" + t.id)[0] == 'q';
  }

  lemma SameEnds(start: string, a: string, b: string)
    ensures start + a == start + b ==> a == b
  {
    assert (start + a)[|start|..] == a && (start + b)[|start|..] == b;
  }

  lemma {:induction false} SaidByHost(hosts: seq<Host>, k: string, c: Condition)
    requires forall i, j | 0 <= i < j < |hosts| :: hosts[i].id != hosts[j].id
    ensures k in FromHosts(hosts) && FromHosts(hosts)[k] == c <==>
              exists i :: 0 <= i < |hosts| && SaysOfHost(hosts[i], k, c)
  {
    hide HostConditions, SaysOfHost;
    if hosts != [] {
      var rest, last := hosts[..|hosts| - 1], hosts[|hosts| - 1];
      SaidByHost(rest, k, c);
      HostSaid(last, k, c);
      if k in HostConditions(last) {
        forall i | 0 <= i < |rest| ensures !SaysOfHost(rest[i], k, c) {
          OneHost(rest[i], last, k, c);
        }
      }
    }
  }

  lemma OneHost(h: Host, g: Host, k: string, c: Condition)
    requires h.id != g.id && k in HostConditions(g)
    ensures !SaysOfHost(h, k, c)
  {
    SameEnds("host:", h.id, g.id);
  }

  lemma {:induction false} ReportedByService(services: seq<Service>, k: string)
    ensures k in FromServices(services) <==> exists i :: 0 <= i < |services| && k in ServiceConditions(services[i])
  {
    hide ServiceConditions;
    if services != [] {
      ReportedByService(services[..|services| - 1], k);
    }
  }

  lemma {:induction false} ReportedByHost(hosts: seq<Host>, k: string)
    ensures k in FromHosts(hosts) <==> exists i :: 0 <= i < |hosts| && k in HostConditions(hosts[i])
  {
    hide HostConditions;
    if hosts != [] {
      ReportedByHost(hosts[..|hosts| - 1], k);
    }
  }
}
