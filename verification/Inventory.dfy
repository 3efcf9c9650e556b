/** The network inventory: listener collisions and the depth-first search for dependency cycles
    (scripts/ubb_network_hardening.py). */
module Inventory {
  import opened Wrappers

  type Dependencies = map<string, seq<string>>

  /** Only services that have an entry of their own count as dependencies. */
  predicate Edge(deps: Dependencies, a: string, b: string) { a in deps && b in deps && b in deps[a] }

  predicate Walk(deps: Dependencies, path: seq<string>) {
    && (forall i | 0 <= i < |path| :: path[i] in deps)
    && (forall i | 0 <= i < |path| - 1 :: Edge(deps, path[i], path[i + 1]))
  }

  predicate Cycle(deps: Dependencies, path: seq<string>) {
    path != [] && Walk(deps, path) && Edge(deps, path[|path| - 1], path[0])
  }

  ghost predicate HasCycle(deps: Dependencies) { exists path :: Cycle(deps, path) }

  /** Every node comes once, after everything it depends on. */
  ghost predicate Finished(deps: Dependencies, order: seq<string>) {
    && (forall i | 0 <= i < |order| :: order[i] in deps)
    && (forall i, j | 0 <= i < j < |order| :: order[i] != order[j])
    && (forall i, b | 0 <= i < |order| && Edge(deps, order[i], b) :: b in order[..i])
  }

  // ---------------------------------------------------------------- orders and cycles exclude each other

  lemma {:induction false} WalkGoesDown(deps: Dependencies, order: seq<string>, path: seq<string>, at: nat)
    returns (end: nat)
    requires Finished(deps, order) && Walk(deps, path) && path != []
    requires at < |order| && order[at] == path[0]
    ensures end < |order| && order[end] == path[|path| - 1] && end + |path| - 1 <= at
  {
    if |path| == 1 {
      end := at;
    } else {
      assert Edge(deps, path[0], path[1]);
      var next :| 0 <= next < at && order[next] == path[1];
      assert forall i | 0 <= i < |path[1..]| :: path[1..][i] == path[i + 1];
      end := WalkGoesDown(deps, order, path[1..], next);
    }
  }

  lemma OrderExcludesCycle(deps: Dependencies, order: seq<string>, path: seq<string>)
    requires Finished(deps, order) && forall n | n in deps :: n in order
    ensures !Cycle(deps, path)
  {
    if Cycle(deps, path) {
      var at :| 0 <= at < |order| && order[at] == path[0];
      var end := WalkGoesDown(deps, order, path, at);
    }
  }

  // ---------------------------------------------------------------- the search

  /** One run of `_check_cycles`: `visiting` and `done` are its sets, `stack` and `order` the histories of
      what is being visited and of what was finished. */
  class Search {
    const deps: Dependencies
    var visiting: set<string>
    var done: set<string>
    ghost var stack: seq<string>
    ghost var order: seq<string>

    ghost predicate Valid()
      reads this
    {
      && Walk(deps, stack) && visiting == (set n | n in stack) && done == (set n | n in order)
      && Finished(deps, order) && visiting !! done
    }

    constructor (d: Dependencies)
      ensures Valid() && deps == d && stack == [] && order == []
    {
      deps, visiting, done, stack, order := d, {}, {}, [], [];
    }

    ghost function Unseen(): set<string>
      reads this
    {
      deps.Keys - visiting - done
    }

    /** `visit`: it raises only when there is a cycle, and otherwise finishes its node and leaves the
        nodes being visited as they were. */
    method Visit(n: string) returns (ok: bool)
      requires Valid() && n in deps && (stack != [] ==> Edge(deps, stack[|stack| - 1], n))
      modifies this
      ensures !ok ==> HasCycle(deps)
      ensures ok ==> Valid() && stack == old(stack) && visiting == old(visiting) && old(done) <= done && n in done
      decreases |Unseen()|, 0
    {
      if n in visiting {
        CutOut(deps, stack, n);
        return false;
      }
      if n in done {
        return true;
      }
      assert n !in stack && n in Unseen();
      Smaller(Unseen() - {n}, Unseen(), n);
      hide Valid, HasCycle, Unseen;
      ok := VisitNew(n);
    }

    method VisitNew(n: string) returns (ok: bool)
      requires Valid() && n in deps && (stack != [] ==> Edge(deps, stack[|stack| - 1], n))
      requires n !in visiting && n !in done && n !in stack && |Unseen() - {n}| < |Unseen()|
      modifies this
      ensures !ok ==> HasCycle(deps)
      ensures ok ==> Valid() && stack == old(stack) && visiting == old(visiting) && old(done) <= done && n in done
      decreases |Unseen() - {n}|, 2
    {
      hide Valid, HasCycle, Unseen, Edge;
      Enter(n);
      assert stack[..|stack| - 1] == old(stack);
      ok := VisitDependencies(n);
      if ok {
        Leave(n);
      }
    }

    /** The loop of `visit`. */
    method VisitDependencies(n: string) returns (ok: bool)
      requires Valid() && n in deps && stack != [] && stack[|stack| - 1] == n
      modifies this
      ensures !ok ==> HasCycle(deps)
      ensures ok ==> Valid() && stack == old(stack) && visiting == old(visiting) && old(done) <= done
      ensures ok ==> forall b | Edge(deps, n, b) :: b in done
      decreases |Unseen()|, 1
    {
      hide Finished, Walk, HasCycle;
      ghost var before := Unseen();
      var k := 0;
      while k < |deps[n]|
        invariant k <= |deps[n]| && Valid() && stack == old(stack) && visiting == old(visiting) && old(done) <= done
        invariant forall i | 0 <= i < k && deps[n][i] in deps :: deps[n][i] in done
      {
        if deps[n][k] in deps {
          SubsetIsSmaller(Unseen(), before);
          ok := Visit(deps[n][k]);
          if !ok {
            return false;
          }
        }
        k := k + 1;
      }
      return true;
    }

    method Enter(n: string)
      requires Valid() && n in deps && n !in visiting && n !in done
               && (stack != [] ==> Edge(deps, stack[|stack| - 1], n))
      modifies this
      ensures Valid() && stack == old(stack) + [n] && order == old(order)
      ensures visiting == old(visiting) + {n} && done == old(done) && Unseen() == old(Unseen()) - {n}
    {
      visiting, stack := visiting + {n}, stack + [n];
    }

    method Leave(n: string)
      requires Valid() && stack != [] && stack[|stack| - 1] == n && n !in stack[..|stack| - 1]
      requires forall b | Edge(deps, n, b) :: b in done
      modifies this
      ensures Valid() && stack == old(stack)[..|old(stack)| - 1] && order == old(order) + [n]
      ensures visiting == old(visiting) - {n} && done == old(done) + {n}
    {
      assert n in visiting;
      assert stack == stack[..|stack| - 1] + [n];
      visiting, done := visiting - {n}, done + {n};
      stack, order := stack[..|stack| - 1], order + [n];
      assert Finished(deps, order) by {
        forall i, b | 0 <= i < |order| && Edge(deps, order[i], b) ensures b in order[..i] {
          assert order[..i] == old(order)[..i];
        }
      }
    }
  }

  lemma Smaller(a: set<string>, b: set<string>, n: string)
    requires a <= b - {n} && n in b
    ensures |a| < |b|
  {
    SubsetIsSmaller(a, b - {n});
  }

  /** Coming back to a node on the stack closes a cycle. */
  lemma CutOut(deps: Dependencies, stack: seq<string>, n: string)
    requires Walk(deps, stack) && n in stack && Edge(deps, stack[|stack| - 1], n)
    ensures HasCycle(deps)
  {
    var i :| 0 <= i < |stack| && stack[i] == n;
    var path := stack[i..];
    assert forall k | 0 <= k < |path| :: path[k] == stack[i + k];
    assert Cycle(deps, path);
  }

  /** `_check_cycles`, over the entries in the order the mapping lists them. */
  method CheckCycles(deps: Dependencies, entries: seq<string>) returns (ok: bool, ghost order: seq<string>)
    requires forall n :: n in deps <==> n in entries
    ensures ok <==> !HasCycle(deps)
    ensures ok ==> Finished(deps, order) && forall n | n in deps :: n in order
  {
    var search := new Search(deps);
    for k := 0 to |entries|
      invariant search.Valid() && search.deps == deps && search.stack == [] && fresh(search)
      invariant forall i | 0 <= i < k :: entries[i] in search.done
    {
      ok := search.Visit(entries[k]);
      if !ok {
        return false, [];
      }
    }
    order := search.order;
    forall path ensures !Cycle(deps, path) {
      OrderExcludesCycle(deps, order, path);
    }
    return true, order;
  }

  // ---------------------------------------------------------------- listeners

  datatype Listener = Listener(service: string, protocol: string, host: string, port: int)
  datatype Key = Key(protocol: string, host: string, port: int)

  function KeyOf(l: Listener): Key { Key(l.protocol, l.host, l.port) }

  predicate Collide(ls: seq<Listener>, i: nat, j: nat) { i < j < |ls| && KeyOf(ls[i]) == KeyOf(ls[j]) }

  datatype Verdict = Fine | Collision(later: string, earlier: string) | DependencyCycle

  /** `validate`: the first listener that repeats an earlier one is named with it; cycles come second. */
  method Validate(ls: seq<Listener>, deps: Dependencies, entries: seq<string>) returns (v: Verdict)
    requires forall n :: n in deps <==> n in entries
    ensures v.Fine? <==> (forall i: nat, j: nat :: !Collide(ls, i, j)) && !HasCycle(deps)
    ensures v.DependencyCycle? <==> (forall i: nat, j: nat :: !Collide(ls, i, j)) && HasCycle(deps)
    ensures v.Collision? ==>
              exists i: nat, j: nat :: Collide(ls, i, j) && v == Collision(ls[j].service, ls[i].service)
                                       && forall a: nat, b: nat :: Collide(ls, a, b) ==> j <= b
  {
    var seen: map<Key, string> := map[];
    for j := 0 to |ls|
      invariant forall b: nat, a: nat | b < j :: !Collide(ls, a, b)
      invariant forall i | 0 <= i < j :: KeyOf(ls[i]) in seen && seen[KeyOf(ls[i])] == ls[i].service
      invariant forall k | k in seen :: exists i :: 0 <= i < j && KeyOf(ls[i]) == k
    {
      var key := KeyOf(ls[j]);
      if key in seen {
        var i :| 0 <= i < j && KeyOf(ls[i]) == key;
        assert Collide(ls, i, j);
        return Collision(ls[j].service, seen[key]);
      }
      seen := seen[key := ls[j].service];
    }
    var ok, order := CheckCycles(deps, entries);
    return if ok then Fine else DependencyCycle;
  }
}
