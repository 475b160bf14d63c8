// Dependency relations as finite directed graphs: paths, cycles and dependency orders.
module Graphs {
  import opened Plans

  // An edge leads from a subtask to one of its dependencies.  An id without an
  // entry has no dependencies, as when a Go map is read at an absent key.
  type Deps = map<Id, seq<Id>>

  function DepsOf(g: Deps, id: Id): seq<Id> {
    if id in g then g[id] else []
  }

  predicate Edge(g: Deps, from: Id, to: Id) {
    to in DepsOf(g, from)
  }

  ghost predicate IsPath(g: Deps, p: seq<Id>) {
    && p != []
    && forall k :: 0 <= k < |p| - 1 ==> Edge(g, p[k], p[k + 1])
  }

  ghost predicate PathFrom(g: Deps, p: seq<Id>, from: Id, to: Id) {
    IsPath(g, p) && p[0] == from && p[|p| - 1] == to
  }

  // `from` is `to`, or depends on it directly or transitively.
  ghost predicate Reaches(g: Deps, from: Id, to: Id) {
    exists p :: PathFrom(g, p, from, to)
  }

  ghost predicate IsCycle(g: Deps, p: seq<Id>) {
    IsPath(g, p) && |p| >= 2 && p[0] == p[|p| - 1]
  }

  ghost predicate HasCycle(g: Deps) {
    exists p :: IsCycle(g, p)
  }

  predicate Closed(g: Deps) {
    forall id, dep :: id in g && dep in g[id] ==> dep in g
  }

  // All ids the graph mentions, declared or not.
  function Universe(g: Deps): (u: set<Id>)
    ensures forall id :: id in g ==> id in u
    ensures forall id, dep :: Edge(g, id, dep) ==> dep in u
  {
    g.Keys + set id, dep | id in g && dep in g[id] :: dep
  }

  predicate Distinct(s: seq<Id>) {
    forall j, k :: 0 <= j < k < |s| ==> s[j] != s[k]
  }

  // Every dependency of a listed id is listed before it.
  predicate DependenciesFirst(g: Deps, order: seq<Id>) {
    forall k, dep :: 0 <= k < |order| && dep in DepsOf(g, order[k]) ==> dep in order[..k]
  }

  // `order` lists every declared id, once, dependencies first.
  ghost predicate Orders(g: Deps, order: seq<Id>) {
    Distinct(order) && DependenciesFirst(g, order) && forall id :: id in g ==> id in order
  }

  lemma {:induction false} DistinctBounded(s: seq<Id>, u: set<Id>)
    requires Distinct(s)
    requires forall id :: id in s ==> id in u
    ensures |s| <= |u|
  {
    if s != [] {
      var last := s[|s| - 1];
      forall id | id in s[..|s| - 1] ensures id in u - {last} {
        assert id in s;
      }
      DistinctBounded(s[..|s| - 1], u - {last});
    }
  }

  lemma PathSuffix(g: Deps, p: seq<Id>, k: nat)
    requires IsPath(g, p) && k < |p|
    ensures IsPath(g, p[k..])
  {
  }

  lemma ReachesStep(g: Deps, a: Id, b: Id, c: Id)
    requires Edge(g, a, b) && Reaches(g, b, c)
    ensures Reaches(g, a, c)
  {
    var p :| PathFrom(g, p, b, c);
    assert PathFrom(g, [a] + p, a, c);
  }

  lemma ReachesSelf(g: Deps, a: Id)
    ensures Reaches(g, a, a)
  {
    assert PathFrom(g, [a], a, a);
  }

  // Positions in a dependency order strictly fall along a path.
  lemma {:induction false} PathDescends(g: Deps, order: seq<Id>, p: seq<Id>, k: nat) returns (j: nat)
    requires DependenciesFirst(g, order)
    requires IsPath(g, p) && k < |order| && p[0] == order[k]
    ensures j <= k && order[j] == p[|p| - 1]
    ensures |p| - 1 <= k - j
  {
    if |p| == 1 {
      j := k;
    } else {
      assert Edge(g, p[0], p[1]);
      var i :| 0 <= i < k && order[..k][i] == p[1];
      PathSuffix(g, p, 1);
      j := PathDescends(g, order, p[1..], i);
    }
  }

  lemma OrderExcludesCycles(g: Deps, order: seq<Id>)
    requires Orders(g, order)
    ensures !HasCycle(g)
  {
    forall p | IsCycle(g, p) ensures false {
      assert Edge(g, p[0], p[1]);
      var k :| 0 <= k < |order| && order[k] == p[0];
      var j := PathDescends(g, order, p, k);
    }
  }

  // Walking dependencies inside `s` must stop when there are no cycles.
  lemma {:induction false} WalkToSource(g: Deps, s: set<Id>, walk: seq<Id>) returns (m: Id)
    requires !HasCycle(g)
    requires IsPath(g, walk) && Distinct(walk)
    requires forall id :: id in walk ==> id in s
    ensures m in s && forall dep :: Edge(g, m, dep) ==> dep !in s
    decreases |s| - |walk|
  {
    DistinctBounded(walk, s);
    var here := walk[|walk| - 1];
    if dep :| dep in DepsOf(g, here) && dep in s {
      if dep in walk {
        var k :| 0 <= k < |walk| && walk[k] == dep;
        PathSuffix(g, walk, k);
        assert IsCycle(g, walk[k..] + [dep]);
        assert false;
      } else {
        var longer := walk + [dep];
        assert IsPath(g, longer);
        DistinctBounded(longer, s);
        m := WalkToSource(g, s, longer);
      }
    } else {
      m := here;
    }
  }

  // Every set of ids of an acyclic graph can be listed dependencies first.
  lemma {:induction false} OrderExists(g: Deps, s: set<Id>) returns (order: seq<Id>)
    requires !HasCycle(g)
    ensures Distinct(order)
    ensures forall id :: id in order <==> id in s
    ensures forall k, dep :: 0 <= k < |order| && Edge(g, order[k], dep) && dep in s ==> dep in order[..k]
    decreases |s|
  {
    if s == {} {
      order := [];
    } else {
      var start :| start in s;
      var m := WalkToSource(g, s, [start]);
      var rest := OrderExists(g, s - {m});
      order := [m] + rest;
      forall k, dep | 0 <= k < |order| && Edge(g, order[k], dep) && dep in s ensures dep in order[..k] {
        assert k > 0;
        assert order[..k] == [m] + rest[..k - 1];
        if dep != m {
          assert Edge(g, rest[k - 1], dep) && dep in s - {m};
          assert dep in rest[..k - 1];
        }
      }
    }
  }

  // A graph is acyclic exactly when its ids can be listed dependencies first.
  lemma AcyclicIffOrdered(g: Deps)
    ensures !HasCycle(g) <==> exists order :: Orders(g, order)
  {
    if !HasCycle(g) {
      var order := AcyclicOrder(g);
    } else {
      forall order | Orders(g, order) ensures false {
        OrderExcludesCycles(g, order);
      }
    }
  }

  lemma AcyclicOrder(g: Deps) returns (order: seq<Id>)
    requires !HasCycle(g)
    ensures Orders(g, order)
  {
    order := OrderExists(g, Universe(g));
    forall k, dep | 0 <= k < |order| && dep in DepsOf(g, order[k]) ensures dep in order[..k] {
      assert Edge(g, order[k], dep);
    }
  }
}
