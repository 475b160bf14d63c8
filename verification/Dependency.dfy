// The dependency graph of a plan (internal/task/dependency.go).
module Dependency {
  import opened Basics
  import opened Plans
  import opened Graphs

  type Statuses = map<Id, Status>

  datatype SortResult = Cyclic | Sorted(order: seq<Option<Subtask>>)
  datatype Color = White | Gray | Black

  // ---------- specification on values ----------

  // Reading a Go map at an absent key yields the empty string.
  function StatusOf(st: Statuses, id: Id): Status {
    if id in st then st[id] else Unset
  }

  predicate Live(st: Statuses, id: Id) {
    StatusOf(st, id) == Pending || StatusOf(st, id) == Running
  }

  predicate DepsCompleted(g: Deps, st: Statuses, id: Id) {
    forall dep :: dep in DepsOf(g, id) ==> StatusOf(st, dep) == Completed
  }

  predicate Ready(g: Deps, st: Statuses, id: Id) {
    StatusOf(st, id) == Pending && DepsCompleted(g, st, id)
  }

  function NodesOf(plan: seq<Subtask>): (nodes: map<Id, Subtask>)
    ensures forall id :: id in nodes <==> HasId(plan, id)
    ensures forall id :: id in nodes ==> nodes[id].id == id && nodes[id] in plan
  {
    if plan == [] then map[]
    else
      var last := plan[|plan| - 1];
      var rest := NodesOf(plan[..|plan| - 1]);
      assert forall id :: HasId(plan, id) <==> HasId(plan[..|plan| - 1], id) || id == last.id by {
        forall id | HasId(plan[..|plan| - 1], id) ensures HasId(plan, id) {
          var k :| 0 <= k < |plan| - 1 && plan[..|plan| - 1][k].id == id;
          assert plan[k].id == id;
        }
        forall id | HasId(plan, id) && id != last.id ensures HasId(plan[..|plan| - 1], id) {
          var k :| 0 <= k < |plan| && plan[k].id == id;
          assert plan[..|plan| - 1][k].id == id;
        }
        assert plan[|plan| - 1].id == last.id;
      }
      rest[last.id := last]
  }

  function EdgesIn(nodes: map<Id, Subtask>): Deps {
    map id | id in nodes :: nodes[id].dependsOn
  }

  function EdgesOf(plan: seq<Subtask>): Deps {
    EdgesIn(NodesOf(plan))
  }

  function InitialStatus(s: Status): Status {
    if s == Unset then Pending else s
  }

  function StatusesIn(nodes: map<Id, Subtask>): Statuses {
    map id | id in nodes :: InitialStatus(nodes[id].status)
  }

  function StatusesOf(plan: seq<Subtask>): Statuses {
    StatusesIn(NodesOf(plan))
  }

  // A dependency path to `x` whose nodes before `x` are all pending or running.
  ghost predicate LivePath(g: Deps, st: Statuses, p: seq<Id>, from: Id, x: Id) {
    && PathFrom(g, p, from, x)
    && |p| >= 2
    && forall k :: 0 <= k < |p| - 1 ==> Live(st, p[k])
  }

  ghost predicate LiveReaches(g: Deps, st: Statuses, from: Id, x: Id) {
    exists p :: LivePath(g, st, p, from, x)
  }

  // The statuses after everything live that reaches `x` has been skipped.
  ghost function Skipping(g: Deps, st: Statuses, x: Id): (r: Statuses)
    ensures r.Keys == st.Keys
  {
    map id | id in st :: if LiveReaches(g, st, id, x) then Skipped else st[id]
  }

  ghost function Failing(g: Deps, st: Statuses, x: Id): Statuses {
    Skipping(g, st[x := Failed], x)
  }

  // ---------- lemmas ----------

  // With unique ids every subtask is the node stored under its id.
  lemma {:induction false} NodesOfUnique(plan: seq<Subtask>)
    requires UniqueIds(plan)
    ensures forall st :: st in plan ==> st.id in NodesOf(plan) && NodesOf(plan)[st.id] == st
  {
    if plan != [] {
      NodesOfUnique(plan[..|plan| - 1]);
      forall st | st in plan ensures st.id in NodesOf(plan) && NodesOf(plan)[st.id] == st {
        var k :| 0 <= k < |plan| && plan[k] == st;
        if k < |plan| - 1 {
          assert plan[..|plan| - 1][k] == st;
        }
      }
    }
  }

  lemma NodesOfNext(plan: seq<Subtask>, i: nat)
    requires i < |plan|
    ensures NodesOf(plan[..i + 1]) == NodesOf(plan[..i])[plan[i].id := plan[i]]
    ensures EdgesOf(plan[..i + 1]) == EdgesOf(plan[..i])[plan[i].id := plan[i].dependsOn]
    ensures StatusesOf(plan[..i + 1]) == StatusesOf(plan[..i])[plan[i].id := InitialStatus(plan[i].status)]
  {
    hide HasId, EdgesIn, StatusesIn;
    assert plan[..i + 1][..i] == plan[..i];
    NodeAdded(NodesOf(plan[..i]), plan[i]);
  }

  lemma NodeAdded(nodes: map<Id, Subtask>, st: Subtask)
    ensures EdgesIn(nodes[st.id := st]) == EdgesIn(nodes)[st.id := st.dependsOn]
    ensures StatusesIn(nodes[st.id := st]) == StatusesIn(nodes)[st.id := InitialStatus(st.status)]
  {
  }

  predicate LastWith(plan: seq<Subtask>, id: Id, k: nat)
    requires k < |plan|
  {
    plan[k].id == id && forall j :: k < j < |plan| ==> plan[j].id != id
  }

  // The graph has this subtask under its id: its dependencies, and its status, with an
  // empty one read as pending.
  predicate Stores(nodes: map<Id, Subtask>, edges: Deps, status: Statuses, st: Subtask) {
    && st.id in nodes && nodes[st.id] == st
    && st.id in edges && edges[st.id] == st.dependsOn
    && st.id in status && (st.status == Unset ==> status[st.id] == Pending)
    && (st.status != Unset ==> status[st.id] == st.status)
  }

  lemma NothingStored(plan: seq<Subtask>)
    ensures NodesOf(plan[..0]) == map[] && EdgesOf(plan[..0]) == map[] && StatusesOf(plan[..0]) == map[]
  {
  }

  // The last of several subtasks with one id is the one that counts.
  lemma LastIsStored(plan: seq<Subtask>)
    ensures NodesOf(plan).Keys == EdgesOf(plan).Keys == StatusesOf(plan).Keys
    ensures forall k :: 0 <= k < |plan| && LastWith(plan, plan[k].id, k) ==>
              Stores(NodesOf(plan), EdgesOf(plan), StatusesOf(plan), plan[k])
  {
    forall k | 0 <= k < |plan| && LastWith(plan, plan[k].id, k)
      ensures Stores(NodesOf(plan), EdgesOf(plan), StatusesOf(plan), plan[k])
    {
      LastStored(plan, k);
    }
  }

  lemma {:induction false} LastStored(plan: seq<Subtask>, k: nat)
    requires k < |plan| && LastWith(plan, plan[k].id, k)
    ensures Stores(NodesOf(plan), EdgesOf(plan), StatusesOf(plan), plan[k])
  {
    hide NodesOf, EdgesIn, StatusesIn, Stores;
    var n := |plan| - 1;
    assert plan[..n + 1] == plan;
    NodesOfNext(plan, n);
    if k < n {
      assert forall j :: k < j < n ==> plan[..n][j] == plan[j];
      LastStored(plan[..n], k);
    }
    StoresNext(NodesOf(plan[..n]), EdgesOf(plan[..n]), StatusesOf(plan[..n]), plan[n]);
  }

  lemma StoresNext(nodes: map<Id, Subtask>, edges: Deps, status: Statuses, last: Subtask)
    ensures var nodes', edges', status' :=
        nodes[last.id := last], edges[last.id := last.dependsOn], status[last.id := InitialStatus(last.status)];
      && Stores(nodes', edges', status', last)
      && forall st: Subtask :: st.id != last.id && Stores(nodes, edges, status, st) ==> Stores(nodes', edges', status', st)
  {
  }

  // A validated plan has a closed dependency graph.
  lemma ValidPlanCloses(plan: seq<Subtask>)
    requires ValidSubtasks(plan)
    ensures Closed(EdgesOf(plan))
  {
    forall id, dep | id in EdgesOf(plan) && dep in EdgesOf(plan)[id] ensures dep in EdgesOf(plan) {
      var st := NodesOf(plan)[id];
      var k :| 0 <= k < |plan| && plan[k] == st;
      assert dep in plan[k].dependsOn;
    }
  }

  lemma LiveReachesEdge(g: Deps, st: Statuses, y: Id, x: Id)
    requires Edge(g, y, x) && Live(st, y)
    ensures LiveReaches(g, st, y, x)
  {
    assert LivePath(g, st, [y, x], y, x);
  }

  lemma LiveReachesStep(g: Deps, st: Statuses, y: Id, z: Id, x: Id)
    requires Edge(g, y, z) && Live(st, y) && LiveReaches(g, st, z, x)
    ensures LiveReaches(g, st, y, x)
  {
    var p :| LivePath(g, st, p, z, x);
    assert LivePath(g, st, [y] + p, y, x);
  }

  // A live path to `id` extends by one edge to a live path, in any statuses with more live nodes.
  lemma LiveReachesExtend(g: Deps, st: Statuses, wider: Statuses, y: Id, id: Id, x: Id)
    requires LiveReaches(g, st, y, id)
    requires forall a :: Live(st, a) ==> Live(wider, a)
    requires Live(wider, id) && Edge(g, id, x)
    ensures LiveReaches(g, wider, y, x)
  {
    var p :| LivePath(g, st, p, y, id);
    assert LivePath(g, wider, p + [x], y, x);
  }

  lemma LiveReachesLive(g: Deps, st: Statuses, y: Id, x: Id)
    requires LiveReaches(g, st, y, x)
    ensures Live(st, y) && y in g
    ensures exists z :: Edge(g, y, z) && (z == x || LiveReaches(g, st, z, x))
  {
    var p :| LivePath(g, st, p, y, x);
    assert Edge(g, p[0], p[1]);
    if |p| > 2 {
      assert LivePath(g, st, p[1..], p[1], x);
    }
  }

  // If no live node depends on `x` or on anything skipped, nothing live still reaches `x`.
  lemma {:induction false} NothingLeftToSkip(g: Deps, st0: Statuses, st: Statuses, p: seq<Id>, x: Id)
    requires |p| >= 1 && LivePath(g, st0, p, p[0], x)
    requires forall id :: id in g && Live(st, id) ==> x !in g[id]
    requires forall id, dep :: Live(st, id) && Edge(g, id, dep) && Live(st0, dep) ==> Live(st, dep)
    ensures !Live(st, p[0])
  {
    assert Edge(g, p[0], p[1]);
    if |p| > 2 {
      assert Live(st0, p[1]);
      assert LivePath(g, st0, p[1..], p[1], x);
      NothingLeftToSkip(g, st0, st, p[1..], x);
    }
  }

  // Direct consequences of Skipping, without paths.
  lemma SkippingFacts(g: Deps, st: Statuses, x: Id)
    ensures forall id :: StatusOf(Skipping(g, st, x), id) ==
                         if LiveReaches(g, st, id, x) then Skipped else StatusOf(st, id)
    ensures forall id, dep :: Live(Skipping(g, st, x), id) && Edge(g, id, dep) ==>
              dep != x && StatusOf(Skipping(g, st, x), dep) == StatusOf(st, dep)
  {
    var r := Skipping(g, st, x);
    forall id | LiveReaches(g, st, id, x) ensures id in st {
      LiveReachesLive(g, st, id, x);
    }
    forall id, dep | Live(r, id) && Edge(g, id, dep)
      ensures dep != x && StatusOf(r, dep) == StatusOf(st, dep)
    {
      if dep == x {
        LiveReachesEdge(g, st, id, x);
      } else if LiveReaches(g, st, dep, x) {
        LiveReachesStep(g, st, id, dep, x);
      }
    }
  }

  // ---------- the class ----------

  // Depth-first search: the grey ids form the current path, the black ids are
  // listed in finishing order.
  ghost predicate Searching(g: Deps, color: map<Id, Color>, stack: seq<Id>, done: seq<Id>) {
    && (forall id :: ColorOf(color, id) == Gray <==> id in stack)
    && (forall id :: ColorOf(color, id) == Black <==> id in done)
    && (stack == [] || IsPath(g, stack))
    && Distinct(done)
    && DependenciesFirst(g, done)
  }

  function ColorOf(color: map<Id, Color>, id: Id): Color {
    if id in color then color[id] else White
  }

  lemma SearchOpens(g: Deps, color: map<Id, Color>, stack: seq<Id>, done: seq<Id>, id: Id)
    requires Searching(g, color, stack, done) && ColorOf(color, id) == White
    requires stack != [] ==> Edge(g, stack[|stack| - 1], id)
    ensures Searching(g, color[id := Gray], stack + [id], done)
  {
    assert forall x :: x in stack + [id] <==> x in stack || x == id;
  }

  lemma SearchCloses(g: Deps, color: map<Id, Color>, stack: seq<Id>, done: seq<Id>, id: Id)
    requires Searching(g, color, stack + [id], done) && id !in stack
    requires forall dep :: dep in DepsOf(g, id) ==> dep in done
    ensures Searching(g, color[id := Black], stack, done + [id])
  {
    assert id in stack + [id];
    assert forall x :: x in stack + [id] <==> x in stack || x == id;
    PathPrefix(g, stack, id);
    FinishedLast(g, done, id);
  }

  // What the colour of a dependency of the last id on the path tells.
  lemma SearchSees(g: Deps, color: map<Id, Color>, stack: seq<Id>, done: seq<Id>, id: Id)
    requires Searching(g, color, stack, done) && stack != [] && Edge(g, stack[|stack| - 1], id)
    ensures ColorOf(color, id) == Gray ==> HasCycle(g)
    ensures ColorOf(color, id) == Black ==> id in done
  {
    if ColorOf(color, id) == Gray {
      ClosesCycle(g, stack, id);
    }
  }

  lemma NotOnPath(g: Deps, color: map<Id, Color>, stack: seq<Id>, done: seq<Id>, id: Id)
    requires Searching(g, color, stack, done) && ColorOf(color, id) == White
    ensures id !in stack
  {
  }

  lemma ClosesCycle(g: Deps, stack: seq<Id>, id: Id)
    requires IsPath(g, stack) && id in stack && Edge(g, stack[|stack| - 1], id)
    ensures HasCycle(g)
  {
    var k :| 0 <= k < |stack| && stack[k] == id;
    PathSuffix(g, stack, k);
    assert IsCycle(g, stack[k..] + [id]);
  }

  lemma PathPrefix(g: Deps, stack: seq<Id>, id: Id)
    requires IsPath(g, stack + [id])
    ensures stack == [] || IsPath(g, stack)
  {
    var p := stack + [id];
    forall k | 0 <= k < |stack| - 1 ensures Edge(g, stack[k], stack[k + 1]) {
      assert Edge(g, p[k], p[k + 1]);
    }
  }

  lemma FinishedLast(g: Deps, done: seq<Id>, id: Id)
    requires Distinct(done) && DependenciesFirst(g, done) && id !in done
    requires forall dep :: dep in DepsOf(g, id) ==> dep in done
    ensures Distinct(done + [id]) && DependenciesFirst(g, done + [id])
  {
    var longer := done + [id];
    forall k, dep | 0 <= k < |longer| && dep in DepsOf(g, longer[k]) ensures dep in longer[..k] {
      if k == |done| {
        assert longer[..k] == done;
      } else {
        assert longer[..k] == done[..k];
      }
    }
  }

  ghost function Whites(g: Deps, color: map<Id, Color>): set<Id> {
    set id | id in Universe(g) && ColorOf(color, id) == White
  }

  ghost predicate Visiting(g: Deps, visited: set<Id>, stack: seq<Id>, ids: seq<Id>) {
    && (forall id :: id in visited <==> id in stack || id in ids)
    && (stack == [] || IsPath(g, stack))
    && (forall id :: id in stack ==> id !in ids)
    && Distinct(ids)
    && DependenciesFirst(g, ids)
  }

  lemma VisitOpens(g: Deps, visited: set<Id>, stack: seq<Id>, ids: seq<Id>, id: Id)
    requires Visiting(g, visited, stack, ids) && id !in visited
    requires stack != [] ==> Edge(g, stack[|stack| - 1], id)
    ensures Visiting(g, visited + {id}, stack + [id], ids)
  {
    assert forall x :: x in stack + [id] <==> x in stack || x == id;
  }

  // All dependencies of the last id on the path are listed, so it can be.
  lemma VisitCloses(g: Deps, visited: set<Id>, stack: seq<Id>, ids: seq<Id>, id: Id)
    requires Visiting(g, visited, stack + [id], ids) && id !in stack
    requires forall dep :: dep in DepsOf(g, id) ==> dep in ids
    ensures Visiting(g, visited, stack, ids + [id])
  {
    var path := stack + [id];
    assert forall x :: x in path <==> x in stack || x == id;
    PathPrefix(g, stack, id);
    FinishedLast(g, ids, id);
  }

  // An id met again is listed already: otherwise it is on the path and closes a cycle.
  lemma MetAgain(g: Deps, visited: set<Id>, stack: seq<Id>, ids: seq<Id>, id: Id)
    requires Visiting(g, visited, stack, ids) && id in visited && !HasCycle(g)
    requires stack != [] ==> Edge(g, stack[|stack| - 1], id)
    ensures id in ids
  {
    if id in stack {
      ClosesCycle(g, stack, id);
    }
  }

  lemma NotYetMet(g: Deps, visited: set<Id>, stack: seq<Id>, ids: seq<Id>, id: Id)
    requires Visiting(g, visited, stack, ids) && id !in visited
    ensures id !in stack
  {
  }

  // Each node once, every dependency before its dependents.
  ghost predicate IsSchedule(nodes: map<Id, Subtask>, order: seq<Subtask>) {
    && (forall j, k :: 0 <= j < k < |order| ==> order[j].id != order[k].id)
    && (forall id :: id in nodes <==> HasId(order, id))
    && (forall st :: st in order ==> st.id in nodes && nodes[st.id] == st)
    && (forall k, dep :: 0 <= k < |order| && dep in order[k].dependsOn ==> HasId(order[..k], dep))
  }

  // The nodes that satisfy `Ready`, each once.
  ghost predicate ListsReady(nodes: map<Id, Subtask>, g: Deps, st: Statuses, ready: seq<Subtask>) {
    && (forall j, k :: 0 <= j < k < |ready| ==> ready[j].id != ready[k].id)
    && (forall s :: s in ready ==> s.id in nodes && nodes[s.id] == s && Ready(g, st, s.id))
    && (forall id :: id in nodes && Ready(g, st, id) ==> nodes[id] in ready)
  }

  class DependencyGraph {
    var nodes: map<Id, Subtask>
    var edges: Deps
    var status: Statuses

    ghost predicate Valid()
      reads this
    {
      && edges.Keys == nodes.Keys
      && nodes.Keys <= status.Keys
      && forall id :: id in nodes ==> nodes[id].id == id && edges[id] == nodes[id].dependsOn
    }

    constructor BuildGraph(plan: seq<Subtask>)
      ensures Valid()
      ensures nodes == NodesOf(plan) && edges == EdgesOf(plan) && status == StatusesOf(plan)
      ensures nodes.Keys == edges.Keys == status.Keys
      ensures forall k :: 0 <= k < |plan| && LastWith(plan, plan[k].id, k) ==> Stores(nodes, edges, status, plan[k])
    {
      hide NodesOf, StatusesIn, LastWith, Stores, HasId;
      LastIsStored(plan);
      NothingStored(plan);
      nodes, edges, status := map[], map[], map[];
      new;
      for i := 0 to |plan|
        invariant nodes == NodesOf(plan[..i]) && edges == EdgesOf(plan[..i]) && status == StatusesOf(plan[..i])
      {
        var st := plan[i];
        NodesOfNext(plan, i);
        nodes := nodes[st.id := st];
        edges := edges[st.id := st.dependsOn];
        if st.status == Unset || st.status == Pending {
          status := status[st.id := Pending];
        } else {
          status := status[st.id := st.status];
        }
      }
      assert plan[..|plan|] == plan;
    }

    method AllDepsCompleted(id: Id) returns (b: bool)
      requires Valid()
      ensures b <==> DepsCompleted(edges, status, id)
    {
      var deps := DepsOf(edges, id);
      for i := 0 to |deps|
        invariant forall dep :: dep in deps[..i] ==> StatusOf(status, dep) == Completed
      {
        if StatusOf(status, deps[i]) != Completed {
          return false;
        }
        assert deps[..i + 1] == deps[..i] + [deps[i]];
      }
      assert deps[..|deps|] == deps;
      return true;
    }

    // Nodes come in any order, as from a Go map.
    method GetReady() returns (ready: seq<Subtask>)
      requires Valid()
      ensures ListsReady(nodes, edges, status, ready)
    {
      ready := [];
      var todo := nodes.Keys;
      while todo != {}
        invariant todo <= nodes.Keys
        invariant forall j, k :: 0 <= j < k < |ready| ==> ready[j].id != ready[k].id
        invariant forall s :: s in ready ==>
                    s.id in nodes && s.id !in todo && nodes[s.id] == s && Ready(edges, status, s.id)
        invariant forall id :: id in nodes && id !in todo && Ready(edges, status, id) ==> nodes[id] in ready
      {
        var id :| id in todo;
        todo := todo - {id};
        if StatusOf(status, id) == Pending {
          var met := AllDepsCompleted(id);
          if met {
            ready := ready + [nodes[id]];
          }
        }
      }
    }

    method MarkRunning(id: Id)
      requires Valid()
      modifies `status
      ensures Valid()
      ensures status == old(status)[id := Running]
    {
      status := status[id := Running];
    }

    method Complete(id: Id) returns (unblocked: seq<Subtask>)
      requires Valid()
      modifies `status
      ensures Valid()
      ensures status == old(status)[id := Completed]
      ensures ListsReady(nodes, edges, status, unblocked)
    {
      status := status[id := Completed];
      unblocked := GetReady();
    }

    method Fail(id: Id)
      requires Valid()
      modifies `status
      ensures Valid()
      ensures status == Failing(edges, old(status), id)
    {
      status := status[id := Failed];
      SkipDependents(id);
    }

    ghost function LiveNodes(): set<Id>
      reads this
    {
      set id | id in nodes && Live(status, id)
    }

    // Exact whatever the order in which the nodes are taken.
    method SkipDependents(failed: Id)
      requires Valid()
      modifies `status
      ensures Valid()
      ensures status == Skipping(edges, old(status), failed)
      decreases LiveNodes()
    {
      ghost var st0 := status;
      var todo := nodes.Keys;
      while todo != {}
        invariant Valid() && status.Keys == st0.Keys
        invariant forall id :: id in st0 && status[id] != st0[id] ==>
                    status[id] == Skipped && LiveReaches(edges, st0, id, failed)
        invariant forall id :: id in nodes && id !in todo && Live(status, id) ==> failed !in edges[id]
        invariant forall id, dep :: Live(status, id) && Edge(edges, id, dep) ==>
                    StatusOf(status, dep) == StatusOf(st0, dep)
        invariant forall id :: Live(status, id) ==> Live(st0, id)
      {
        var id :| id in todo;
        todo := todo - {id};
        if StatusOf(status, id) == Pending || StatusOf(status, id) == Running {
          var deps := edges[id];
          var i := 0;
          while i < |deps|
            invariant 0 <= i <= |deps|
            invariant failed !in deps[..i]
          {
            if deps[i] == failed {
              break;
            }
            assert deps[..i + 1] == deps[..i] + [deps[i]];
            i := i + 1;
          }
          if i < |deps| {
            SkipFrom(id, failed, st0);
          } else {
            assert deps[..i] == deps;
          }
        }
      }
      forall id | id in st0 ensures status[id] == Skipping(edges, st0, failed)[id] {
        if LiveReaches(edges, st0, id, failed) {
          LiveReachesLive(edges, st0, id, failed);
          var p :| LivePath(edges, st0, p, id, failed);
          NothingLeftToSkip(edges, st0, status, p, failed);
        }
      }
    }

    // The marking step of the loop: skip `id`, then everything downstream of it.
    method SkipFrom(id: Id, failed: Id, ghost st0: Statuses)
      requires Valid() && id in nodes && Live(status, id) && failed in edges[id]
      requires status.Keys == st0.Keys
      requires forall a :: Live(status, a) ==> Live(st0, a)
      requires forall a :: a in st0 && status[a] != st0[a] ==>
                 status[a] == Skipped && LiveReaches(edges, st0, a, failed)
      requires forall a, dep :: Live(status, a) && Edge(edges, a, dep) ==>
                 StatusOf(status, dep) == StatusOf(st0, dep)
      modifies `status
      ensures Valid() && status.Keys == st0.Keys && !Live(status, id)
      ensures forall a :: Live(status, a) ==> Live(old(status), a)
      ensures forall a :: a in st0 && status[a] != st0[a] ==>
                status[a] == Skipped && LiveReaches(edges, st0, a, failed)
      ensures forall a, dep :: Live(status, a) && Edge(edges, a, dep) ==>
                StatusOf(status, dep) == StatusOf(st0, dep)
      decreases LiveNodes(), 0
    {
      hide LiveReaches, Skipping;
      ghost var before := status;
      ghost var measure := LiveNodes();
      status := status[id := Skipped];
      ghost var marked := status;
      assert id in measure && id !in LiveNodes();
      assert LiveNodes() <= measure;
      SkipDependents(id);
      SkippingFacts(edges, marked, id);
      LiveReachesEdge(edges, st0, id, failed);
      forall a | a in st0 && status[a] != st0[a]
        ensures status[a] == Skipped && LiveReaches(edges, st0, a, failed)
      {
        assert StatusOf(status, a) == status[a] && StatusOf(marked, a) == marked[a];
        if a != id && before[a] == st0[a] {
          assert LiveReaches(edges, marked, a, id);
          LiveReachesExtend(edges, marked, st0, a, id, failed);
        }
      }
    }

    method AllCompleted() returns (b: bool)
      requires Valid()
      ensures b <==> forall id :: id in status ==> !Live(status, id)
    {
      var todo := status.Keys;
      while todo != {}
        invariant todo <= status.Keys
        invariant forall id :: id in status && id !in todo ==> !Live(status, id)
      {
        var id :| id in todo;
        todo := todo - {id};
        if status[id] == Pending || status[id] == Running {
          return false;
        }
      }
      return true;
    }

    // As written, both returns give false: the answer is right exactly if nothing has failed.
    method HasFailures() returns (b: bool)
      requires Valid()
      ensures !b
      ensures (b <==> exists id :: id in status && status[id] == Failed) <==>
              forall id :: id in status ==> status[id] != Failed
    {
      var todo := status.Keys;
      while todo != {} {
        var id :| id in todo;
        todo := todo - {id};
        if status[id] == Failed {
          return false;
        }
      }
      return false;
    }

    method HasCycles() returns (b: bool)
      requires Valid()
      ensures b <==> HasCycle(edges)
    {
      var color: map<Id, Color> := map id | id in nodes :: White;
      ghost var finished: seq<Id> := [];
      var todo := nodes.Keys;
      while todo != {}
        invariant todo <= nodes.Keys
        invariant Searching(edges, color, [], finished)
        invariant forall id :: id in nodes && id !in todo ==> id in finished
      {
        var id :| id in todo;
        todo := todo - {id};
        if ColorOf(color, id) == White {
          b, color, finished := Dfs(id, color, [], finished);
          if b {
            return true;
          }
        }
      }
      assert Orders(edges, finished);
      OrderExcludesCycles(edges, finished);
      return false;
    }

    method Dfs(id: Id, color0: map<Id, Color>, ghost stack: seq<Id>, ghost done0: seq<Id>)
      returns (found: bool, color: map<Id, Color>, ghost finished: seq<Id>)
      requires Valid() && id in Universe(edges)
      requires Searching(edges, color0, stack, done0)
      requires ColorOf(color0, id) == White
      requires stack != [] ==> Edge(edges, stack[|stack| - 1], id)
      ensures found ==> HasCycle(edges)
      ensures !found ==> Searching(edges, color, stack, finished) && done0 <= finished && id in finished
      ensures Whites(edges, color) <= Whites(edges, color0)
      decreases Whites(edges, color0)
    {
      hide Searching, HasCycle;
      color := color0[id := Gray];
      finished := done0;
      ghost var path := stack + [id];
      SearchOpens(edges, color0, stack, done0, id);
      NotOnPath(edges, color0, stack, done0, id);
      assert id in Whites(edges, color0) && id !in Whites(edges, color);
      var deps := DepsOf(edges, id);
      for i := 0 to |deps|
        invariant Searching(edges, color, path, finished)
        invariant done0 <= finished
        invariant Whites(edges, color) < Whites(edges, color0)
        invariant forall dep :: dep in deps[..i] ==> dep in finished
      {
        var dep := deps[i];
        assert Edge(edges, id, dep);
        SearchSees(edges, color, path, finished, dep);
        match ColorOf(color, dep) {
          case Gray =>
            return true, color, finished;
          case White =>
            found, color, finished := Dfs(dep, color, path, finished);
            if found {
              return;
            }
          case Black =>
        }
        assert deps[..i + 1] == deps[..i] + [dep];
      }
      assert deps[..|deps|] == deps;
      SearchCloses(edges, color, stack, finished, id);
      color := color[id := Black];
      finished := finished + [id];
      found := false;
    }

    method TopologicalSort() returns (r: SortResult, ghost ids: seq<Id>)
      requires Valid()
      ensures r.Cyclic? <==> HasCycle(edges)
      ensures r.Sorted? ==> Orders(edges, ids) && ListsIds(r.order, ids)
      ensures r.Sorted? && Closed(edges) ==>
                && (forall k :: 0 <= k < |r.order| ==> r.order[k].Some?)
                && IsSchedule(nodes, Values(r.order))
    {
      var cyclic := HasCycles();
      if cyclic {
        return Cyclic, [];
      }
      var visited: set<Id> := {};
      var order: seq<Option<Subtask>> := [];
      ids := [];
      var todo := nodes.Keys;
      while todo != {}
        invariant todo <= nodes.Keys
        invariant Visiting(edges, visited, [], ids) && ListsIds(order, ids)
        invariant forall id :: id in nodes && id !in todo ==> id in visited
        invariant forall id :: id in visited ==> id in Universe(edges)
      {
        var id :| id in todo;
        todo := todo - {id};
        visited, order, ids := Visit(id, visited, order, [], ids);
      }
      r := Sorted(order);
      if Closed(edges) {
        SortedIsSchedule(order, ids);
      }
    }

    method Visit(id: Id, visited0: set<Id>, order0: seq<Option<Subtask>>, ghost stack: seq<Id>, ghost ids0: seq<Id>)
      returns (visited: set<Id>, order: seq<Option<Subtask>>, ghost ids: seq<Id>)
      requires Valid() && !HasCycle(edges) && id in Universe(edges)
      requires Visiting(edges, visited0, stack, ids0) && ListsIds(order0, ids0)
      requires stack != [] ==> Edge(edges, stack[|stack| - 1], id)
      ensures Visiting(edges, visited, stack, ids) && ListsIds(order, ids)
      ensures visited0 <= visited && ids0 <= ids && id in ids
      ensures forall x :: x in visited && x !in visited0 ==> x in Universe(edges)
      decreases Universe(edges) - visited0
    {
      hide Visiting, HasCycle;
      if id in visited0 {
        MetAgain(edges, visited0, stack, ids0, id);
        return visited0, order0, ids0;
      }
      NotYetMet(edges, visited0, stack, ids0, id);
      VisitOpens(edges, visited0, stack, ids0, id);
      visited, order, ids := visited0 + {id}, order0, ids0;
      ghost var path := stack + [id];
      var deps := DepsOf(edges, id);
      for i := 0 to |deps|
        invariant Visiting(edges, visited, path, ids) && ListsIds(order, ids)
        invariant visited0 + {id} <= visited && ids0 <= ids
        invariant forall x :: x in visited && x !in visited0 ==> x in Universe(edges)
        invariant forall dep :: dep in deps[..i] ==> dep in ids
      {
        assert Edge(edges, id, deps[i]);
        visited, order, ids := Visit(deps[i], visited, order, path, ids);
        assert deps[..i + 1] == deps[..i] + [deps[i]];
      }
      assert deps[..|deps|] == deps;
      VisitCloses(edges, visited, stack, ids, id);
      order := order + [if id in nodes then Some(nodes[id]) else None];
      ids := ids + [id];
    }

    ghost predicate ListsIds(order: seq<Option<Subtask>>, ids: seq<Id>)
      reads this
    {
      && |order| == |ids|
      && forall k :: 0 <= k < |ids| ==>
           order[k] == if ids[k] in nodes then Some(nodes[ids[k]]) else None
    }

    lemma SortedIsSchedule(order: seq<Option<Subtask>>, ids: seq<Id>)
      requires Valid() && Closed(edges)
      requires Orders(edges, ids) && ListsIds(order, ids)
      requires forall id :: id in ids ==> id in Universe(edges)
      ensures forall k :: 0 <= k < |order| ==> order[k].Some?
      ensures IsSchedule(nodes, Values(order))
    {
      forall k | 0 <= k < |ids| ensures ids[k] in nodes {
        assert ids[k] in Universe(edges);
      }
      ScheduleFromIds(nodes, edges, ids, Values(order));
    }
  }

  lemma ScheduleFromIds(nodes: map<Id, Subtask>, g: Deps, ids: seq<Id>, s: seq<Subtask>)
    requires Orders(g, ids) && nodes.Keys == g.Keys && |s| == |ids|
    requires forall id :: id in nodes ==> nodes[id].id == id && g[id] == nodes[id].dependsOn
    requires forall k :: 0 <= k < |ids| ==> ids[k] in nodes && s[k] == nodes[ids[k]]
    ensures IsSchedule(nodes, s)
  {
    forall id | id in nodes ensures HasId(s, id) {
      var k :| 0 <= k < |ids| && ids[k] == id;
      assert s[k].id == id;
    }
    forall id | HasId(s, id) ensures id in nodes {
      var k :| 0 <= k < |s| && s[k].id == id;
    }
    forall k, dep | 0 <= k < |s| && dep in s[k].dependsOn ensures HasId(s[..k], dep) {
      assert dep in DepsOf(g, ids[k]);
      var j :| 0 <= j < k && ids[..k][j] == dep;
      assert s[..k][j].id == dep;
    }
  }

  // A graph with a failure that is not reported.
  method UnseenFailure() returns (graph: DependencyGraph, b: bool)
    ensures fresh(graph) && graph.status == map["a" := Failed] && !b
  {
    var plan := [Subtask("a", "a", "a", [], [], Failed)];
    graph := new DependencyGraph.BuildGraph(plan);
    NodesOfNext(plan, 0);
    assert plan[..1] == plan && NodesOf(plan[..0]) == map[];
    b := graph.HasFailures();
  }

  // A schedule of a plan's nodes lists each subtask of the plan exactly once.
  lemma ScheduleListsPlan(plan: seq<Subtask>, order: seq<Subtask>)
    requires UniqueIds(plan) && IsSchedule(NodesOf(plan), order)
    ensures multiset(order) == multiset(plan)
  {
    NodesOfUnique(plan);
    assert forall j, k :: 0 <= j < k < |plan| ==> plan[j].id != plan[k].id;
    forall st ensures multiset(order)[st] == multiset(plan)[st] {
      CountedOnce(plan, st);
      CountedOnce(order, st);
      if st in plan {
        assert HasId(order, st.id);
        var k :| 0 <= k < |order| && order[k].id == st.id;
        assert order[k] in order;
      }
      if st in order {
        assert NodesOf(plan)[st.id] == st;
      }
    }
  }

  // The order of a validated acyclic plan: its subtasks, each exactly once, every
  // dependency before its dependents.
  method SortPlan(plan: seq<Subtask>) returns (order: seq<Subtask>)
    requires ValidSubtasks(plan) && !HasCycle(EdgesOf(plan))
    ensures multiset(order) == multiset(plan)
    ensures forall k, dep :: 0 <= k < |order| && dep in order[k].dependsOn ==> HasId(order[..k], dep)
  {
    hide HasCycle;
    ValidPlanCloses(plan);
    var graph := new DependencyGraph.BuildGraph(plan);
    var r, _ := graph.TopologicalSort();
    order := Values(r.order);
    ScheduleListsPlan(plan, order);
  }

  function Values(order: seq<Option<Subtask>>): (r: seq<Subtask>)
    requires forall k :: 0 <= k < |order| ==> order[k].Some?
    ensures |r| == |order|
  {
    seq(|order|, k requires 0 <= k < |order| => order[k].value)
  }
}
