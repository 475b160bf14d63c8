// Column depths of the plan view: a label-correcting worklist
// (web/src/lib/components/DependencyGraph.svelte, lines 19-49).  Nothing is asked of the
// plan: ids may repeat, dependencies may be unknown, and there may be cycles.
module Layering {
  import opened Plans
  import opened Graphs
  import opened Dependency

  // ---------- the graph the view works on ----------

  // All dependencies declared for an id, by whichever subtasks carry it.
  function Merged(subtasks: seq<Subtask>): Deps {
    if subtasks == [] then map[]
    else
      var rest, last := Merged(subtasks[..|subtasks| - 1]), subtasks[|subtasks| - 1];
      rest[last.id := DepsOf(rest, last.id) + last.dependsOn]
  }

  // Ids of subtasks without dependencies.
  function RootIds(subtasks: seq<Subtask>): set<Id> {
    set st | st in subtasks && st.dependsOn == [] :: st.id
  }

  ghost predicate Declares(subtasks: seq<Subtask>, id: Id, dep: Id) {
    exists st :: st in subtasks && st.id == id && dep in st.dependsOn
  }

  lemma {:induction false} MergedEdges(subtasks: seq<Subtask>)
    ensures forall id :: id in Merged(subtasks) <==> HasId(subtasks, id)
    ensures forall id, dep :: Edge(Merged(subtasks), id, dep) <==> Declares(subtasks, id, dep)
  {
    if subtasks != [] {
      var init, last := subtasks[..|subtasks| - 1], subtasks[|subtasks| - 1];
      MergedEdges(init);
      assert subtasks == init + [last];
      forall id ensures HasId(subtasks, id) <==> HasId(init, id) || id == last.id {
        if k :| 0 <= k < |init| && init[k].id == id {
          assert subtasks[k].id == id;
        }
      }
      forall id, dep
        ensures Declares(subtasks, id, dep) <==> Declares(init, id, dep) || (id == last.id && dep in last.dependsOn)
      {
        if st :| st in init && st.id == id && dep in st.dependsOn {
          assert st in subtasks;
        }
      }
    }
  }

  // With unique ids it is the dependency relation of the plan.
  lemma {:induction false} MergedUnique(subtasks: seq<Subtask>)
    requires UniqueIds(subtasks)
    ensures Merged(subtasks) == EdgesOf(subtasks)
    ensures forall id :: id in RootIds(subtasks) <==> id in EdgesOf(subtasks) && EdgesOf(subtasks)[id] == []
  {
    NodesOfUnique(subtasks);
    MergedUpTo(subtasks, |subtasks|);
    assert subtasks[..|subtasks|] == subtasks;
  }

  lemma {:induction false} MergedUpTo(subtasks: seq<Subtask>, i: nat)
    requires UniqueIds(subtasks) && i <= |subtasks|
    ensures Merged(subtasks[..i]) == EdgesOf(subtasks[..i])
  {
    if i > 0 {
      MergedUpTo(subtasks, i - 1);
      NodesOfNext(subtasks, i - 1);
      assert subtasks[..i][..i - 1] == subtasks[..i - 1];
      MergedEdges(subtasks[..i - 1]);
      assert [] + subtasks[i - 1].dependsOn == subtasks[i - 1].dependsOn;
    }
  }

  lemma MergedCloses(subtasks: seq<Subtask>)
    requires ClosedDependencies(subtasks)
    ensures Closed(Merged(subtasks))
  {
    MergedEdges(subtasks);
    forall id, dep | id in Merged(subtasks) && dep in Merged(subtasks)[id] ensures dep in Merged(subtasks) {
      assert Edge(Merged(subtasks), id, dep);
      var st :| st in subtasks && st.id == id && dep in st.dependsOn;
      var k :| 0 <= k < |subtasks| && subtasks[k] == st;
      assert dep in subtasks[k].dependsOn;
    }
  }

  // ---------- depths ----------

  // Some dependency path from `id` to a root has `d` edges.
  ghost predicate RealDepth(g: Deps, roots: set<Id>, id: Id, d: nat) {
    exists p :: IsPath(g, p) && p[0] == id && |p| == d + 1 && p[d] in roots
  }

  ghost predicate Rooted(g: Deps, roots: set<Id>, id: Id) {
    exists d: nat :: RealDepth(g, roots, id, d)
  }

  // `d` is the length of the longest dependency path from `id` down to a root.
  ghost predicate Deepest(g: Deps, roots: set<Id>, id: Id, d: nat) {
    RealDepth(g, roots, id, d) && forall e: nat :: RealDepth(g, roots, id, e) ==> e <= d
  }

  // No dependency path from `id` has more than `d` edges, whether it ends in a root or not.
  ghost predicate NoneLonger(g: Deps, id: Id, d: nat) {
    forall p :: IsPath(g, p) && p[0] == id ==> |p| <= d + 1
  }

  ghost predicate LongestDepth(g: Deps, roots: set<Id>, id: Id, d: nat) {
    RealDepth(g, roots, id, d) && NoneLonger(g, id, d)
  }

  // A cycle from which a root can be reached.
  ghost predicate RootedCycle(g: Deps, roots: set<Id>) {
    exists p :: IsCycle(g, p) && Rooted(g, roots, p[0])
  }

  lemma DeeperIsReal(g: Deps, roots: set<Id>, id: Id, dep: Id, d: nat)
    requires Edge(g, id, dep) && RealDepth(g, roots, dep, d)
    ensures RealDepth(g, roots, id, d + 1)
  {
    var p :| IsPath(g, p) && p[0] == dep && |p| == d + 1 && p[d] in roots;
    var q := [id] + p;
    assert IsPath(g, q) && q[d + 1] == p[d];
  }

  // A subtask lies strictly deeper than each of its dependencies that a root lies below.
  lemma DeepestIncreases(g: Deps, roots: set<Id>, id: Id, dep: Id, d: nat, e: nat)
    requires Edge(g, id, dep) && Deepest(g, roots, id, d) && Deepest(g, roots, dep, e)
    ensures e < d
  {
    DeeperIsReal(g, roots, id, dep, e);
  }

  lemma LongestIsDeepest(g: Deps, roots: set<Id>, id: Id, d: nat)
    requires LongestDepth(g, roots, id, d)
    ensures Deepest(g, roots, id, d)
  {
    forall e: nat | RealDepth(g, roots, id, e) ensures e <= d {
      var p :| IsPath(g, p) && p[0] == id && |p| == e + 1 && p[e] in roots;
    }
  }

  // Longest depth is unique.
  lemma LongestUnique(g: Deps, roots: set<Id>, id: Id, d: nat, e: nat)
    requires LongestDepth(g, roots, id, d) && LongestDepth(g, roots, id, e)
    ensures d == e
  {
    LongestIsDeepest(g, roots, id, d);
    LongestIsDeepest(g, roots, id, e);
  }

  // ---------- termination ----------

  function Slack(subtasks: seq<Subtask>, depth: map<Id, nat>, bound: nat): nat {
    if subtasks == [] then 0
    else
      var d := if subtasks[0].id in depth then depth[subtasks[0].id] + 1 else 0;
      (if d <= bound then bound - d else 0) + Slack(subtasks[1..], depth, bound)
  }

  lemma {:induction false} RaisingUsesSlack(subtasks: seq<Subtask>, depth: map<Id, nat>, bound: nat, id: Id, d: nat)
    requires id in depth ==> depth[id] < d
    requires d < bound
    ensures Slack(subtasks, depth[id := d], bound) <= Slack(subtasks, depth, bound)
    ensures HasId(subtasks, id) ==> Slack(subtasks, depth[id := d], bound) < Slack(subtasks, depth, bound)
  {
    if subtasks != [] {
      RaisingUsesSlack(subtasks[1..], depth, bound, id, d);
      if HasId(subtasks, id) && subtasks[0].id != id {
        var k :| 0 <= k < |subtasks| && subtasks[k].id == id;
        assert subtasks[1..][k - 1].id == id;
      }
    }
  }

  // Without rooted cycles no path to a root visits an id twice.
  lemma RootedPathsDistinct(g: Deps, roots: set<Id>, p: seq<Id>)
    requires !RootedCycle(g, roots) && IsPath(g, p) && p[|p| - 1] in roots
    ensures Distinct(p)
  {
    forall j, k | 0 <= j < k < |p| ensures p[j] != p[k] {
      if p[j] == p[k] {
        var q := p[j..];
        assert IsPath(g, q) && q[0] == p[j] && q[|q| - 1] in roots;
        assert RealDepth(g, roots, p[j], |q| - 1);
        assert IsCycle(g, p[j..k + 1]);
      }
    }
  }

  // So no path to a root is longer than the number of ids.
  lemma DepthBounded(g: Deps, roots: set<Id>, id: Id, d: nat)
    requires !RootedCycle(g, roots) && RealDepth(g, roots, id, d) && id in Universe(g)
    ensures d < |Universe(g)|
  {
    var p :| IsPath(g, p) && p[0] == id && |p| == d + 1 && p[d] in roots;
    RootedPathsDistinct(g, roots, p);
    forall x | x in p ensures x in Universe(g) {
      var k :| 0 <= k < |p| && p[k] == x;
      if k > 0 {
        assert Edge(g, p[k - 1], p[k]);
      }
    }
    DistinctBounded(p, Universe(g));
  }

  // ---------- the worklist, step by step ----------

  datatype Work = Work(depth: map<Id, nat>, queue: seq<Id>)

  // The roots at depth zero, queued in plan order.
  function Start(subtasks: seq<Subtask>): Work {
    if subtasks == [] then Work(map[], [])
    else
      var w, last := Start(subtasks[..|subtasks| - 1]), subtasks[|subtasks| - 1];
      if last.dependsOn == [] then Work(w.depth[last.id := 0], w.queue + [last.id]) else w
  }

  // A subtask that depends on `id`, of depth `d`, is pushed below it.
  function Pushed(w: Work, id: Id, d: nat, s: Subtask): Work {
    if id in s.dependsOn && (s.id !in w.depth || d + 1 > w.depth[s.id])
    then Work(w.depth[s.id := d + 1], w.queue + [s.id])
    else w
  }

  function AllPushed(w: Work, id: Id, d: nat, subtasks: seq<Subtask>): Work {
    if subtasks == [] then w
    else Pushed(AllPushed(w, id, d, subtasks[..|subtasks| - 1]), id, d, subtasks[|subtasks| - 1])
  }

  // One turn of the loop; nothing once the queue is empty.
  function Step(subtasks: seq<Subtask>, w: Work): Work {
    if w.queue == [] || w.queue[0] !in w.depth then w
    else AllPushed(Work(w.depth, w.queue[1..]), w.queue[0], w.depth[w.queue[0]], subtasks)
  }

  function Steps(subtasks: seq<Subtask>, n: nat): Work {
    if n == 0 then Start(subtasks) else Step(subtasks, Steps(subtasks, n - 1))
  }

  // ---------- what every step keeps, on any plan ----------

  // Every dependent of a visited id that is not queued lies at least one deeper.
  ghost predicate Relaxed(g: Deps, w: Work, except: set<Id>) {
    forall id, dep :: Edge(g, id, dep) && dep in w.depth && dep !in w.queue && dep !in except ==>
      id in w.depth && w.depth[id] > w.depth[dep]
  }

  ghost predicate Sound(g: Deps, roots: set<Id>, depth: map<Id, nat>) {
    forall id :: id in depth ==> RealDepth(g, roots, id, depth[id])
  }

  // Depths are lengths of real paths, roots are visited, and all edges are relaxed but
  // those into queued or excepted ids.
  ghost predicate Working(g: Deps, roots: set<Id>, w: Work, except: set<Id>) {
    && Sound(g, roots, w.depth)
    && (forall id :: id in w.queue ==> id in w.depth)
    && (forall id :: id in roots ==> id in w.depth)
    && Relaxed(g, w, except)
  }

  ghost predicate WorkingOn(subtasks: seq<Subtask>, w: Work, except: set<Id>) {
    Working(Merged(subtasks), RootIds(subtasks), w, except)
  }

  lemma {:induction false} StartAtRoots(subtasks: seq<Subtask>)
    ensures forall id :: id in Start(subtasks).depth <==> id in RootIds(subtasks)
    ensures forall id :: id in Start(subtasks).queue <==> id in RootIds(subtasks)
    ensures forall id :: id in RootIds(subtasks) ==> Start(subtasks).depth[id] == 0
  {
    if subtasks != [] {
      var init, last := subtasks[..|subtasks| - 1], subtasks[|subtasks| - 1];
      StartAtRoots(init);
      assert subtasks == init + [last];
      forall id
        ensures id in RootIds(subtasks) <==> id in RootIds(init) || (id == last.id && last.dependsOn == [])
      {
      }
    }
  }

  lemma StartWorks(subtasks: seq<Subtask>)
    ensures WorkingOn(subtasks, Start(subtasks), {})
  {
    StartAtRoots(subtasks);
    hide Start, RootIds, Merged;
    forall id | id in RootIds(subtasks) ensures RealDepth(Merged(subtasks), RootIds(subtasks), id, 0) {
      assert IsPath(Merged(subtasks), [id]);
    }
  }

  lemma PushWorks(g: Deps, roots: set<Id>, w: Work, id: Id, d: nat, s: Subtask)
    requires Working(g, roots, w, {id}) && RealDepth(g, roots, id, d)
    requires id in s.dependsOn ==> Edge(g, s.id, id)
    ensures Working(g, roots, Pushed(w, id, d, s), {id})
    ensures id in s.dependsOn ==> s.id in Pushed(w, id, d, s).depth && Pushed(w, id, d, s).depth[s.id] > d
  {
    hide RealDepth, Edge;
    if id in s.dependsOn {
      DeeperIsReal(g, roots, s.id, id, d);
    }
    var u := Pushed(w, id, d, s);
    assert forall x :: x in u.queue <==> x in w.queue || (u != w && x == s.id);
  }

  // All subtasks of the list that depend on `id` lie deeper than `d`.
  ghost predicate DependentsDeeper(subtasks: seq<Subtask>, depth: map<Id, nat>, id: Id, d: nat) {
    forall st :: st in subtasks && id in st.dependsOn ==> st.id in depth && depth[st.id] > d
  }

  // Half-way through a step: `id` is the id taken from the queue, `d` its depth then.
  ghost predicate Pushing(g: Deps, roots: set<Id>, w: Work, id: Id, d: nat, part: seq<Subtask>) {
    && Working(g, roots, w, {id}) && DependentsDeeper(part, w.depth, id, d)
    && id in w.depth && (w.depth[id] == d || id in w.queue)
  }

  lemma PushingStarts(g: Deps, roots: set<Id>, w: Work)
    requires Working(g, roots, w, {}) && w.queue != []
    ensures w.queue[0] in w.depth && RealDepth(g, roots, w.queue[0], w.depth[w.queue[0]])
    ensures Pushing(g, roots, Work(w.depth, w.queue[1..]), w.queue[0], w.depth[w.queue[0]], [])
  {
    hide RealDepth, Edge;
    assert w.queue[0] in w.queue;
    assert forall x :: x in w.queue <==> x == w.queue[0] || x in w.queue[1..];
  }

  lemma PushRises(w: Work, id: Id, d: nat, s: Subtask)
    ensures var u := Pushed(w, id, d, s);
      && (forall x :: x in w.depth ==> x in u.depth && (u.depth[x] == w.depth[x] || (u.depth[x] > w.depth[x] && x in u.queue)))
      && (forall x :: x in w.queue ==> x in u.queue)
  {
    assert s.id in w.queue + [s.id];
  }

  lemma PushingNext(g: Deps, roots: set<Id>, w: Work, id: Id, d: nat, part: seq<Subtask>, s: Subtask)
    requires Pushing(g, roots, w, id, d, part) && RealDepth(g, roots, id, d)
    requires id in s.dependsOn ==> Edge(g, s.id, id)
    ensures Pushing(g, roots, Pushed(w, id, d, s), id, d, part + [s])
  {
    hide Working, RealDepth, Edge;
    PushWorks(g, roots, w, id, d, s);
    PushRises(w, id, d, s);
    hide Pushed;
  }

  // The graph's edges into `id` are those the subtasks declare.
  ghost predicate EdgesInto(g: Deps, subtasks: seq<Subtask>, id: Id) {
    forall x :: Edge(g, x, id) <==> Declares(subtasks, x, id)
  }

  lemma StepEdges(subtasks: seq<Subtask>, id: Id)
    ensures EdgesInto(Merged(subtasks), subtasks, id)
  {
    MergedEdges(subtasks);
  }

  lemma {:induction false} AllPushing(g: Deps, roots: set<Id>, w: Work, id: Id, d: nat, subtasks: seq<Subtask>, part: seq<Subtask>)
    requires Pushing(g, roots, w, id, d, []) && RealDepth(g, roots, id, d)
    requires EdgesInto(g, subtasks, id) && forall st :: st in part ==> st in subtasks
    ensures Pushing(g, roots, AllPushed(w, id, d, part), id, d, part)
  {
    hide Pushing, RealDepth, Edge, Pushed;
    if part != [] {
      var init, last := part[..|part| - 1], part[|part| - 1];
      AllPushing(g, roots, w, id, d, subtasks, init);
      assert id in last.dependsOn ==> Declares(subtasks, last.id, id);
      PushingNext(g, roots, AllPushed(w, id, d, init), id, d, init, last);
      assert init + [last] == part;
    }
  }

  lemma PushedOut(g: Deps, roots: set<Id>, w: Work, id: Id, d: nat, subtasks: seq<Subtask>)
    requires Pushing(g, roots, w, id, d, subtasks) && EdgesInto(g, subtasks, id)
    ensures Working(g, roots, w, {})
  {
    hide RealDepth, Edge;
    forall x, dep | Edge(g, x, dep) && dep in w.depth && dep !in w.queue
      ensures x in w.depth && w.depth[x] > w.depth[dep]
    {
      if dep == id {
        var st :| st in subtasks && st.id == x && id in st.dependsOn;
      }
    }
  }

  lemma StepWorks(subtasks: seq<Subtask>, w: Work)
    requires WorkingOn(subtasks, w, {})
    ensures WorkingOn(subtasks, Step(subtasks, w), {})
  {
    if w.queue != [] {
      var g, roots := Merged(subtasks), RootIds(subtasks);
      var id, rest := w.queue[0], Work(w.depth, w.queue[1..]);
      hide Merged, RootIds, RealDepth, Edge, AllPushed, Pushing, Working, EdgesInto;
      PushingStarts(g, roots, w);
      StepEdges(subtasks, id);
      AllPushing(g, roots, rest, id, w.depth[id], subtasks, subtasks);
      PushedOut(g, roots, AllPushed(rest, id, w.depth[id], subtasks), id, w.depth[id], subtasks);
    }
  }

  lemma {:induction false} StepsWork(subtasks: seq<Subtask>, n: nat)
    ensures WorkingOn(subtasks, Steps(subtasks, n), {})
  {
    if n == 0 {
      StartWorks(subtasks);
    } else {
      StepsWork(subtasks, n - 1);
      hide WorkingOn;
      StepWorks(subtasks, Steps(subtasks, n - 1));
    }
  }

  // ---------- where the worklist ends ----------

  lemma {:induction false} RootedVisited(g: Deps, roots: set<Id>, depth: map<Id, nat>, p: seq<Id>)
    requires Working(g, roots, Work(depth, []), {})
    requires IsPath(g, p) && p[|p| - 1] in roots
    ensures p[0] in depth && depth[p[0]] >= |p| - 1
  {
    if |p| > 1 {
      assert Edge(g, p[0], p[1]);
      PathSuffix(g, p, 1);
      RootedVisited(g, roots, depth, p[1..]);
    }
  }

  // With the queue empty exactly the ids above some root are visited, each at the length
  // of its longest path to a root.
  lemma FixedPointIsDeepest(g: Deps, roots: set<Id>, depth: map<Id, nat>)
    requires Working(g, roots, Work(depth, []), {})
    ensures forall id :: id in depth <==> Rooted(g, roots, id)
    ensures forall id :: id in depth ==> Deepest(g, roots, id, depth[id])
  {
    forall id, d: nat | RealDepth(g, roots, id, d) ensures id in depth && d <= depth[id] {
      var p :| IsPath(g, p) && p[0] == id && |p| == d + 1 && p[d] in roots;
      RootedVisited(g, roots, depth, p);
    }
  }

  lemma {:induction false} DeeperAlong(g: Deps, depth: map<Id, nat>, p: seq<Id>)
    requires Relaxed(g, Work(depth, []), {}) && IsPath(g, p) && p[|p| - 1] in depth
    ensures p[0] in depth && depth[p[0]] >= depth[p[|p| - 1]] + |p| - 1
  {
    if |p| > 1 {
      assert Edge(g, p[0], p[1]);
      PathSuffix(g, p, 1);
      DeeperAlong(g, depth, p[1..]);
    }
  }

  // A rooted cycle has no fixed point: around it each id would lie deeper than the next.
  lemma FixedPointExcludesRootedCycles(g: Deps, roots: set<Id>, depth: map<Id, nat>)
    requires Working(g, roots, Work(depth, []), {})
    ensures !RootedCycle(g, roots)
  {
    hide RealDepth, Deepest;
    FixedPointIsDeepest(g, roots, depth);
    hide Rooted;
    if p :| IsCycle(g, p) && Rooted(g, roots, p[0]) {
      DeeperAlong(g, depth, p);
      assert false;
    }
  }

  // ---------- closed acyclic plans ----------

  lemma {:induction false} PathsFit(g: Deps, depth: map<Id, nat>, p: seq<Id>)
    requires Relaxed(g, Work(depth, []), {}) && IsPath(g, p)
    requires forall id :: id in g ==> id in depth
    requires Closed(g) && p[0] in g
    ensures |p| <= depth[p[0]] + 1
  {
    if |p| > 1 {
      assert Edge(g, p[0], p[1]);
      PathSuffix(g, p, 1);
      PathsFit(g, depth, p[1..]);
    }
  }

  lemma {:induction false} AllVisited(g: Deps, depth: map<Id, nat>, order: seq<Id>, k: nat)
    requires Relaxed(g, Work(depth, []), {}) && Closed(g)
    requires DependenciesFirst(g, order) && k < |order| && order[k] in g
    requires forall id :: id in g && g[id] == [] ==> id in depth
    ensures order[k] in depth
  {
    var id := order[k];
    if g[id] != [] {
      var dep := g[id][0];
      assert Edge(g, id, dep) && dep in g;
      var j :| 0 <= j < k && order[..k][j] == dep;
      AllVisited(g, depth, order, j);
    }
  }

  // In a closed acyclic graph the fixed point gives every id the length of its longest
  // dependency path of all.
  lemma FixedPointIsLongest(g: Deps, roots: set<Id>, depth: map<Id, nat>)
    requires Working(g, roots, Work(depth, []), {}) && Closed(g) && !HasCycle(g)
    requires forall id :: id in g && g[id] == [] ==> id in roots
    ensures forall id :: id in g ==> id in depth && LongestDepth(g, roots, id, depth[id])
  {
    var order := AcyclicOrder(g);
    forall id | id in g ensures id in depth {
      var k :| 0 <= k < |order| && order[k] == id;
      AllVisited(g, depth, order, k);
    }
    forall id | id in g ensures LongestDepth(g, roots, id, depth[id]) {
      forall p | IsPath(g, p) && p[0] == id ensures |p| <= depth[id] + 1 {
        PathsFit(g, depth, p);
      }
    }
  }

  lemma DeclaredIsEdge(subtasks: seq<Subtask>, st: Subtask)
    requires st in subtasks && st.dependsOn != []
    ensures st.id in Merged(subtasks) && Merged(subtasks)[st.id] != []
  {
    MergedEdges(subtasks);
    assert Declares(subtasks, st.id, st.dependsOn[0]);
    assert Edge(Merged(subtasks), st.id, st.dependsOn[0]);
  }

  lemma RootsHaveNoDependencies(subtasks: seq<Subtask>)
    ensures forall id :: id in Merged(subtasks) && Merged(subtasks)[id] == [] ==> id in RootIds(subtasks)
  {
    MergedEdges(subtasks);
    forall id | id in Merged(subtasks) && Merged(subtasks)[id] == [] ensures id in RootIds(subtasks) {
      var k :| 0 <= k < |subtasks| && subtasks[k].id == id;
      if subtasks[k].dependsOn != [] {
        DeclaredIsEdge(subtasks, subtasks[k]);
        assert false;
      }
      assert subtasks[k] in subtasks;
    }
  }

  // ---------- exactly when it ends ----------

  function Bound(subtasks: seq<Subtask>): nat {
    |Universe(Merged(subtasks))|
  }

  // Without rooted cycles every push that changes anything uses up slack.
  lemma PushProgress(subtasks: seq<Subtask>, w: Work, id: Id, d: nat, s: Subtask)
    requires !RootedCycle(Merged(subtasks), RootIds(subtasks)) && s in subtasks
    requires RealDepth(Merged(subtasks), RootIds(subtasks), id, d)
    ensures Progress(subtasks, w, Pushed(w, id, d, s))
  {
    var g, roots := Merged(subtasks), RootIds(subtasks);
    if Pushed(w, id, d, s) != w {
      MergedEdges(subtasks);
      assert Declares(subtasks, s.id, id);
      hide Merged, RootIds, RootedCycle, RealDepth;
      assert HasId(subtasks, s.id) by {
        var k :| 0 <= k < |subtasks| && subtasks[k] == s;
      }
      DeeperIsReal(g, roots, s.id, id, d);
      DepthBounded(g, roots, s.id, d + 1);
      RaisingUsesSlack(subtasks, w.depth, Bound(subtasks), s.id, d + 1);
    }
  }

  ghost predicate Progress(subtasks: seq<Subtask>, w: Work, u: Work) {
    u == w || Slack(subtasks, u.depth, Bound(subtasks)) < Slack(subtasks, w.depth, Bound(subtasks))
  }

  lemma {:induction false} AllProgress(subtasks: seq<Subtask>, w: Work, id: Id, d: nat, part: seq<Subtask>)
    requires !RootedCycle(Merged(subtasks), RootIds(subtasks))
    requires forall st :: st in part ==> st in subtasks
    requires RealDepth(Merged(subtasks), RootIds(subtasks), id, d)
    ensures Progress(subtasks, w, AllPushed(w, id, d, part))
  {
    hide RootedCycle, RealDepth, Merged, RootIds, Slack, Bound, Pushed;
    if part != [] {
      var init := part[..|part| - 1];
      AllProgress(subtasks, w, id, d, init);
      PushProgress(subtasks, AllPushed(w, id, d, init), id, d, part[|part| - 1]);
    }
  }

  // A step shortens the queue or uses up slack.
  lemma StepProgress(subtasks: seq<Subtask>, w: Work)
    requires !RootedCycle(Merged(subtasks), RootIds(subtasks)) && WorkingOn(subtasks, w, {}) && w.queue != []
    ensures w.queue[0] in w.depth
    ensures Progress(subtasks, Work(w.depth, w.queue[1..]), Step(subtasks, w))
  {
    hide RootedCycle, RealDepth, Merged, RootIds, Relaxed, Progress, AllPushed;
    assert w.queue[0] in w.queue;
    AllProgress(subtasks, Work(w.depth, w.queue[1..]), w.queue[0], w.depth[w.queue[0]], subtasks);
  }

  lemma StepShrinks(subtasks: seq<Subtask>, n: nat)
    requires !RootedCycle(Merged(subtasks), RootIds(subtasks)) && Steps(subtasks, n).queue != []
    ensures var w, u := Steps(subtasks, n), Steps(subtasks, n + 1);
      || Slack(subtasks, u.depth, Bound(subtasks)) < Slack(subtasks, w.depth, Bound(subtasks))
      || (u.depth == w.depth && |u.queue| < |w.queue|)
  {
    StepsWork(subtasks, n);
    hide RootedCycle, Merged, RootIds, Working, Step, Slack, Bound, Start;
    StepProgress(subtasks, Steps(subtasks, n));
  }

  lemma {:induction false} RunsOut(subtasks: seq<Subtask>, n0: nat) returns (n: nat)
    requires !RootedCycle(Merged(subtasks), RootIds(subtasks))
    ensures Steps(subtasks, n).queue == []
    decreases Slack(subtasks, Steps(subtasks, n0).depth, Bound(subtasks)), |Steps(subtasks, n0).queue|
  {
    hide RootedCycle, Merged, RootIds, Steps, Slack, Bound;
    if Steps(subtasks, n0).queue == [] {
      n := n0;
    } else {
      StepShrinks(subtasks, n0);
      n := RunsOut(subtasks, n0 + 1);
    }
  }

  ghost predicate Ends(subtasks: seq<Subtask>) {
    exists n: nat :: Steps(subtasks, n).queue == []
  }

  // On any plan the worklist ends exactly if no cycle has a root below it.
  lemma EndsExactlyWhen(subtasks: seq<Subtask>)
    ensures Ends(subtasks) <==> !RootedCycle(Merged(subtasks), RootIds(subtasks))
  {
    if n: nat :| Steps(subtasks, n).queue == [] {
      StepsWork(subtasks, n);
      FixedPointExcludesRootedCycles(Merged(subtasks), RootIds(subtasks), Steps(subtasks, n).depth);
    }
    if !RootedCycle(Merged(subtasks), RootIds(subtasks)) {
      var n := RunsOut(subtasks, 0);
    }
  }

  // A plan that validation accepts and on which the worklist never ends.
  const ENDLESS_PLAN: seq<Subtask> := [
    Subtask("r", "r", "r", [], [], Pending),
    Subtask("a", "a", "a", ["r", "b"], [], Pending),
    Subtask("b", "b", "b", ["a"], [], Pending)]

  lemma EndlessEdges()
    ensures var g := Merged(ENDLESS_PLAN); Edge(g, "a", "r") && Edge(g, "a", "b") && Edge(g, "b", "a")
    ensures "r" in RootIds(ENDLESS_PLAN)
  {
    var plan := ENDLESS_PLAN;
    MergedEdges(plan);
    assert plan[0] in plan && plan[1] in plan && plan[2] in plan;
    assert plan[1].dependsOn[0] == "r" && plan[1].dependsOn[1] == "b" && plan[2].dependsOn[0] == "a";
    assert Declares(plan, "a", "r") && Declares(plan, "a", "b") && Declares(plan, "b", "a");
  }

  lemma CycleAbove(g: Deps, roots: set<Id>, root: Id, a: Id, b: Id)
    requires root in roots && Edge(g, a, root) && Edge(g, a, b) && Edge(g, b, a)
    ensures RootedCycle(g, roots)
  {
    hide Edge;
    var p := [a, root];
    assert IsPath(g, p) && p[1] in roots;
    assert RealDepth(g, roots, a, 1);
    var q := [a, b, a];
    assert IsCycle(g, q);
  }

  lemma NeverEnds()
    ensures ValidPlan(PlanOutput("parallel", ENDLESS_PLAN)) && !Ends(ENDLESS_PLAN)
  {
    EndlessEdges();
    hide Merged, RootIds, Ends, Edge, RootedCycle;
    CycleAbove(Merged(ENDLESS_PLAN), RootIds(ENDLESS_PLAN), "r", "a", "b");
    EndsExactlyWhen(ENDLESS_PLAN);
    var plan := ENDLESS_PLAN;
    assert plan[0].id == "r" && plan[1].id == "a" && plan[2].id == "b";
    assert HasId(plan, "r") && HasId(plan, "a") && HasId(plan, "b");
  }

  // A cycle without a root below it does no harm.
  const HARMLESS_PLAN: seq<Subtask> := [
    Subtask("a", "a", "a", ["b"], [], Pending),
    Subtask("b", "b", "b", ["a"], [], Pending)]

  lemma CyclicButEnds()
    ensures HasCycle(Merged(HARMLESS_PLAN)) && Ends(HARMLESS_PLAN)
  {
    var plan := HARMLESS_PLAN;
    MergedEdges(plan);
    assert plan[0] in plan && plan[1] in plan;
    assert plan[0].dependsOn[0] == "b" && plan[1].dependsOn[0] == "a";
    assert Declares(plan, "a", "b") && Declares(plan, "b", "a");
    assert IsCycle(Merged(plan), ["a", "b", "a"]);
    NoRootsNoWork(plan);
  }

  lemma NoRootsNoWork(subtasks: seq<Subtask>)
    requires forall st :: st in subtasks ==> st.dependsOn != []
    ensures Ends(subtasks)
  {
    StartAtRoots(subtasks);
    hide Start;
    assert forall id :: id !in RootIds(subtasks);
    if Start(subtasks).queue != [] {
      assert Start(subtasks).queue[0] in Start(subtasks).queue;
      assert false;
    }
    assert Steps(subtasks, 0).queue == [];
  }

  // ---------- the loops ----------

  // What the view shows: the longest path down to a root, or the first column when there is none.
  ghost predicate Shown(g: Deps, roots: set<Id>, id: Id, d: nat) {
    if Rooted(g, roots, id) then Deepest(g, roots, id, d) else d == 0
  }

  method ComputeDepths(subtasks: seq<Subtask>) returns (depth: map<Id, nat>)
    requires !RootedCycle(Merged(subtasks), RootIds(subtasks))
    ensures forall st :: st in subtasks ==>
              st.id in depth && Shown(Merged(subtasks), RootIds(subtasks), st.id, depth[st.id])
    ensures ClosedDependencies(subtasks) && !HasCycle(Merged(subtasks)) ==>
              forall st :: st in subtasks ==> LongestDepth(Merged(subtasks), RootIds(subtasks), st.id, depth[st.id])
  {
    hide RootedCycle, Merged, RootIds, HasCycle, Shown, LongestDepth, WorkingOn, Step;
    var queue;
    depth, queue := FindRoots(subtasks);
    ghost var n := 0;
    while |queue| > 0
      invariant Work(depth, queue) == Steps(subtasks, n)
      decreases Slack(subtasks, depth, Bound(subtasks)), |queue|
    {
      StepsWork(subtasks, n);
      StepProgress(subtasks, Work(depth, queue));
      depth, queue := Relax(subtasks, depth, queue);
      n := n + 1;
    }
    assert queue == [];
    ghost var visited := depth;
    StepsWork(subtasks, n);
    depth := FillUnvisited(subtasks, depth);
    EndShows(subtasks, visited, depth);
  }

  lemma EndShows(subtasks: seq<Subtask>, visited: map<Id, nat>, depth: map<Id, nat>)
    requires WorkingOn(subtasks, Work(visited, []), {})
    requires forall st :: st in subtasks ==>
               st.id in depth && depth[st.id] == if st.id in visited then visited[st.id] else 0
    ensures forall st :: st in subtasks ==> Shown(Merged(subtasks), RootIds(subtasks), st.id, depth[st.id])
    ensures ClosedDependencies(subtasks) && !HasCycle(Merged(subtasks)) ==>
              forall st :: st in subtasks ==> LongestDepth(Merged(subtasks), RootIds(subtasks), st.id, depth[st.id])
  {
    hide Merged, RootIds, Deepest, Rooted, LongestDepth, Working, HasCycle;
    FixedPointIsDeepest(Merged(subtasks), RootIds(subtasks), visited);
    if ClosedDependencies(subtasks) && !HasCycle(Merged(subtasks)) {
      EndIsLongest(subtasks, visited);
    }
  }

  lemma EndIsLongest(subtasks: seq<Subtask>, visited: map<Id, nat>)
    requires WorkingOn(subtasks, Work(visited, []), {})
    requires ClosedDependencies(subtasks) && !HasCycle(Merged(subtasks))
    ensures forall st :: st in subtasks ==>
              st.id in visited && LongestDepth(Merged(subtasks), RootIds(subtasks), st.id, visited[st.id])
  {
    RootsHaveNoDependencies(subtasks);
    MergedEdges(subtasks);
    MergedCloses(subtasks);
    hide Merged, RootIds, LongestDepth, Working, HasCycle, Closed;
    FixedPointIsLongest(Merged(subtasks), RootIds(subtasks), visited);
    forall st | st in subtasks ensures st.id in Merged(subtasks) {
      var k :| 0 <= k < |subtasks| && subtasks[k] == st;
      assert HasId(subtasks, st.id);
    }
  }

  method FillUnvisited(subtasks: seq<Subtask>, depth0: map<Id, nat>) returns (depth: map<Id, nat>)
    ensures forall st :: st in subtasks ==>
              st.id in depth && depth[st.id] == if st.id in depth0 then depth0[st.id] else 0
  {
    depth := depth0;
    for i := 0 to |subtasks|
      invariant forall k :: 0 <= k < i ==> subtasks[k].id in depth
      invariant forall id :: id in depth0 ==> id in depth && depth[id] == depth0[id]
      invariant forall id :: id in depth && id !in depth0 ==> depth[id] == 0
    {
      if subtasks[i].id !in depth {
        depth := depth[subtasks[i].id := 0];
      }
    }
  }

  method FindRoots(subtasks: seq<Subtask>) returns (depth: map<Id, nat>, queue: seq<Id>)
    ensures Work(depth, queue) == Start(subtasks)
  {
    depth, queue := map[], [];
    for i := 0 to |subtasks|
      invariant Work(depth, queue) == Start(subtasks[..i])
    {
      var s := subtasks[i];
      assert subtasks[..i + 1][..i] == subtasks[..i];
      if |s.dependsOn| == 0 {
        depth := depth[s.id := 0];
        queue := queue + [s.id];
      }
    }
    assert subtasks[..|subtasks|] == subtasks;
  }

  // The body of the worklist loop.
  method Relax(subtasks: seq<Subtask>, depth0: map<Id, nat>, queue0: seq<Id>)
    returns (depth: map<Id, nat>, queue: seq<Id>)
    requires queue0 != [] && queue0[0] in depth0
    ensures Work(depth, queue) == Step(subtasks, Work(depth0, queue0))
  {
    depth, queue := depth0, queue0[1..];
    var id := queue0[0];
    var d := depth[id];
    ghost var w := Work(depth, queue);
    for i := 0 to |subtasks|
      invariant Work(depth, queue) == AllPushed(w, id, d, subtasks[..i])
    {
      var s := subtasks[i];
      assert subtasks[..i + 1][..i] == subtasks[..i];
      if id in s.dependsOn {
        var prev := if s.id in depth then depth[s.id] as int else -1;
        if d + 1 > prev {
          depth := depth[s.id := d + 1];
          queue := queue + [s.id];
        }
      }
    }
    assert subtasks[..|subtasks|] == subtasks;
  }
}
