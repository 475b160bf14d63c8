// Columns, node positions and edges of the plan view
// (web/src/lib/components/DependencyGraph.svelte, lines 51-105).
module PlanView {
  import opened Plans
  import opened Graphs
  import opened Layering

  const NODE_W := 160
  const NODE_H := 48
  const GAP_X := 60
  const GAP_Y := 32
  const PAD := 24

  type Layers = map<nat, seq<Subtask>>

  datatype Node = Node(x: int, y: int, subtask: Subtask)
  datatype EdgeLine = EdgeLine(x1: int, y1: int, x2: int, y2: int, from: Id, to: Id)
  datatype Layout = Layout(nodes: seq<Node>, edges: seq<EdgeLine>, width: int, height: int)

  // The subtasks of one depth, in plan order.
  function Layer(subtasks: seq<Subtask>, depth: map<Id, nat>, d: nat): seq<Subtask>
    requires forall st :: st in subtasks ==> st.id in depth
  {
    if subtasks == [] then []
    else
      var rest := Layer(subtasks[..|subtasks| - 1], depth, d);
      var last := subtasks[|subtasks| - 1];
      if depth[last.id] == d then rest + [last] else rest
  }

  lemma {:induction false} LayerMembers(subtasks: seq<Subtask>, depth: map<Id, nat>, d: nat)
    requires forall st :: st in subtasks ==> st.id in depth
    ensures forall st :: st in Layer(subtasks, depth, d) <==> st in subtasks && depth[st.id] == d
  {
    if subtasks != [] {
      var init := subtasks[..|subtasks| - 1];
      LayerMembers(init, depth, d);
      assert subtasks == init + [subtasks[|subtasks| - 1]];
    }
  }

  lemma {:induction false} LayerUnique(subtasks: seq<Subtask>, depth: map<Id, nat>, d: nat)
    requires UniqueIds(subtasks) && forall st :: st in subtasks ==> st.id in depth
    ensures UniqueIds(Layer(subtasks, depth, d))
  {
    if subtasks != [] {
      var init := subtasks[..|subtasks| - 1];
      LayerUnique(init, depth, d);
      LayerMembers(init, depth, d);
      forall st | st in Layer(init, depth, d) ensures st.id != subtasks[|subtasks| - 1].id {
        var k :| 0 <= k < |init| && init[k] == st;
        assert subtasks[k] == st;
      }
    }
  }

  // The layers of a plan: one per occurring depth.
  ghost predicate GroupedBy(subtasks: seq<Subtask>, depth: map<Id, nat>, layers: Layers)
    requires forall st :: st in subtasks ==> st.id in depth
  {
    && (forall d :: d in layers ==> layers[d] == Layer(subtasks, depth, d) && layers[d] != [])
    && (forall st :: st in subtasks ==> depth[st.id] in layers)
  }

  lemma LayerOfAbsent(subtasks: seq<Subtask>, depth: map<Id, nat>, d: nat)
    requires forall st :: st in subtasks ==> st.id in depth && depth[st.id] != d
    ensures Layer(subtasks, depth, d) == []
  {
    if subtasks != [] {
      LayerOfAbsent(subtasks[..|subtasks| - 1], depth, d);
      assert subtasks[|subtasks| - 1] in subtasks;
    }
  }

  lemma LayerNext(subtasks: seq<Subtask>, depth: map<Id, nat>, d: nat, i: nat)
    requires i < |subtasks| && forall st :: st in subtasks ==> st.id in depth
    ensures Layer(subtasks[..i + 1], depth, d) ==
            if depth[subtasks[i].id] == d then Layer(subtasks[..i], depth, d) + [subtasks[i]]
            else Layer(subtasks[..i], depth, d)
  {
    assert subtasks[..i + 1][..i] == subtasks[..i];
  }

  method GroupByLayer(subtasks: seq<Subtask>, depth: map<Id, nat>) returns (layers: Layers)
    requires forall st :: st in subtasks ==> st.id in depth
    ensures GroupedBy(subtasks, depth, layers)
  {
    layers := map[];
    for i := 0 to |subtasks|
      invariant GroupedBy(subtasks[..i], depth, layers)
    {
      var s := subtasks[i];
      var d := depth[s.id];
      ghost var before := layers;
      if d !in layers {
        LayerOfAbsent(subtasks[..i], depth, d);
        layers := layers[d := []];
      }
      layers := layers[d := layers[d] + [s]];
      forall e | e in layers ensures layers[e] == Layer(subtasks[..i + 1], depth, e) && layers[e] != [] {
        LayerNext(subtasks, depth, e, i);
      }
      assert subtasks[..i + 1] == subtasks[..i] + [s];
    }
    assert subtasks[..|subtasks|] == subtasks;
  }

  method MaxOf(s: set<nat>, least: nat) returns (m: nat)
    ensures m >= least && forall x :: x in s ==> x <= m
    ensures m == least || m in s
  {
    m := least;
    var todo := s;
    while todo != {}
      invariant todo <= s && m >= least && (m == least || m in s)
      invariant forall x :: x in s && x !in todo ==> x <= m
    {
      var x :| x in todo;
      todo := todo - {x};
      if x > m {
        m := x;
      }
    }
  }

  // A cell of the grid: a column and a row of its layer.
  datatype Cell = Cell(col: nat, row: nat)

  function At(layers: Layers, col: nat): seq<Subtask> {
    if col in layers then layers[col] else []
  }

  predicate InGrid(layers: Layers, c: Cell) {
    c.row < |At(layers, c.col)|
  }

  // Columns are centred vertically.  All heights are multiples of 80 apart, so halving is exact.
  function OffsetY(maxPerLayer: nat, size: nat): int {
    var totalHeight := size * NODE_H + (size - 1) * GAP_Y;
    var maxTotalHeight := maxPerLayer * NODE_H + (maxPerLayer - 1) * GAP_Y;
    (maxTotalHeight - totalHeight) / 2
  }

  function Place(layers: Layers, maxPerLayer: nat, c: Cell): Node
    requires InGrid(layers, c)
  {
    var layerNodes := At(layers, c.col);
    var offsetY := OffsetY(maxPerLayer, |layerNodes|);
    Node(PAD + c.col * (NODE_W + GAP_X), PAD + offsetY + c.row * (NODE_H + GAP_Y), layerNodes[c.row])
  }

  // `nodes` draws the grid cells listed in `cells`, each once.
  ghost predicate Draws(layers: Layers, maxPerLayer: nat, nodes: seq<Node>, cells: seq<Cell>) {
    && |nodes| == |cells|
    && (forall k :: 0 <= k < |cells| ==> InGrid(layers, cells[k]) && nodes[k] == Place(layers, maxPerLayer, cells[k]))
    && (forall j, k :: 0 <= j < k < |cells| ==> cells[j] != cells[k])
  }

  lemma DrawsNext(layers: Layers, maxPerLayer: nat, nodes: seq<Node>, cells: seq<Cell>, c: Cell)
    requires Draws(layers, maxPerLayer, nodes, cells) && InGrid(layers, c) && c !in cells
    ensures Draws(layers, maxPerLayer, nodes + [Place(layers, maxPerLayer, c)], cells + [c])
    ensures forall d :: d in cells + [c] <==> d in cells || d == c
  {
  }

  method PositionNodes(layers: Layers, maxLayer: nat, maxPerLayer: nat) returns (nodes: seq<Node>, ghost cells: seq<Cell>)
    requires forall d :: d in layers ==> d <= maxLayer
    ensures Draws(layers, maxPerLayer, nodes, cells)
    ensures forall c :: InGrid(layers, c) ==> c in cells
  {
    nodes, cells := [], [];
    for col := 0 to maxLayer + 1
      invariant Draws(layers, maxPerLayer, nodes, cells)
      invariant Reached(layers, cells, col, 0)
    {
      nodes, cells := PositionColumn(layers, maxPerLayer, col, nodes, cells);
    }
  }

  // The cells drawn so far: all columns before `col`, and the rows before `row` of it.
  ghost predicate Reached(layers: Layers, cells: seq<Cell>, col: nat, row: nat) {
    forall c :: c in cells <==> InGrid(layers, c) && (c.col < col || (c.col == col && c.row < row))
  }

  method PositionColumn(layers: Layers, maxPerLayer: nat, col: nat, nodes0: seq<Node>, ghost cells0: seq<Cell>)
    returns (nodes: seq<Node>, ghost cells: seq<Cell>)
    requires Draws(layers, maxPerLayer, nodes0, cells0) && Reached(layers, cells0, col, 0)
    ensures Draws(layers, maxPerLayer, nodes, cells) && Reached(layers, cells, col + 1, 0)
  {
    nodes, cells := nodes0, cells0;
    var layerNodes := At(layers, col);
    var offsetY := OffsetY(maxPerLayer, |layerNodes|);
    hide OffsetY;
    for row := 0 to |layerNodes|
      invariant Draws(layers, maxPerLayer, nodes, cells)
      invariant Reached(layers, cells, col, row)
    {
      var node := Node(PAD + col * (NODE_W + GAP_X), PAD + offsetY + row * (NODE_H + GAP_Y), layerNodes[row]);
      assert node == Place(layers, maxPerLayer, Cell(col, row));
      hide Place;
      DrawsNext(layers, maxPerLayer, nodes, cells, Cell(col, row));
      nodes := nodes + [node];
      cells := cells + [Cell(col, row)];
    }
  }

  // ---------- what the picture promises ----------

  predicate Apart(a: Node, b: Node) {
    || a.x + NODE_W + GAP_X <= b.x || b.x + NODE_W + GAP_X <= a.x
    || a.y + NODE_H + GAP_Y <= b.y || b.y + NODE_H + GAP_Y <= a.y
  }

  predicate Inside(n: Node, width: int, height: int) {
    && PAD <= n.x && n.x + NODE_W + PAD <= width
    && PAD <= n.y && n.y + NODE_H + PAD <= height
  }

  lemma DifferentCellsApart(layers: Layers, maxPerLayer: nat, a: Cell, b: Cell)
    requires InGrid(layers, a) && InGrid(layers, b) && a != b
    ensures Apart(Place(layers, maxPerLayer, a), Place(layers, maxPerLayer, b))
  {
    if a.col < b.col {
      assert b.col * 220 >= (a.col + 1) * 220;
    } else if b.col < a.col {
      assert a.col * 220 >= (b.col + 1) * 220;
    }
  }

  lemma CellsInside(layers: Layers, maxLayer: nat, maxPerLayer: nat, c: Cell)
    requires InGrid(layers, c) && c.col <= maxLayer && |At(layers, c.col)| <= maxPerLayer
    ensures Inside(Place(layers, maxPerLayer, c),
                   PAD * 2 + (maxLayer + 1) * NODE_W + maxLayer * GAP_X,
                   PAD * 2 + maxPerLayer * NODE_H + (maxPerLayer - 1) * GAP_Y)
  {
  }

  // The drawing area is the smallest that holds the nodes.
  ghost predicate TightBox(nodes: seq<Node>, width: int, height: int) {
    && (exists n :: n in nodes && n.x + NODE_W + PAD == width)
    && (exists n :: n in nodes && n.y == PAD && exists m :: m in nodes && m.x == n.x && m.y + NODE_H + PAD == height)
  }

  lemma PlaceIs(layers: Layers, maxPerLayer: nat, c: Cell)
    requires InGrid(layers, c)
    ensures var n, size := Place(layers, maxPerLayer, c), |At(layers, c.col)|;
      && n.x == 24 + 220 * c.col && n.y == 24 + 40 * (maxPerLayer - size) + 80 * c.row
      && n.subtask == At(layers, c.col)[c.row]
  {
  }

  // The last column touches the right edge, the tallest one the top and the bottom.
  lemma ExtentIsTight(layers: Layers, maxLayer: nat, maxPerLayer: nat, nodes: seq<Node>, cells: seq<Cell>)
    requires layers != map[] && forall d :: d in layers ==> layers[d] != []
    requires forall d :: d in layers ==> d <= maxLayer && |layers[d]| <= maxPerLayer
    requires maxLayer == 0 || maxLayer in layers
    requires maxPerLayer == 1 || exists d :: d in layers && |layers[d]| == maxPerLayer
    requires Draws(layers, maxPerLayer, nodes, cells) && forall c :: InGrid(layers, c) ==> c in cells
    ensures TightBox(nodes, PAD * 2 + (maxLayer + 1) * NODE_W + maxLayer * GAP_X,
                     PAD * 2 + maxPerLayer * NODE_H + (maxPerLayer - 1) * GAP_Y)
  {
    hide Place, Draws;
    var any :| any in layers;
    assert |layers[any]| >= 1;
    var d :| d in layers && |layers[d]| == maxPerLayer;
    TouchedAt(layers, maxPerLayer, nodes, cells, Cell(maxLayer, 0));
    TouchedAt(layers, maxPerLayer, nodes, cells, Cell(d, 0));
    TouchedAt(layers, maxPerLayer, nodes, cells, Cell(d, maxPerLayer - 1));
  }

  lemma TouchedAt(layers: Layers, maxPerLayer: nat, nodes: seq<Node>, cells: seq<Cell>, c: Cell)
    requires Draws(layers, maxPerLayer, nodes, cells) && InGrid(layers, c) && c in cells
    ensures var n, size := Place(layers, maxPerLayer, c), |At(layers, c.col)|;
      n in nodes && n.x == 24 + 220 * c.col && n.y == 24 + 40 * (maxPerLayer - size) + 80 * c.row
  {
    PlaceIs(layers, maxPerLayer, c);
    var k :| 0 <= k < |cells| && cells[k] == c;
    assert nodes[k] in nodes;
  }

  // Every subtask is drawn, in the column of its depth, and with unique ids only once.
  ghost predicate EachOnce(subtasks: seq<Subtask>, depth: map<Id, nat>, nodes: seq<Node>) {
    && (UniqueIds(subtasks) ==> forall j, k :: 0 <= j < k < |nodes| ==> nodes[j].subtask.id != nodes[k].subtask.id)
    && (forall n :: n in nodes ==>
          n.subtask in subtasks && n.subtask.id in depth && n.x == Column(depth[n.subtask.id]))
    && (forall st :: st in subtasks ==> exists n :: n in nodes && n.subtask == st)
  }

  function Column(d: nat): int {
    PAD + d * (NODE_W + GAP_X)
  }

  lemma DrawnOnce(subtasks: seq<Subtask>, depth: map<Id, nat>, layers: Layers, maxPerLayer: nat,
                  nodes: seq<Node>, cells: seq<Cell>)
    requires forall st :: st in subtasks ==> st.id in depth
    requires GroupedBy(subtasks, depth, layers) && Draws(layers, maxPerLayer, nodes, cells)
    requires forall c :: InGrid(layers, c) ==> c in cells
    ensures EachOnce(subtasks, depth, nodes)
  {
    hide Layer;
    forall k | 0 <= k < |nodes|
      ensures nodes[k].subtask in subtasks && depth[nodes[k].subtask.id] == cells[k].col
    {
      LayerMembers(subtasks, depth, cells[k].col);
      assert nodes[k].subtask in At(layers, cells[k].col);
    }
    forall j, k | UniqueIds(subtasks) && 0 <= j < k < |nodes| ensures nodes[j].subtask.id != nodes[k].subtask.id {
      LayerUnique(subtasks, depth, cells[k].col);
      if cells[j].col == cells[k].col {
        assert cells[j].row != cells[k].row;
      }
    }
    forall st | st in subtasks ensures exists n :: n in nodes && n.subtask == st {
      SubtaskDrawn(subtasks, depth, layers, maxPerLayer, nodes, cells, st);
    }
  }

  lemma SubtaskDrawn(subtasks: seq<Subtask>, depth: map<Id, nat>, layers: Layers, maxPerLayer: nat,
                     nodes: seq<Node>, cells: seq<Cell>, st: Subtask)
    requires forall st :: st in subtasks ==> st.id in depth
    requires GroupedBy(subtasks, depth, layers) && Draws(layers, maxPerLayer, nodes, cells) && st in subtasks
    requires forall c :: InGrid(layers, c) ==> c in cells
    ensures exists n :: n in nodes && n.subtask == st
  {
    hide Layer;
    var d := depth[st.id];
    LayerMembers(subtasks, depth, d);
    var row :| 0 <= row < |layers[d]| && layers[d][row] == st;
    assert InGrid(layers, Cell(d, row));
    var k :| 0 <= k < |cells| && cells[k] == Cell(d, row);
    assert nodes[k] in nodes;
  }

  // In a column the subtasks stand in plan order.
  ghost predicate InPlanOrder(subtasks: seq<Subtask>, nodes: seq<Node>) {
    forall a, b, i, j ::
      (a in nodes && b in nodes && a.x == b.x && 0 <= i < j < |subtasks| && a.subtask == subtasks[i] && b.subtask == subtasks[j])
      ==> a.y + NODE_H + GAP_Y <= b.y
  }

  lemma {:induction false} LayerInOrder(subtasks: seq<Subtask>, depth: map<Id, nat>, d: nat, i: nat, j: nat, r: nat, q: nat)
    requires UniqueIds(subtasks) && forall st :: st in subtasks ==> st.id in depth
    requires i < j < |subtasks| && r < |Layer(subtasks, depth, d)| && q < |Layer(subtasks, depth, d)|
    requires Layer(subtasks, depth, d)[r] == subtasks[i] && Layer(subtasks, depth, d)[q] == subtasks[j]
    ensures r < q
  {
    var init := subtasks[..|subtasks| - 1];
    var rest := Layer(init, depth, d);
    LayerMembers(init, depth, d);
    assert subtasks[|subtasks| - 1] !in init;
    if j < |init| {
      assert r < |rest| && q < |rest|;
      LayerInOrder(init, depth, d, i, j, r, q);
    } else {
      assert q == |rest|;
    }
  }

  lemma DrawnInOrder(subtasks: seq<Subtask>, depth: map<Id, nat>, layers: Layers, maxPerLayer: nat,
                     nodes: seq<Node>, cells: seq<Cell>)
    requires UniqueIds(subtasks) && forall st :: st in subtasks ==> st.id in depth
    requires GroupedBy(subtasks, depth, layers) && Draws(layers, maxPerLayer, nodes, cells)
    ensures InPlanOrder(subtasks, nodes)
  {
    hide UniqueIds, GroupedBy, Draws, Layer;
    forall a, b, i, j | a in nodes && b in nodes && a.x == b.x && 0 <= i < j < |subtasks| &&
      a.subtask == subtasks[i] && b.subtask == subtasks[j]
      ensures a.y + NODE_H + GAP_Y <= b.y
    {
      var c := CellOf(layers, maxPerLayer, nodes, cells, a);
      var d := CellOf(layers, maxPerLayer, nodes, cells, b);
      CellsInOrder(subtasks, depth, layers, c, d, i, j);
    }
  }

  // The cell that a node draws.
  lemma CellOf(layers: Layers, maxPerLayer: nat, nodes: seq<Node>, cells: seq<Cell>, n: Node) returns (c: Cell)
    requires Draws(layers, maxPerLayer, nodes, cells) && n in nodes
    ensures var size := |At(layers, c.col)|;
      && InGrid(layers, c) && n.subtask == At(layers, c.col)[c.row]
      && n.x == 24 + 220 * c.col && n.y == 24 + 40 * (maxPerLayer - size) + 80 * c.row
  {
    var k :| 0 <= k < |nodes| && nodes[k] == n;
    c := cells[k];
    PlaceIs(layers, maxPerLayer, c);
  }

  lemma CellsInOrder(subtasks: seq<Subtask>, depth: map<Id, nat>, layers: Layers, c: Cell, d: Cell, i: nat, j: nat)
    requires UniqueIds(subtasks) && forall st :: st in subtasks ==> st.id in depth
    requires GroupedBy(subtasks, depth, layers) && InGrid(layers, c) && InGrid(layers, d) && c.col == d.col
    requires i < j < |subtasks| && At(layers, c.col)[c.row] == subtasks[i] && At(layers, d.col)[d.row] == subtasks[j]
    ensures c.row < d.row
  {
    hide Layer, UniqueIds;
    LayerInOrder(subtasks, depth, c.col, i, j, c.row, d.row);
  }

  // ---------- edges ----------

  function NodeMap(nodes: seq<Node>): map<Id, Node> {
    if nodes == [] then map[]
    else NodeMap(nodes[..|nodes| - 1])[nodes[|nodes| - 1].subtask.id := nodes[|nodes| - 1]]
  }

  lemma {:induction false} NodeMapMembers(nodes: seq<Node>)
    ensures forall id :: id in NodeMap(nodes) ==> NodeMap(nodes)[id] in nodes && NodeMap(nodes)[id].subtask.id == id
    ensures forall n :: n in nodes ==> n.subtask.id in NodeMap(nodes)
  {
    if nodes != [] {
      NodeMapMembers(nodes[..|nodes| - 1]);
      assert nodes == nodes[..|nodes| - 1] + [nodes[|nodes| - 1]];
    }
  }

  function Line(from: Node, to: Node): EdgeLine {
    EdgeLine(from.x + NODE_W, from.y + NODE_H / 2, to.x, to.y + NODE_H / 2, from.subtask.id, to.subtask.id)
  }

  // From the middle of one node's right side to the middle of the other's left side.
  predicate Joins(e: EdgeLine, a: Node, b: Node) {
    && e.from == a.subtask.id && e.x1 == a.x + NODE_W && 2 * e.y1 == 2 * a.y + NODE_H
    && e.to == b.subtask.id && e.x2 == b.x && 2 * e.y2 == 2 * b.y + NODE_H
  }

  // The line of one declared dependency, between the nodes drawn for its ends.
  ghost predicate IsLine(subtasks: seq<Subtask>, nodes: seq<Node>, e: EdgeLine) {
    exists a, b :: a in nodes && b in nodes && Joins(e, a, b) &&
      exists st :: st in subtasks && st.id == e.to && e.from in st.dependsOn
  }

  ghost predicate HasLine(edges: seq<EdgeLine>, from: Id, to: Id) {
    exists e :: e in edges && e.from == from && e.to == to
  }

  // How many lines run between two subtasks.
  ghost function LinesBetween(edges: seq<EdgeLine>, from: Id, to: Id): nat {
    if edges == [] then 0
    else
      var last := edges[|edges| - 1];
      LinesBetween(edges[..|edges| - 1], from, to) + if last.from == from && last.to == to then 1 else 0
  }

  // How often the plan declares that one depends on the other.
  ghost function Declarations(subtasks: seq<Subtask>, from: Id, to: Id): nat {
    if subtasks == [] then 0
    else
      var last := subtasks[|subtasks| - 1];
      Declarations(subtasks[..|subtasks| - 1], from, to) + if last.id == to then multiset(last.dependsOn)[from] else 0
  }

  // One line per declaration, if both ends are drawn.
  ghost predicate LinePerDeclaration(subtasks: seq<Subtask>, drawn: set<Id>, edges: seq<EdgeLine>) {
    forall from, to ::
      LinesBetween(edges, from, to) == if from in drawn && to in drawn then Declarations(subtasks, from, to) else 0
  }

  lemma LinesNext(edges: seq<EdgeLine>, e: EdgeLine)
    ensures forall from, to ::
      LinesBetween(edges + [e], from, to) == LinesBetween(edges, from, to) + if e.from == from && e.to == to then 1 else 0
  {
    assert (edges + [e])[..|edges|] == edges;
  }

  lemma DeclarationsNext(subtasks: seq<Subtask>, i: nat)
    requires i < |subtasks|
    ensures forall from, to ::
      Declarations(subtasks[..i + 1], from, to) ==
      Declarations(subtasks[..i], from, to) + if subtasks[i].id == to then multiset(subtasks[i].dependsOn)[from] else 0
  {
    assert subtasks[..i + 1][..i] == subtasks[..i];
  }

  lemma {:induction false} DeclaredOnce(subtasks: seq<Subtask>, st: Subtask, dep: Id)
    requires st in subtasks && dep in st.dependsOn
    ensures Declarations(subtasks, dep, st.id) > 0
  {
    var init, last := subtasks[..|subtasks| - 1], subtasks[|subtasks| - 1];
    assert subtasks == init + [last];
    if st in init {
      DeclaredOnce(init, st, dep);
    } else {
      assert dep in multiset(last.dependsOn);
    }
  }

  lemma {:induction false} CountedHasLine(edges: seq<EdgeLine>, from: Id, to: Id)
    requires LinesBetween(edges, from, to) > 0
    ensures HasLine(edges, from, to)
  {
    var init, last := edges[..|edges| - 1], edges[|edges| - 1];
    assert edges == init + [last];
    if last.from == from && last.to == to {
      assert last in edges;
    } else {
      CountedHasLine(init, from, to);
      var e :| e in init && e.from == from && e.to == to;
      assert e in edges;
    }
  }

  method BuildEdges(subtasks: seq<Subtask>, nodes: seq<Node>) returns (edges: seq<EdgeLine>)
    ensures forall e :: e in edges ==> IsLine(subtasks, nodes, e)
    ensures LinePerDeclaration(subtasks, NodeMap(nodes).Keys, edges)
  {
    hide LinesBetween, Declarations, IsLine, NodeMap;
    var posMap := NodeMap(nodes);
    NothingDeclared(posMap.Keys);
    edges := [];
    for i := 0 to |subtasks|
      invariant forall e :: e in edges ==> IsLine(subtasks, nodes, e)
      invariant LinePerDeclaration(subtasks[..i], posMap.Keys, edges)
    {
      var s := subtasks[i];
      edges := SubtaskEdges(subtasks, nodes, posMap, s, edges);
      DeclarationsNext(subtasks, i);
    }
    assert subtasks[..|subtasks|] == subtasks;
  }

  lemma NothingDeclared(drawn: set<Id>)
    ensures forall subtasks: seq<Subtask> :: LinePerDeclaration(subtasks[..0], drawn, [])
  {
  }

  method SubtaskEdges(subtasks: seq<Subtask>, nodes: seq<Node>, posMap: map<Id, Node>, s: Subtask, edges0: seq<EdgeLine>)
    returns (edges: seq<EdgeLine>)
    requires s in subtasks && posMap == NodeMap(nodes)
    requires forall e :: e in edges0 ==> IsLine(subtasks, nodes, e)
    ensures forall e :: e in edges ==> IsLine(subtasks, nodes, e)
    ensures forall from, to :: LinesBetween(edges, from, to) == LinesBetween(edges0, from, to) +
              if to == s.id && from in posMap && to in posMap then multiset(s.dependsOn)[from] else 0
  {
    hide LinesBetween, NodeMap;
    NodeMapMembers(nodes);
    edges := edges0;
    for j := 0 to |s.dependsOn|
      invariant forall e :: e in edges ==> IsLine(subtasks, nodes, e)
      invariant forall from, to :: LinesBetween(edges, from, to) == LinesBetween(edges0, from, to) +
                  if to == s.id && from in posMap && to in posMap then multiset(s.dependsOn[..j])[from] else 0
    {
      var depId := s.dependsOn[j];
      assert s.dependsOn[..j + 1] == s.dependsOn[..j] + [depId];
      if depId in posMap && s.id in posMap {
        var line := Line(posMap[depId], posMap[s.id]);
        assert Joins(line, posMap[depId], posMap[s.id]) && IsLine(subtasks, nodes, line);
        LinesNext(edges, line);
        edges := edges + [line];
      }
    }
    assert s.dependsOn[..|s.dependsOn|] == s.dependsOn;
  }

  // ---------- the layout ----------

  // Every subtask drawn, no two nodes overlapping, in plan order down each column and in
  // the smallest area that holds them.
  ghost predicate GoodNodes(subtasks: seq<Subtask>, depth: map<Id, nat>, nodes: seq<Node>, width: int, height: int) {
    && EachOnce(subtasks, depth, nodes)
    && (forall j, k :: 0 <= j < k < |nodes| ==> Apart(nodes[j], nodes[k]))
    && (forall n :: n in nodes ==> Inside(n, width, height))
    && (subtasks != [] ==> TightBox(nodes, width, height))
    && (UniqueIds(subtasks) ==> InPlanOrder(subtasks, nodes))
  }

  ghost predicate GoodLayout(subtasks: seq<Subtask>, depth: map<Id, nat>, l: Layout) {
    && GoodNodes(subtasks, depth, l.nodes, l.width, l.height)
    && (forall e :: e in l.edges ==> IsLine(subtasks, l.nodes, e))
  }

  // Every dependency has a line, and as many as the plan declares it.
  ghost predicate AllDrawn(subtasks: seq<Subtask>, l: Layout) {
    && (forall st, dep :: st in subtasks && dep in st.dependsOn ==> HasLine(l.edges, dep, st.id))
    && forall from, to :: LinesBetween(l.edges, from, to) == Declarations(subtasks, from, to)
  }

  // A line runs left to right across a gap.
  predicate Forward(e: EdgeLine) {
    e.x1 + GAP_X <= e.x2
  }

  lemma LineRunsForward(subtasks: seq<Subtask>, depth: map<Id, nat>, nodes: seq<Node>, e: EdgeLine)
    requires EachOnce(subtasks, depth, nodes) && IsLine(subtasks, nodes, e)
    requires forall st :: st in subtasks ==> st.id in depth
    requires Rooted(Merged(subtasks), RootIds(subtasks), e.from)
    requires forall st :: st in subtasks ==> Shown(Merged(subtasks), RootIds(subtasks), st.id, depth[st.id])
    ensures Forward(e)
  {
    var g, roots := Merged(subtasks), RootIds(subtasks);
    MergedEdges(subtasks);
    hide Merged, RootIds, RealDepth, Deepest;
    var a, b :| a in nodes && b in nodes && Joins(e, a, b) &&
      exists st :: st in subtasks && st.id == e.to && e.from in st.dependsOn;
    assert Declares(subtasks, e.to, e.from);
    var da, db := depth[e.from], depth[e.to];
    RootedAbove(g, roots, e.to, e.from, da);
    DeepestIncreases(g, roots, e.to, e.from, db, da);
    assert db * 220 >= (da + 1) * 220;
  }

  lemma RootedAbove(g: Deps, roots: set<Id>, id: Id, dep: Id, d: nat)
    requires Edge(g, id, dep) && Deepest(g, roots, dep, d)
    ensures Rooted(g, roots, id)
  {
    DeeperIsReal(g, roots, id, dep, d);
  }

  method ComputeLayout(subtasks: seq<Subtask>) returns (l: Layout, ghost depth: map<Id, nat>)
    requires !RootedCycle(Merged(subtasks), RootIds(subtasks))
    ensures subtasks == [] ==> l == Layout([], [], 0, 0)
    ensures GoodLayout(subtasks, depth, l)
    ensures forall st :: st in subtasks ==>
              st.id in depth && Shown(Merged(subtasks), RootIds(subtasks), st.id, depth[st.id])
    ensures forall e :: e in l.edges && Rooted(Merged(subtasks), RootIds(subtasks), e.from) ==> Forward(e)
    ensures ClosedDependencies(subtasks) ==> AllDrawn(subtasks, l)
    ensures ClosedDependencies(subtasks) && !HasCycle(Merged(subtasks)) ==>
              && (forall st :: st in subtasks ==> LongestDepth(Merged(subtasks), RootIds(subtasks), st.id, depth[st.id]))
              && forall e :: e in l.edges ==> Forward(e)
  {
    hide GoodLayout, Merged, RootIds, Shown, LongestDepth, Rooted, AllDrawn, Forward, HasCycle, RootedCycle, NodeMap, HasLine;
    if |subtasks| == 0 {
      NothingToDraw();
      return Layout([], [], 0, 0), map[];
    }
    var depths := ComputeDepths(subtasks);
    depth := depths;
    l := Draw(subtasks, depths);
    RunsForward(subtasks, depth, l);
  }

  lemma NothingToDraw()
    ensures GoodLayout([], map[], Layout([], [], 0, 0)) && AllDrawn([], Layout([], [], 0, 0))
  {
  }

  method Draw(subtasks: seq<Subtask>, depth: map<Id, nat>) returns (l: Layout)
    requires forall st :: st in subtasks ==> st.id in depth
    ensures GoodLayout(subtasks, depth, l)
    ensures LinePerDeclaration(subtasks, NodeMap(l.nodes).Keys, l.edges)
  {
    hide Draws, GroupedBy, GoodNodes, LinePerDeclaration, NodeMap, Layer, IsLine;
    var layers := GroupByLayer(subtasks, depth);
    var maxLayer, maxPerLayer := Extent(layers);
    var nodes, cells := PositionNodes(layers, maxLayer, maxPerLayer);
    NodesAreGood(subtasks, depth, layers, maxLayer, maxPerLayer, nodes, cells);
    var edges := BuildEdges(subtasks, nodes);
    var width := PAD * 2 + (maxLayer + 1) * NODE_W + maxLayer * GAP_X;
    var height := PAD * 2 + maxPerLayer * NODE_H + (maxPerLayer - 1) * GAP_Y;
    l := Layout(nodes, edges, width, height);
  }

  method Extent(layers: Layers) returns (maxLayer: nat, maxPerLayer: nat)
    ensures forall d :: d in layers ==> d <= maxLayer && |layers[d]| <= maxPerLayer
    ensures maxLayer == 0 || maxLayer in layers
    ensures maxPerLayer == 1 || exists d :: d in layers && |layers[d]| == maxPerLayer
  {
    maxLayer := MaxOf(layers.Keys, 0);
    var sizes := set d | d in layers :: |layers[d]|;
    maxPerLayer := MaxOf(sizes, 1);
    assert forall d :: d in layers ==> |layers[d]| in sizes;
  }

  lemma NodesAreGood(subtasks: seq<Subtask>, depth: map<Id, nat>, layers: Layers, maxLayer: nat, maxPerLayer: nat,
                     nodes: seq<Node>, cells: seq<Cell>)
    requires forall st :: st in subtasks ==> st.id in depth
    requires GroupedBy(subtasks, depth, layers) && Draws(layers, maxPerLayer, nodes, cells)
    requires forall c :: InGrid(layers, c) ==> c in cells
    requires forall d :: d in layers ==> d <= maxLayer && |layers[d]| <= maxPerLayer
    requires maxLayer == 0 || maxLayer in layers
    requires maxPerLayer == 1 || exists d :: d in layers && |layers[d]| == maxPerLayer
    ensures GoodNodes(subtasks, depth, nodes, PAD * 2 + (maxLayer + 1) * NODE_W + maxLayer * GAP_X,
                      PAD * 2 + maxPerLayer * NODE_H + (maxPerLayer - 1) * GAP_Y)
  {
    if subtasks != [] {
      assert depth[subtasks[0].id] in layers;
      ExtentIsTight(layers, maxLayer, maxPerLayer, nodes, cells);
    }
    if UniqueIds(subtasks) {
      DrawnInOrder(subtasks, depth, layers, maxPerLayer, nodes, cells);
    }
    hide TightBox, Layer, InPlanOrder, UniqueIds, EachOnce, GroupedBy;
    DrawnOnce(subtasks, depth, layers, maxPerLayer, nodes, cells);
    NodesApart(layers, maxLayer, maxPerLayer, nodes, cells);
  }

  lemma NodesApart(layers: Layers, maxLayer: nat, maxPerLayer: nat, nodes: seq<Node>, cells: seq<Cell>)
    requires Draws(layers, maxPerLayer, nodes, cells)
    requires forall d :: d in layers ==> d <= maxLayer && |layers[d]| <= maxPerLayer
    ensures forall j, k :: 0 <= j < k < |nodes| ==> Apart(nodes[j], nodes[k])
    ensures forall n :: n in nodes ==>
              Inside(n, PAD * 2 + (maxLayer + 1) * NODE_W + maxLayer * GAP_X,
                     PAD * 2 + maxPerLayer * NODE_H + (maxPerLayer - 1) * GAP_Y)
  {
    forall k | 0 <= k < |nodes|
      ensures Inside(nodes[k], PAD * 2 + (maxLayer + 1) * NODE_W + maxLayer * GAP_X,
                     PAD * 2 + maxPerLayer * NODE_H + (maxPerLayer - 1) * GAP_Y)
    {
      CellsInside(layers, maxLayer, maxPerLayer, cells[k]);
    }
    forall j, k | 0 <= j < k < |nodes| ensures Apart(nodes[j], nodes[k]) {
      DifferentCellsApart(layers, maxPerLayer, cells[j], cells[k]);
    }
  }

  lemma RunsForward(subtasks: seq<Subtask>, depth: map<Id, nat>, l: Layout)
    requires GoodLayout(subtasks, depth, l)
    requires LinePerDeclaration(subtasks, NodeMap(l.nodes).Keys, l.edges)
    requires forall st :: st in subtasks ==>
               st.id in depth && Shown(Merged(subtasks), RootIds(subtasks), st.id, depth[st.id])
    requires ClosedDependencies(subtasks) && !HasCycle(Merged(subtasks)) ==>
               forall st :: st in subtasks ==> LongestDepth(Merged(subtasks), RootIds(subtasks), st.id, depth[st.id])
    ensures forall e :: e in l.edges && Rooted(Merged(subtasks), RootIds(subtasks), e.from) ==> Forward(e)
    ensures ClosedDependencies(subtasks) ==> AllDrawn(subtasks, l)
    ensures ClosedDependencies(subtasks) && !HasCycle(Merged(subtasks)) ==> forall e :: e in l.edges ==> Forward(e)
  {
    hide Merged, RootIds, Shown, LongestDepth, Rooted, Forward, HasCycle, NodeMap, HasLine, IsLine, EachOnce, ClosedDependencies;
    forall e | e in l.edges && Rooted(Merged(subtasks), RootIds(subtasks), e.from) ensures Forward(e) {
      LineRunsForward(subtasks, depth, l.nodes, e);
    }
    if ClosedDependencies(subtasks) {
      LinesAllDrawn(subtasks, depth, l);
      if !HasCycle(Merged(subtasks)) {
        forall e | e in l.edges ensures Rooted(Merged(subtasks), RootIds(subtasks), e.from) {
          LineIsRooted(subtasks, depth, l.nodes, e);
        }
      }
    }
  }

  lemma LinesAllDrawn(subtasks: seq<Subtask>, depth: map<Id, nat>, l: Layout)
    requires ClosedDependencies(subtasks) && EachOnce(subtasks, depth, l.nodes)
    requires LinePerDeclaration(subtasks, NodeMap(l.nodes).Keys, l.edges)
    ensures AllDrawn(subtasks, l)
  {
    hide NodeMap, ClosedDependencies, EachOnce, HasLine;
    forall from, to ensures LinesBetween(l.edges, from, to) == Declarations(subtasks, from, to) {
      if Declarations(subtasks, from, to) > 0 {
        var st := Declarer(subtasks, from, to);
        DependencyDrawn(subtasks, depth, l.nodes, st, from);
      }
    }
    forall st, dep | st in subtasks && dep in st.dependsOn ensures HasLine(l.edges, dep, st.id) {
      DeclaredOnce(subtasks, st, dep);
      CountedHasLine(l.edges, dep, st.id);
    }
  }

  lemma {:induction false} Declarer(subtasks: seq<Subtask>, from: Id, to: Id) returns (st: Subtask)
    requires Declarations(subtasks, from, to) > 0
    ensures st in subtasks && st.id == to && from in st.dependsOn
  {
    var init, last := subtasks[..|subtasks| - 1], subtasks[|subtasks| - 1];
    assert subtasks == init + [last];
    if last.id == to && from in multiset(last.dependsOn) {
      st := last;
    } else {
      st := Declarer(init, from, to);
    }
  }

  lemma LineIsRooted(subtasks: seq<Subtask>, depth: map<Id, nat>, nodes: seq<Node>, e: EdgeLine)
    requires EachOnce(subtasks, depth, nodes) && IsLine(subtasks, nodes, e)
    requires forall st :: st in subtasks ==>
               st.id in depth && LongestDepth(Merged(subtasks), RootIds(subtasks), st.id, depth[st.id])
    ensures Rooted(Merged(subtasks), RootIds(subtasks), e.from)
  {
    hide Merged, RootIds, RealDepth;
    var a, b :| a in nodes && b in nodes && Joins(e, a, b) &&
      exists st :: st in subtasks && st.id == e.to && e.from in st.dependsOn;
    assert LongestDepth(Merged(subtasks), RootIds(subtasks), a.subtask.id, depth[a.subtask.id]);
  }

  lemma DependencyDrawn(subtasks: seq<Subtask>, depth: map<Id, nat>, nodes: seq<Node>, st: Subtask, dep: Id)
    requires ClosedDependencies(subtasks) && EachOnce(subtasks, depth, nodes)
    requires st in subtasks && dep in st.dependsOn
    ensures dep in NodeMap(nodes) && st.id in NodeMap(nodes)
  {
    NodeMapMembers(nodes);
    var k :| 0 <= k < |subtasks| && subtasks[k] == st;
    assert HasId(subtasks, dep);
    var j :| 0 <= j < |subtasks| && subtasks[j].id == dep;
    assert subtasks[j] in subtasks;
    var n :| n in nodes && n.subtask == subtasks[j];
    var m :| m in nodes && m.subtask == st;
  }
}
