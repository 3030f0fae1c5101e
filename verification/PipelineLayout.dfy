/**
 The placement of a pipeline graph (src/spl/pipeline_widget.py:396-446): columns
 by layer, nodes stacked in each column, the size of the stage, and the end
 points and bends of the edges.
 */
module PipelineLayout {
  import opened Common
  import opened PipelineLayers
  import opened PipelineModel

  const PORT_Y_OFFSET: nat := 76
  const LAYER_GAP: nat := 166
  const ROW_GAP: nat := 72
  const STAGE_PADDING: nat := 72

  // ------------------------------------------------------------------------- ports

  /** The row of the first visible port with this name, or row 0. */
  method PortIndex(ports: seq<Port>, name: string) returns (index: nat)
    ensures index == Row(Visible(ports), name)
  {
    hide Visible;
    var visible := Visible(ports);
    for i := 0 to |visible|
      invariant Row(visible, name) == if HasPort(visible[i..], name) then i + Row(visible[i..], name) else 0
    {
      if visible[i].name == name {
        assert visible[i..][0].name == name;
        return i;
      }
      RowOfRest(visible[i..], name);
      assert visible[i..][1..] == visible[i + 1..];
    }
    assert visible[|visible|..] == [];
    return 0;
  }

  function Row(visible: seq<Port>, name: string): (r: nat)
    ensures HasPort(visible, name) ==> r < |visible| && visible[r].name == name
    ensures !HasPort(visible, name) ==> r == 0
  {
    if visible == [] || visible[0].name == name || !HasPort(visible, name) then 0
    else
      assert HasPort(visible[1..], name) by {
        var i :| 0 <= i < |visible| && visible[i].name == name;
        assert visible[1..][i - 1].name == name;
      }
      1 + Row(visible[1..], name)
  }

  lemma RowOfRest(visible: seq<Port>, name: string)
    requires visible != [] && visible[0].name != name
    ensures HasPort(visible, name) <==> HasPort(visible[1..], name)
    ensures HasPort(visible, name) ==> Row(visible, name) == 1 + Row(visible[1..], name)
  {
    if HasPort(visible[1..], name) {
      var i :| 0 <= i < |visible| - 1 && visible[1..][i].name == name;
      assert visible[i + 1].name == name;
    }
    if HasPort(visible, name) {
      var i :| 0 <= i < |visible| && visible[i].name == name;
      assert visible[1..][i - 1].name == name;
    }
  }

  /** Where the edge of a port starts or ends, measured from the top of its node. */
  function PortY(ports: seq<Port>, name: string): nat { PORT_Y_OFFSET + Row(Visible(ports), name) * PORT_ROW_HEIGHT }

  /** Every port row lies inside the box, whichever ports the node ends up with. */
  lemma PortRowsFit(n: Node, name: string)
    requires n.height == NodeHeight(n.inputs, n.outputs)
    ensures PortY(n.inputs, name) < n.height && PortY(n.outputs, name) < n.height
  {
    assert Row(Visible(n.inputs), name) <= Rows(n.inputs, n.outputs) - 1;
    assert Row(Visible(n.outputs), name) <= Rows(n.inputs, n.outputs) - 1;
  }

  /** Different visible ports have different rows. */
  lemma PortRowsDiffer(ports: seq<Port>, x: string, y: string)
    requires HasPort(Visible(ports), x) && HasPort(Visible(ports), y) && x != y
    ensures PortY(ports, x) != PortY(ports, y)
  {
  }

  // ----------------------------------------------------------------------- columns

  /** The height at which the next node of column `layer` goes, after the first `i` nodes. */
  function ColumnTop(heights: seq<nat>, layerOf: seq<nat>, layer: nat, i: nat): nat
    requires i <= |heights| == |layerOf|
  {
    if i == 0 then STAGE_PADDING
    else ColumnTop(heights, layerOf, layer, i - 1) + if layerOf[i - 1] == layer then heights[i - 1] + ROW_GAP else 0
  }

  lemma {:induction false} ColumnGrows(heights: seq<nat>, layerOf: seq<nat>, layer: nat, i: nat, j: nat)
    requires i <= j <= |heights| == |layerOf|
    ensures STAGE_PADDING <= ColumnTop(heights, layerOf, layer, i) <= ColumnTop(heights, layerOf, layer, j)
    ensures (forall k | i <= k < j :: layerOf[k] != layer) ==>
      ColumnTop(heights, layerOf, layer, i) == ColumnTop(heights, layerOf, layer, j)
    decreases j
  {
    if i < j { ColumnGrows(heights, layerOf, layer, i, j - 1); }
    else if i > 0 { ColumnGrows(heights, layerOf, layer, i - 1, j - 1); }
  }

  function ColumnX(layer: nat): nat { STAGE_PADDING + layer * (NODE_WIDTH + LAYER_GAP) }

  function Heights(nodes: seq<Node>): (r: seq<nat>)
    ensures |r| == |nodes| && forall i | 0 <= i < |r| :: r[i] == nodes[i].height
  {
    seq(|nodes|, i requires 0 <= i < |nodes| => nodes[i].height)
  }

  /** Node `i` is where its layer and the nodes above it put it. */
  predicate Positioned(nodes: seq<Node>, heights: seq<nat>, layerOf: seq<nat>, i: nat)
    requires i < |nodes| == |heights| == |layerOf|
  {
    nodes[i].x == ColumnX(layerOf[i]) && nodes[i].y == ColumnTop(heights, layerOf, layerOf[i], i)
  }

  predicate AllPositioned(nodes: seq<Node>, layerOf: seq<nat>) {
    |nodes| == |layerOf| && forall i | 0 <= i < |nodes| :: Positioned(nodes, Heights(nodes), layerOf, i)
  }

  /** One box ends at least a gap before the other begins, across or down. */
  predicate Separate(n: Node, m: Node) {
    || n.x + n.width + LAYER_GAP <= m.x || m.x + m.width + LAYER_GAP <= n.x
    || n.y + n.height + ROW_GAP <= m.y || m.y + m.height + ROW_GAP <= n.y
  }

  lemma ColumnsApart(a: nat, b: nat)
    requires a < b
    ensures ColumnX(a) + NODE_WIDTH + LAYER_GAP <= ColumnX(b)
  {
    var w := NODE_WIDTH + LAYER_GAP;
    assert b * w == (a + 1) * w + (b - a - 1) * w;
  }

  /** Positioned nodes never overlap. */
  lemma PositionedSeparate(nodes: seq<Node>, layerOf: seq<nat>, i: nat, j: nat)
    requires AllPositioned(nodes, layerOf) && Widths(nodes) && i < j < |nodes|
    ensures Separate(nodes[i], nodes[j])
  {
    assert Positioned(nodes, Heights(nodes), layerOf, i) && Positioned(nodes, Heights(nodes), layerOf, j);
    if layerOf[i] < layerOf[j] { ColumnsApart(layerOf[i], layerOf[j]); }
    else if layerOf[j] < layerOf[i] { ColumnsApart(layerOf[j], layerOf[i]); }
    else { ColumnGrows(Heights(nodes), layerOf, layerOf[i], i + 1, j); }
  }

  // ------------------------------------------------------------------------- placing

  /** The nodes of one layer, in order. */
  predicate IsGroup(group: seq<nat>, layerOf: seq<nat>, n: nat, layer: nat) {
    && n <= |layerOf|
    && (forall p | 0 <= p < |group| :: group[p] < n && layerOf[group[p]] == layer)
    && (forall p, q | 0 <= p < q < |group| :: group[p] < group[q])
    && (forall i | 0 <= i < n && layerOf[i] == layer :: i in group)
  }

  predicate Grouped(groups: map<nat, seq<nat>>, layerOf: seq<nat>, n: nat) {
    && n <= |layerOf|
    && (forall layer | layer in groups :: IsGroup(groups[layer], layerOf, n, layer))
    && (forall i | 0 <= i < n :: layerOf[i] in groups)
  }

  lemma GroupAppends(group: seq<nat>, layerOf: seq<nat>, n: nat)
    requires n < |layerOf| && IsGroup(group, layerOf, n, layerOf[n])
    ensures IsGroup(group + [n], layerOf, n + 1, layerOf[n])
  {
    var after := group + [n];
    forall i | 0 <= i < n + 1 && layerOf[i] == layerOf[n] ensures i in after {
      if i < n { assert i in group; } else { assert after[|group|] == n; }
    }
  }

  lemma GroupStays(group: seq<nat>, layerOf: seq<nat>, n: nat, layer: nat)
    requires n < |layerOf| && IsGroup(group, layerOf, n, layer) && layer != layerOf[n]
    ensures IsGroup(group, layerOf, n + 1, layer)
  {
  }

  lemma EmptyGroup(groups: map<nat, seq<nat>>, layerOf: seq<nat>, n: nat, layer: nat)
    requires Grouped(groups, layerOf, n) && layer !in groups
    ensures IsGroup([], layerOf, n, layer)
  {
  }

  lemma GroupGrows(groups: map<nat, seq<nat>>, layerOf: seq<nat>, n: nat)
    requires n < |layerOf| && Grouped(groups, layerOf, n)
    ensures var layer := layerOf[n];
      Grouped(groups[layer := (if layer in groups then groups[layer] else []) + [n]], layerOf, n + 1)
  {
    var mine := layerOf[n];
    if mine !in groups { EmptyGroup(groups, layerOf, n, mine); }
    hide IsGroup;
    var group := if mine in groups then groups[mine] else [];
    GroupAppends(group, layerOf, n);
    var after := groups[mine := group + [n]];
    forall layer | layer in after ensures IsGroup(after[layer], layerOf, n + 1, layer) {
      if layer != mine { GroupStays(groups[layer], layerOf, n, layer); }
    }
  }

  method GroupByLayer(layerOf: seq<nat>) returns (groups: map<nat, seq<nat>>)
    ensures Grouped(groups, layerOf, |layerOf|)
  {
    hide Grouped, IsGroup;
    groups := map[];
    NothingGrouped(layerOf);
    for n := 0 to |layerOf|
      invariant Grouped(groups, layerOf, n)
    {
      GroupGrows(groups, layerOf, n);
      groups := groups[layerOf[n] := (if layerOf[n] in groups then groups[layerOf[n]] else []) + [n]];
    }
  }

  lemma NothingGrouped(layerOf: seq<nat>)
    ensures Grouped(map[], layerOf, 0)
  {
  }

  /** No node of the layer lies between two neighbours of its group. */
  lemma GroupNeighbours(group: seq<nat>, layerOf: seq<nat>, layer: nat, p: nat)
    requires IsGroup(group, layerOf, |layerOf|, layer) && p <= |group|
    ensures forall k | (if p == 0 then 0 else group[p - 1] + 1) <= k < (if p < |group| then group[p] else |layerOf|) ::
      layerOf[k] != layer
  {
    forall k | (if p == 0 then 0 else group[p - 1] + 1) <= k < (if p < |group| then group[p] else |layerOf|)
      ensures layerOf[k] != layer
    {
      forall q | 0 <= q < |group| ensures group[q] != k {
        assert p == 0 || q >= p - 1 || group[q] < group[p - 1];
        assert q <= p || group[p] < group[q];
      }
    }
  }

  /** Only positions differ. */
  predicate Repositioned(before: seq<Node>, after: seq<Node>) {
    |before| == |after| && forall i | 0 <= i < |before| :: after[i] == before[i].(x := after[i].x, y := after[i].y)
  }

  function RightEnd(n: Node): nat { n.x + n.width + STAGE_PADDING }

  function BottomEnd(n: Node): nat { n.y + n.height + STAGE_PADDING }

  predicate Within(n: Node, right: nat, bottom: nat) {
    STAGE_PADDING <= n.x && STAGE_PADDING <= n.y && RightEnd(n) <= right && BottomEnd(n) <= bottom
  }

  /** How far down the column the node at position `p` of its group goes. */
  function GroupTop(heights: seq<nat>, layerOf: seq<nat>, layer: nat, group: seq<nat>, p: nat): nat
    requires |heights| == |layerOf| && IsGroup(group, layerOf, |layerOf|, layer) && p <= |group|
  {
    ColumnTop(heights, layerOf, layer, if p < |group| then group[p] else |layerOf|)
  }

  lemma GroupTopSteps(heights: seq<nat>, layerOf: seq<nat>, layer: nat, group: seq<nat>, p: nat)
    requires |heights| == |layerOf| && IsGroup(group, layerOf, |layerOf|, layer) && p <= |group|
    ensures p == 0 ==> GroupTop(heights, layerOf, layer, group, p) == STAGE_PADDING
    ensures p < |group| ==>
      GroupTop(heights, layerOf, layer, group, p + 1) == GroupTop(heights, layerOf, layer, group, p)
      + heights[group[p]] + ROW_GAP
  {
    if p == 0 {
      GroupNeighbours(group, layerOf, layer, 0);
      ColumnGrows(heights, layerOf, layer, 0, if p < |group| then group[p] else |layerOf|);
    }
    if p < |group| {
      GroupNeighbours(group, layerOf, layer, p + 1);
      var next := if p + 1 < |group| then group[p + 1] else |layerOf|;
      assert group[p] < next;
      ColumnGrows(heights, layerOf, layer, group[p] + 1, next);
    }
  }

  const LEAST_RIGHT: nat := STAGE_PADDING + NODE_WIDTH
  const LEAST_BOTTOM: nat := STAGE_PADDING + 160

  /** The stage is no larger than its least size or some placed box with its margin needs. */
  ghost predicate Tight(nodes: seq<Node>, placed: set<nat>, right: nat, bottom: nat) {
    && LEAST_RIGHT <= right && LEAST_BOTTOM <= bottom
    && (right == LEAST_RIGHT || exists i :: i in placed && i < |nodes| && RightEnd(nodes[i]) == right)
    && (bottom == LEAST_BOTTOM || exists i :: i in placed && i < |nodes| && BottomEnd(nodes[i]) == bottom)
  }

  /** The first `p` nodes of the group are in their places, the others are where they were. */
  ghost predicate Stacked(before: seq<Node>, nodes: seq<Node>, layerOf: seq<nat>, layer: nat, group: seq<nat>, p: nat,
                          right: nat, bottom: nat)
    requires |before| == |layerOf| && IsGroup(group, layerOf, |layerOf|, layer) && p <= |group|
  {
    && Repositioned(before, nodes)
    && (forall q | 0 <= q < p ::
         At(nodes, layerOf, layer, group, q, Heights(before)) && Within(nodes[group[q]], right, bottom))
    && (forall i | 0 <= i < |nodes| && i !in group[..p] :: nodes[i] == before[i])
  }

  lemma StackedStep(before: seq<Node>, nodes: seq<Node>, layerOf: seq<nat>, layer: nat, group: seq<nat>, p: nat,
                    right: nat, bottom: nat, n: Node)
    requires |before| == |layerOf| && IsGroup(group, layerOf, |layerOf|, layer) && p < |group|
    requires Stacked(before, nodes, layerOf, layer, group, p, right, bottom)
    requires n == nodes[group[p]].(x := ColumnX(layer), y := GroupTop(Heights(before), layerOf, layer, group, p))
    ensures Stacked(before, nodes[group[p] := n], layerOf, layer, group, p
      + 1, Max(right, RightEnd(n)), Max(bottom, BottomEnd(n)))
  {
    hide ColumnTop, GroupTop;
    ColumnTopLow(Heights(before), layerOf, layer, group, p);
    var after := nodes[group[p] := n];
    assert group[..p + 1] == group[..p] + [group[p]];
    forall q | 0 <= q < p + 1
      ensures At(after, layerOf, layer, group, q, Heights(before))
      ensures Within(after[group[q]], Max(right, RightEnd(n)), Max(bottom, BottomEnd(n)))
    {
      if q < p { assert group[q] < group[p] && At(nodes, layerOf, layer, group, q, Heights(before)); }
    }
  }

  lemma TightStep(nodes: seq<Node>, placed: set<nat>, i: nat, n: Node, right: nat, bottom: nat)
    requires i < |nodes| && i !in placed && Tight(nodes, placed, right, bottom)
    ensures Tight(nodes[i := n], placed + {i}, Max(right, RightEnd(n)), Max(bottom, BottomEnd(n)))
  {
    var after := nodes[i := n];
    assert after[i] == n;
    if right != LEAST_RIGHT {
      var j :| j in placed && j < |nodes| && RightEnd(nodes[j]) == right;
      assert RightEnd(after[j]) == right;
    }
    if bottom != LEAST_BOTTOM {
      var j :| j in placed && j < |nodes| && BottomEnd(nodes[j]) == bottom;
      assert BottomEnd(after[j]) == bottom;
    }
  }

  function Indices(group: seq<nat>): set<nat> { set i | i in group }

  lemma NextIndex(group: seq<nat>, layerOf: seq<nat>, layer: nat, p: nat, placed: set<nat>)
    requires IsGroup(group, layerOf, |layerOf|, layer) && p < |group|
    requires forall i | i in placed && i < |layerOf| :: layerOf[i] != layer
    ensures Indices(group[..p + 1]) == Indices(group[..p]) + {group[p]}
    ensures group[p] !in placed + Indices(group[..p])
  {
    assert group[..p + 1] == group[..p] + [group[p]];
    forall q | 0 <= q < p ensures group[..p][q] != group[p] { assert group[q] < group[p]; }
  }

  /** Stack the nodes of one layer and widen the stage for them. */
  method PlaceColumn(before: seq<Node>, layer: nat, group: seq<nat>, ghost layerOf: seq<nat>, ghost placed: set<nat>,
                     right0: nat, bottom0: nat)
    returns (nodes: seq<Node>, right: nat, bottom: nat)
    requires |before| == |layerOf| && IsGroup(group, layerOf, |layerOf|, layer)
    requires Tight(before, placed, right0, bottom0) && forall i | i in placed && i < |layerOf| :: layerOf[i] != layer
    ensures Stacked(before, nodes, layerOf, layer, group, |group|, right, bottom)
    ensures Tight(nodes, placed + Indices(group), right, bottom) && right0 <= right && bottom0 <= bottom
  {
    hide GroupTop, IsGroup, Stacked, Tight;
    nodes, right, bottom := before, right0, bottom0;
    var y := STAGE_PADDING;
    NothingStacked(before, layerOf, layer, group, right, bottom);
    GroupTopSteps(Heights(before), layerOf, layer, group, 0);
    assert placed + Indices(group[..0]) == placed;
    for p := 0 to |group|
      invariant y == GroupTop(Heights(before), layerOf, layer, group, p)
      invariant Stacked(before, nodes, layerOf, layer, group, p, right, bottom) && right0 <= right && bottom0 <= bottom
      invariant Tight(nodes, placed + Indices(group[..p]), right, bottom)
    {
      var i := group[p];
      NextInRange(before, nodes, layerOf, layer, group, p, right, bottom);
      var n := nodes[i].(x := STAGE_PADDING + layer * (NODE_WIDTH + LAYER_GAP), y := y);
      GroupTopSteps(Heights(before), layerOf, layer, group, p);
      StackedStep(before, nodes, layerOf, layer, group, p, right, bottom, n);
      NextIndex(group, layerOf, layer, p, placed);
      TightStep(nodes, placed + Indices(group[..p]), i, n, right, bottom);
      assert placed + Indices(group[..p + 1]) == placed + Indices(group[..p]) + {i};
      nodes := nodes[i := n];
      y := y + n.height + ROW_GAP;
      right := Max(right, n.x + n.width + STAGE_PADDING);
      bottom := Max(bottom, n.y + n.height + STAGE_PADDING);
    }
    assert group[..|group|] == group;
  }

  lemma NothingStacked(before: seq<Node>, layerOf: seq<nat>, layer: nat, group: seq<nat>, right: nat, bottom: nat)
    requires |before| == |layerOf| && IsGroup(group, layerOf, |layerOf|, layer)
    ensures Stacked(before, before, layerOf, layer, group, 0, right, bottom)
  {
  }

  lemma NextInRange(before: seq<Node>, nodes: seq<Node>, layerOf: seq<nat>, layer: nat, group: seq<nat>, p: nat,
                    right: nat, bottom: nat)
    requires |before| == |layerOf| && IsGroup(group, layerOf, |layerOf|, layer) && p < |group|
    requires Stacked(before, nodes, layerOf, layer, group, p, right, bottom)
    ensures |nodes| == |before| && group[p] < |nodes| && nodes[group[p]].height == Heights(before)[group[p]]
  {
    assert group[p] !in group[..p];
  }

  /** The node at position `q` of the group is at its place in the column. */
  predicate At(nodes: seq<Node>, layerOf: seq<nat>, layer: nat, group: seq<nat>, q: nat, heights: seq<nat>)
    requires |nodes| == |layerOf| == |heights| && IsGroup(group, layerOf, |layerOf|, layer) && q < |group|
  {
    nodes[group[q]].x == ColumnX(layer) && nodes[group[q]].y == GroupTop(heights, layerOf, layer, group, q)
  }

  lemma ColumnTopLow(heights: seq<nat>, layerOf: seq<nat>, layer: nat, group: seq<nat>, p: nat)
    requires |heights| == |layerOf| && IsGroup(group, layerOf, |layerOf|, layer) && p <= |group|
    ensures GroupTop(heights, layerOf, layer, group, p) >= STAGE_PADDING
  {
    ColumnGrows(heights, layerOf, layer, 0, if p < |group| then group[p] else |layerOf|);
  }

  lemma AtMeansPositioned(nodes: seq<Node>, layerOf: seq<nat>, layer: nat, group: seq<nat>, heights: seq<nat>)
    requires |nodes| == |layerOf| == |heights| && IsGroup(group, layerOf, |layerOf|, layer)
    requires forall q | 0 <= q < |group| :: At(nodes, layerOf, layer, group, q, heights)
    ensures forall i | 0 <= i < |nodes| && layerOf[i] == layer :: Positioned(nodes, heights, layerOf, i)
  {
    forall i | 0 <= i < |nodes| && layerOf[i] == layer ensures Positioned(nodes, heights, layerOf, i) {
      var q :| 0 <= q < |group| && group[q] == i;
      assert At(nodes, layerOf, layer, group, q, heights);
    }
  }

  /** The layers in `done` are placed inside the stage. */
  ghost predicate LayersDone(before: seq<Node>, nodes: seq<Node>, layerOf: seq<nat>, done: set<nat>, right: nat,
                             bottom: nat) {
    && |before| == |layerOf| && Repositioned(before, nodes)
    && forall i | 0 <= i < |nodes| && layerOf[i] in done ::
         Positioned(nodes, Heights(before), layerOf, i) && Within(nodes[i], right, bottom)
  }

  function Members(layerOf: seq<nat>, done: set<nat>): set<nat> { set i: nat | i < |layerOf| && layerOf[i] in done }

  lemma LayerStep(first: seq<Node>, before: seq<Node>, nodes: seq<Node>, layerOf: seq<nat>, done: set<nat>, layer: nat,
                  group: seq<nat>,
                  right0: nat, bottom0: nat, right: nat, bottom: nat)
    requires LayersDone(first, before, layerOf, done, right0, bottom0) && layer !in done && right0 <= right
    requires bottom0 <= bottom
    requires IsGroup(group, layerOf, |layerOf|, layer)
    requires Stacked(before, nodes, layerOf, layer, group, |group|, right, bottom)
    ensures LayersDone(first, nodes, layerOf, done + {layer}, right, bottom)
  {
    hide ColumnTop, GroupTop;
    assert Heights(first) == Heights(before);
    assert group[..|group|] == group;
    AtMeansPositioned(nodes, layerOf, layer, group, Heights(before));
    forall i | 0 <= i < |nodes| && layerOf[i] in done + {layer}
      ensures Positioned(nodes, Heights(first), layerOf, i) && Within(nodes[i], right, bottom)
    {
      if layerOf[i] == layer { var q :| 0 <= q < |group| && group[q] == i; }
      else { assert nodes[i] == before[i] && Positioned(before, Heights(first), layerOf, i); }
    }
  }

  lemma MembersGrow(layerOf: seq<nat>, done: set<nat>, layer: nat, group: seq<nat>)
    requires IsGroup(group, layerOf, |layerOf|, layer)
    ensures Members(layerOf, done + {layer}) == Members(layerOf, done) + Indices(group)
  {
  }

  lemma {:induction false} LeastExists(layers: set<nat>)
    requires layers != {}
    ensures exists layer :: IsLeast(layers, layer)
  {
    var layer :| layer in layers;
    if layers == {layer} { assert IsLeast(layers, layer); }
    else {
      LeastExists(layers - {layer});
      var least :| IsLeast(layers - {layer}, least);
      var m := if layer < least then layer else least;
      forall k | k in layers ensures m <= k {
        if k != layer { assert k in layers - {layer}; }
      }
      assert IsLeast(layers, m);
    }
  }

  predicate IsLeast(layers: set<nat>, layer: nat) { layer in layers && forall k | k in layers :: layer <= k }

  /** Place the layers from left to right. */
  method PlaceNodes(before: seq<Node>, layerOf: seq<nat>) returns (nodes: seq<Node>, right: nat, bottom: nat)
    requires |before| == |layerOf|
    ensures Repositioned(before, nodes) && AllPositioned(nodes, layerOf)
    ensures forall i | 0 <= i < |nodes| :: Within(nodes[i], right, bottom)
    ensures Tight(nodes, Members(layerOf, Layers(layerOf)), right, bottom)
  {
    hide Grouped, IsGroup, LayersDone, Stacked, Tight, Members;
    var groups := GroupByLayer(layerOf);
    GroupedLayers(groups, layerOf);
    nodes, right, bottom := before, LEAST_RIGHT, LEAST_BOTTOM;
    var rest := groups.Keys;
    ghost var done := {};
    NoLayersDone(before, layerOf, right, bottom);
    while rest != {}
      invariant rest <= groups.Keys && done == groups.Keys - rest
      invariant LayersDone(before, nodes, layerOf, done, right, bottom)
      invariant Tight(nodes, Members(layerOf, done), right, bottom)
      decreases |rest|
    {
      LeastExists(rest);
      var layer :| layer in rest && IsLeast(rest, layer);
      ghost var nodes0, right0, bottom0 := nodes, right, bottom;
      LayerUnplaced(before, nodes, layerOf, done, layer, right, bottom);
      nodes, right, bottom := PlaceColumn(nodes, layer, groups[layer], layerOf, Members(layerOf, done), right, bottom);
      LayerStep(before, nodes0, nodes, layerOf, done, layer, groups[layer], right0, bottom0, right, bottom);
      MembersGrow(layerOf, done, layer, groups[layer]);
      rest, done := rest - {layer}, done + {layer};
    }
    AllLayersDone(before, nodes, layerOf, done, right, bottom);
  }

  function Layers(layerOf: seq<nat>): set<nat> { set i | 0 <= i < |layerOf| :: layerOf[i] }

  lemma GroupedLayers(groups: map<nat, seq<nat>>, layerOf: seq<nat>)
    requires Grouped(groups, layerOf, |layerOf|)
    ensures Layers(layerOf) <= groups.Keys
    ensures forall layer | layer in groups :: IsGroup(groups[layer], layerOf, |layerOf|, layer)
  {
  }

  lemma NoLayersDone(before: seq<Node>, layerOf: seq<nat>, right: nat, bottom: nat)
    requires |before| == |layerOf| && right == LEAST_RIGHT && bottom == LEAST_BOTTOM
    ensures LayersDone(before, before, layerOf, {}, right, bottom) && Tight(before, Members(layerOf, {}), right, bottom)
  {
  }

  lemma LayerUnplaced(before: seq<Node>, nodes: seq<Node>, layerOf: seq<nat>, done: set<nat>, layer: nat, right: nat,
                      bottom: nat)
    requires LayersDone(before, nodes, layerOf, done, right, bottom) && layer !in done
    ensures |nodes| == |layerOf| && forall i | i in Members(layerOf, done) && i < |layerOf| :: layerOf[i] != layer
  {
  }

  lemma AllLayersDone(before: seq<Node>, nodes: seq<Node>, layerOf: seq<nat>, done: set<nat>, right: nat, bottom: nat)
    requires LayersDone(before, nodes, layerOf, done, right, bottom) && Layers(layerOf) <= done
    requires Tight(nodes, Members(layerOf, done), right, bottom)
    ensures Repositioned(before, nodes) && AllPositioned(nodes, layerOf)
    ensures forall i | 0 <= i < |nodes| :: Within(nodes[i], right, bottom)
    ensures Tight(nodes, Members(layerOf, Layers(layerOf)), right, bottom)
  {
    assert Heights(before) == Heights(nodes);
    assert forall i | 0 <= i < |layerOf| :: layerOf[i] in Layers(layerOf);
    assert Members(layerOf, done) == Members(layerOf, Layers(layerOf));
  }

  // --------------------------------------------------------------------------- edges

  datatype Edge = Edge(startX: nat, startY: nat, midX: nat, endY: nat, endX: nat)

  /** Python's `round` of half of `n`: a tie goes to the even neighbour. */
  function RoundHalf(n: nat): nat { if n % 4 == 3 then (n + 1) / 2 else n / 2 }

  /** The edge leaves node `s` on its right side and enters node `t` on its left side, each in the row of its port. */
  predicate Routed(nodes: seq<Node>, l: Link, e: Edge, s: nat, t: nat) {
    && s < |nodes| && t < |nodes| && nodes[s].id == l.sourceNodeId && nodes[t].id == l.targetNodeId
    && e.startX == nodes[s].x + nodes[s].width && e.startY == nodes[s].y + PortY(nodes[s].outputs, l.sourcePort)
    && e.endX == nodes[t].x && e.endY == nodes[t].y + PortY(nodes[t].inputs, l.targetPort)
    && e.midX == Max(e.startX + 62, RoundHalf(e.startX + e.endX))
  }

  /** Both ends of the edge touch their boxes; if it runs to a later layer it bends in the gap between the columns. */
  predicate Fits(nodes: seq<Node>, layerOf: seq<nat>, e: Edge, s: nat, t: nat)
    requires s < |nodes| == |layerOf| && t < |nodes|
  {
    && nodes[s].y <= e.startY < nodes[s].y + nodes[s].height && nodes[t].y <= e.endY < nodes[t].y + nodes[t].height
    && (layerOf[s] < layerOf[t] ==> e.startX + 62 <= e.midX && e.midX + 62 <= e.endX)
  }

  lemma RoutedFits(nodes: seq<Node>, layerOf: seq<nat>, l: Link, e: Edge, s: nat, t: nat)
    requires AllPositioned(nodes, layerOf) && Widths(nodes) && Routed(nodes, l, e, s, t)
    requires nodes[s].height == NodeHeight(nodes[s].inputs, nodes[s].outputs)
    requires nodes[t].height == NodeHeight(nodes[t].inputs, nodes[t].outputs)
    ensures Fits(nodes, layerOf, e, s, t)
  {
    PortRowsFit(nodes[s], l.sourcePort);
    PortRowsFit(nodes[t], l.targetPort);
    if layerOf[s] < layerOf[t] {
      assert Positioned(nodes, Heights(nodes), layerOf, s) && Positioned(nodes, Heights(nodes), layerOf, t);
      ColumnsApart(layerOf[s], layerOf[t]);
    }
  }

  /** `node_by_id`. */
  method IndexById(nodes: seq<Node>) returns (byId: map<NodeId, nat>)
    requires UniqueIds(nodes)
    ensures byId.Keys == Ids(nodes) && forall i | 0 <= i < |nodes| :: nodes[i].id in byId && byId[nodes[i].id] == i
  {
    byId := map[];
    for i := 0 to |nodes|
      invariant byId.Keys == Ids(nodes[..i])
      invariant forall j | 0 <= j < i :: nodes[j].id in byId && byId[nodes[j].id] == j
    {
      byId := byId[nodes[i].id := i];
      assert nodes[..i + 1] == nodes[..i] + [nodes[i]];
      IdsAppend(nodes[..i], nodes[i]);
    }
    assert nodes[..|nodes|] == nodes;
  }

  lemma IdsAppend(nodes: seq<Node>, n: Node)
    ensures Ids(nodes + [n]) == Ids(nodes) + {n.id}
  {
    var all := nodes + [n];
    forall id | id in Ids(nodes) + {n.id} ensures id in Ids(all) {
      if id == n.id { assert all[|nodes|].id == id; }
      else { var i :| 0 <= i < |nodes| && nodes[i].id == id; assert all[i].id == id; }
    }
  }

  /** The path of one link between nodes `s` and `t`. */
  method RouteEdge(nodes: seq<Node>, l: Link, s: nat, t: nat) returns (e: Edge)
    requires s < |nodes| && t < |nodes| && nodes[s].id == l.sourceNodeId && nodes[t].id == l.targetNodeId
    ensures Routed(nodes, l, e, s, t)
  {
    var sourceIndex := PortIndex(nodes[s].outputs, l.sourcePort);
    var targetIndex := PortIndex(nodes[t].inputs, l.targetPort);
    var startX := nodes[s].x + nodes[s].width;
    var startY := nodes[s].y + PORT_Y_OFFSET + sourceIndex * PORT_ROW_HEIGHT;
    var endX := nodes[t].x;
    var endY := nodes[t].y + PORT_Y_OFFSET + targetIndex * PORT_ROW_HEIGHT;
    e := Edge(startX, startY, Max(startX + 62, RoundHalf(startX + endX)), endY, endX);
  }

  /** The path of a link: none if an end is missing, otherwise routed between the nodes with its ids. */
  ghost predicate PathOf(nodes: seq<Node>, l: Link, path: Option<Edge>) {
    match path
    case None => l.sourceNodeId !in Ids(nodes) || l.targetNodeId !in Ids(nodes)
    case Some(e) => exists s, t :: Routed(nodes, l, e, s, t)
  }

  method RouteEdges(nodes: seq<Node>, links: seq<Link>) returns (paths: seq<Option<Edge>>)
    requires UniqueIds(nodes)
    ensures |paths| == |links| && forall k | 0 <= k < |links| :: PathOf(nodes, links[k], paths[k])
  {
    hide Routed;
    var byId := IndexById(nodes);
    paths := [];
    for k := 0 to |links|
      invariant |paths| == k && forall j | 0 <= j < k :: PathOf(nodes, links[j], paths[j])
    {
      var l := links[k];
      if l.sourceNodeId in byId && l.targetNodeId in byId {
        IndexFinds(nodes, byId, l.sourceNodeId);
        IndexFinds(nodes, byId, l.targetNodeId);
        var e := RouteEdge(nodes, l, byId[l.sourceNodeId], byId[l.targetNodeId]);
        assert PathOf(nodes, l, Some(e));
        paths := paths + [Some(e)];
      } else {
        paths := paths + [None];
      }
    }
  }

  lemma IndexFinds(nodes: seq<Node>, byId: map<NodeId, nat>, id: NodeId)
    requires byId.Keys == Ids(nodes) && id in byId
    requires forall i | 0 <= i < |nodes| :: nodes[i].id in byId && byId[nodes[i].id] == i
    ensures byId[id] < |nodes| && nodes[byId[id]].id == id
  {
    var i :| 0 <= i < |nodes| && nodes[i].id == id;
  }

  // ---------------------------------------------------------------------- the layout

  function LayersOf(nodes: seq<Node>, layers: map<NodeId, nat>): (r: seq<nat>)
    ensures |r| == |nodes| && forall i | 0 <= i < |r| :: r[i] == Layer(layers, nodes[i].id)
  {
    seq(|nodes|, i requires 0 <= i < |nodes| => Layer(layers, nodes[i].id))
  }

  function IdList(nodes: seq<Node>): (r: seq<NodeId>)
    ensures |r| == |nodes| && forall i | 0 <= i < |r| :: r[i] == nodes[i].id
  {
    seq(|nodes|, i requires 0 <= i < |nodes| => nodes[i].id)
  }

  /** What a layout does with a graph of nodes and links. */
  ghost predicate LaidOut(before: seq<Node>, nodes: seq<Node>, links: seq<Link>, layers: map<NodeId, nat>, right: nat,
                          bottom: nat, paths: seq<Option<Edge>>) {
    && Repositioned(before, nodes) && AllPositioned(nodes, LayersOf(nodes, layers))
    && (forall i, j | 0 <= i < j < |nodes| :: Separate(nodes[i], nodes[j]))
    && (forall i | 0 <= i < |nodes| :: Within(nodes[i], right, bottom))
    && Tight(nodes, Members(LayersOf(nodes, layers), Layers(LayersOf(nodes, layers))), right, bottom)
    && |paths| == |links| && (forall k | 0 <= k < |links| :: PathOf(nodes, links[k], paths[k]))
  }

  /** Lay out a model in place. */
  method LayoutPipelineGraph(b: Builder)
    returns (layers: map<NodeId, nat>, right: nat, bottom: nat, paths: seq<Option<Edge>>)
    requires b.Valid()
    modifies b`nodes
    ensures b.Valid() && LaidOut(old(b.nodes), b.nodes, b.links, layers, right, bottom, paths)
    ensures forall v :: Attained(b.links, v, Layer(layers, v))
    ensures Fixed(b.links, layers) ==> Acyclic(b.links) && forall v :: IsLongest(b.links, v, Layer(layers, v))
    ensures Closed(IdList(b.nodes), b.links) && Acyclic(b.links) ==> Fixed(b.links, layers)
  {
    hide AllPositioned, Tight, Members, Layers, Attained, Fixed, IsLongest, Acyclic, Closed, Separate, Within, PathOf;
    ghost var before := b.nodes;
    layers := AssignLayers(IdList(b.nodes), b.links);
    ghost var layerOf := LayersOf(b.nodes, layers);
    var nodes: seq<Node>;
    nodes, right, bottom := PlaceNodes(b.nodes, LayersOf(b.nodes, layers));
    RepositionedKeeps(before, nodes);
    assert LayersOf(nodes, layers) == layerOf && IdList(nodes) == IdList(before);
    forall i, j | 0 <= i < j < |nodes|
      ensures Separate(nodes[i], nodes[j])
    {
      PositionedSeparate(nodes, layerOf, i, j);
    }
    paths := RouteEdges(nodes, b.links);
    b.nodes := nodes;
  }

  lemma RepositionedKeeps(before: seq<Node>, after: seq<Node>)
    requires Repositioned(before, after)
    ensures Ids(after) == Ids(before) && (UniqueIds(before) ==> UniqueIds(after))
    ensures NamedPorts(before) ==> NamedPorts(after)
    ensures Widths(before) ==> Widths(after)
    ensures forall m | Captions(before, m) :: Captions(after, m)
  {
    forall i | 0 <= i < |before| ensures before[i].id == after[i].id {}
  }

  /**
   From any decomposition: the nodes and links that it means, unique node ids, boxes
   that do not overlap and lie on the stage, and for every link a path whose two
   ends touch the boxes that it joins.  If the links form no cycle, and only then,
   every path runs to a later column, and it bends in the gap between the columns.
   */
  method RenderPipelineGraph(slug: (string, string) -> string, d: Decomposition)
    returns (b: Builder, layers: map<NodeId, nat>, right: nat, bottom: nat, paths: seq<Option<Edge>>)
    ensures fresh(b) && b.Valid() && GraphFits(b.nodes, b.links, d) && |b.links| == |paths| == |d.links|
    ensures forall i, j | 0 <= i < j < |b.nodes| :: b.nodes[i].id != b.nodes[j].id && Separate(b.nodes[i], b.nodes[j])
    ensures forall i | 0 <= i < |b.nodes| :: Within(b.nodes[i], right, bottom)
    ensures forall k | 0 <= k < |paths| ::
      Drawn(b.nodes, b.links[k], d.links[k], SourceOf(d, k), TargetOf(d, k), paths[k], layers)
    ensures AllPositioned(b.nodes, LayersOf(b.nodes, layers))
    ensures AcyclicEnds(d) <==> Fixed(b.links, layers)
    ensures AcyclicEnds(d) ==> forall v :: IsLongest(b.links, v, Layer(layers, v))
  {
    hide LaidOut, GraphFits, Fixed, Acyclic, AcyclicEnds, Drawn, Closed, AllPositioned, IsLongest, SourceOf, TargetOf,
         IsIndex, Captions, Filed;
    b := CreateGraphModel(slug, d);
    ghost var before := b.nodes;
    layers, right, bottom, paths := LayoutPipelineGraph(b);
    LaidOutDraws(before, b.nodes, b.links, layers, right, bottom, paths, d);
    SameCycles(b.nodes, b.links, d);
  }

  /** The link joins nodes `s` and `t` at the ports that the raw link names, and its path fits them. */
  ghost predicate Drawn(nodes: seq<Node>, l: Link, raw: RawLink, s: nat, t: nat, path: Option<Edge>,
                        layers: map<NodeId, nat>) {
    path.Some? && PlacedAt(nodes, l, raw, s, t) && Routed(nodes, l, path.value, s, t)
    && Fits(nodes, LayersOf(nodes, layers), path.value, s, t)
  }

  lemma LaidOutDraws(before: seq<Node>, nodes: seq<Node>, links: seq<Link>, layers: map<NodeId, nat>, right: nat,
                     bottom: nat, paths: seq<Option<Edge>>, d: Decomposition)
    requires LaidOut(before, nodes, links, layers, right, bottom, paths) && UniqueIds(nodes) && Widths(nodes)
    requires GraphFits(before, links, d)
    ensures |paths| == |links| == |d.links| && Closed(IdList(nodes), links) && GraphFits(nodes, links, d)
    ensures AllPositioned(nodes, LayersOf(nodes, layers))
    ensures forall k | 0 <= k < |paths| ::
      Drawn(nodes, links[k], d.links[k], SourceOf(d, k), TargetOf(d, k), paths[k], layers)
    ensures forall i, j | 0 <= i < j < |nodes| :: Separate(nodes[i], nodes[j])
    ensures forall i | 0 <= i < |nodes| :: Within(nodes[i], right, bottom)
  {
    hide Tight, Separate, Within, PathOf, Members, GraphFits, Drawn, AllPositioned, UniqueIds, Widths, SourceOf,
         TargetOf;
    RepositionedFits(before, nodes, links, d);
    forall k | 0 <= k < |links|
      ensures links[k].sourceNodeId in IdList(nodes) && links[k].targetNodeId in IdList(nodes)
      ensures Drawn(nodes, links[k], d.links[k], SourceOf(d, k), TargetOf(d, k), paths[k], layers)
    {
      OneDrawn(nodes, links[k], d.links[k], SourceOf(d, k), TargetOf(d, k), paths[k], layers);
    }
  }

  lemma RepositionedFits(before: seq<Node>, nodes: seq<Node>, links: seq<Link>, d: Decomposition)
    requires Repositioned(before, nodes) && GraphFits(before, links, d)
    ensures GraphFits(nodes, links, d) && |links| == |d.links|
    ensures forall k | 0 <= k < |links| :: PlacedAt(nodes, links[k], d.links[k], SourceOf(d, k), TargetOf(d, k))
    ensures forall i | 0 <= i < |nodes| :: nodes[i].height == NodeHeight(nodes[i].inputs, nodes[i].outputs)
  {
    hide Filed, SourceOf, TargetOf, HasPort, LinkedInputs, LinkedOutputs, DeclaredInputs, DeclaredOutputs, PortsFit,
         NodeHeight, HasAll, Items;
    forall k | 0 <= k < |links| ensures PlacedAt(nodes, links[k], d.links[k], SourceOf(d, k), TargetOf(d, k)) {
      assert PlacedAt(before, links[k], d.links[k], SourceOf(d, k), TargetOf(d, k));
    }
    forall i | 0 <= i < |nodes| ensures Complete(nodes[i], d, i, Filed(d, |d.links|)[i]) {
      assert Complete(before[i], d, i, Filed(d, |d.links|)[i]);
    }
  }

  lemma OneDrawn(nodes: seq<Node>, l: Link, raw: RawLink, s: nat, t: nat, path: Option<Edge>,
                 layers: map<NodeId, nat>)
    requires AllPositioned(nodes, LayersOf(nodes, layers)) && UniqueIds(nodes) && Widths(nodes)
    requires PlacedAt(nodes, l, raw, s, t) && PathOf(nodes, l, path)
    requires forall i | 0 <= i < |nodes| :: nodes[i].height == NodeHeight(nodes[i].inputs, nodes[i].outputs)
    ensures l.sourceNodeId in IdList(nodes) && l.targetNodeId in IdList(nodes)
    ensures Drawn(nodes, l, raw, s, t, path, layers)
  {
    hide AllPositioned, Widths, HasPort;
    assert IdList(nodes)[s] == l.sourceNodeId && IdList(nodes)[t] == l.targetNodeId;
    assert nodes[s].id in Ids(nodes) && nodes[t].id in Ids(nodes);
    var u, v :| Routed(nodes, l, path.value, u, v);
    assert u == s && v == t;
    RoutedFits(nodes, LayersOf(nodes, layers), l, path.value, s, t);
  }

  // ------------------------------------------------------------------- cycles of raw links

  predicate EndsJoin(d: Decomposition, u: nat, v: nat) {
    exists k :: 0 <= k < |d.links| && SourceOf(d, k) == u && TargetOf(d, k) == v
  }

  predicate EndWalk(d: Decomposition, p: seq<nat>) {
    p != [] && forall i | 0 <= i < |p| - 1 :: EndsJoin(d, p[i], p[i + 1])
  }

  /** No walk along the raw links, from node to node, returns to where it began. */
  ghost predicate AcyclicEnds(d: Decomposition) { forall p | EndWalk(d, p) && |p| > 1 :: p[0] != p[|p| - 1] }

  /** The links of the model have a cycle exactly if the raw links do. */
  lemma SameCycles(nodes: seq<Node>, links: seq<Link>, d: Decomposition)
    requires UniqueIds(nodes) && GraphFits(nodes, links, d)
    ensures Acyclic(links) <==> AcyclicEnds(d)
  {
    hide SourceOf, TargetOf, GraphFits, EndWalk, Walk;
    if Acyclic(links) {
      forall p | EndWalk(d, p) && |p| > 1 ensures p[0] != p[|p| - 1] {
        var q := IdsOfWalk(nodes, links, d, p);
        assert q[0] != q[|q| - 1];
      }
    }
    if AcyclicEnds(d) {
      forall q | Walk(links, q) && |q| > 1 ensures q[0] != q[|q| - 1] {
        var p := WalkOfIds(nodes, links, d, q);
        assert p[0] != p[|p| - 1];
        DifferentIds(nodes, p[0], p[|p| - 1]);
      }
    }
  }

  lemma DifferentIds(nodes: seq<Node>, i: nat, j: nat)
    requires UniqueIds(nodes) && i < |nodes| && j < |nodes| && i != j
    ensures nodes[i].id != nodes[j].id
  {
  }

  lemma IdsOfWalk(nodes: seq<Node>, links: seq<Link>, d: Decomposition, p: seq<nat>) returns (q: seq<NodeId>)
    requires GraphFits(nodes, links, d) && EndWalk(d, p) && |p| > 1
    ensures Walk(links, q) && |q| == |p|
    ensures forall i | 0 <= i < |p| :: p[i] < |nodes| && q[i] == nodes[p[i]].id
  {
    hide SourceOf, TargetOf, Filed, Complete, HasPort;
    forall i | 0 <= i < |p| ensures p[i] < |nodes| {
      assert EndsJoin(d, p[if i == 0 then 0 else i - 1], p[if i == 0 then 1 else i]);
    }
    q := seq(|p|, i requires 0 <= i < |p| => nodes[p[i]].id);
    forall i | 0 <= i < |q| - 1 ensures Joins(links, q[i], q[i + 1]) {
      assert EndsJoin(d, p[i], p[i + 1]);
      var k :| 0 <= k < |d.links| && SourceOf(d, k) == p[i] && TargetOf(d, k) == p[i + 1];
      assert PlacedAt(nodes, links[k], d.links[k], p[i], p[i + 1]);
    }
  }

  lemma {:induction false} WalkOfIds(nodes: seq<Node>, links: seq<Link>, d: Decomposition, q: seq<NodeId>)
    returns (p: seq<nat>)
    requires UniqueIds(nodes) && GraphFits(nodes, links, d) && Walk(links, q) && |q| > 1
    ensures EndWalk(d, p) && |p| == |q|
    ensures forall i | 0 <= i < |p| :: p[i] < |nodes| && q[i] == nodes[p[i]].id
  {
    hide SourceOf, TargetOf, Filed, Complete, HasPort;
    assert Joins(links, q[0], q[1]);
    var k :| 0 <= k < |links| && links[k].sourceNodeId == q[0] && links[k].targetNodeId == q[1];
    assert PlacedAt(nodes, links[k], d.links[k], SourceOf(d, k), TargetOf(d, k));
    if |q| == 2 {
      p := [SourceOf(d, k), TargetOf(d, k)];
    } else {
      assert Walk(links, q[1..]) by {
        forall i | 0 <= i < |q| - 2 ensures Joins(links, q[1..][i], q[1..][i + 1]) {
          assert Joins(links, q[i + 1], q[i + 2]);
        }
      }
      var rest := WalkOfIds(nodes, links, d, q[1..]);
      p := [SourceOf(d, k)] + rest;
      assert rest[0] == TargetOf(d, k);
      forall i | 0 <= i < |p| - 1 ensures EndsJoin(d, p[i], p[i + 1]) {
        if i > 0 { assert EndsJoin(d, rest[i - 1], rest[i]); }
      }
    }
  }
}
