/**
 The layers of a pipeline graph (src/spl/pipeline_widget.py:399-413): links are
 relaxed in place, in the order in which they come, for at most as many rounds
 as there are nodes.
 */
module PipelineLayers {

  type NodeId = string
  datatype Link = Link(id: string, sourceNodeId: NodeId, sourcePort: string, targetNodeId: NodeId, targetPort: string)

  // ------------------------------------------------------------------- link walks

  predicate Joins(links: seq<Link>, u: NodeId, v: NodeId) {
    exists i :: 0 <= i < |links| && links[i].sourceNodeId == u && links[i].targetNodeId == v
  }

  /** Nodes that follow each other along links. */
  predicate Walk(links: seq<Link>, p: seq<NodeId>) {
    p != [] && forall i | 0 <= i < |p| - 1 :: Joins(links, p[i], p[i + 1])
  }

  predicate WalkTo(links: seq<Link>, p: seq<NodeId>, v: NodeId) { Walk(links, p) && p[|p| - 1] == v }

  ghost predicate Acyclic(links: seq<Link>) {
    forall p | Walk(links, p) && |p| > 1 :: p[0] != p[|p| - 1]
  }

  /** Every link starts and ends at one of the nodes. */
  predicate Closed(ids: seq<NodeId>, links: seq<Link>) {
    forall i | 0 <= i < |links| :: links[i].sourceNodeId in ids && links[i].targetNodeId in ids
  }

  /** The longest walk that ends at `v` has `k` links. */
  ghost predicate IsLongest(links: seq<Link>, v: NodeId, k: nat) {
    (exists p :: WalkTo(links, p, v) && |p| == k + 1) && (forall p | WalkTo(links, p, v) :: |p| <= k + 1)
  }

  lemma ExtendWalk(links: seq<Link>, p: seq<NodeId>, i: nat)
    requires i < |links| && WalkTo(links, p, links[i].sourceNodeId)
    ensures WalkTo(links, p + [links[i].targetNodeId], links[i].targetNodeId)
  {
    var q := p + [links[i].targetNodeId];
    forall j | 0 <= j < |q| - 1 ensures Joins(links, q[j], q[j + 1]) {
      if j < |p| - 1 { assert Joins(links, p[j], p[j + 1]); }
    }
  }

  lemma WalkPrefix(links: seq<Link>, p: seq<NodeId>)
    requires Walk(links, p) && |p| > 1
    ensures WalkTo(links, p[..|p| - 1], p[|p| - 2]) && Joins(links, p[|p| - 2], p[|p| - 1])
  {
    var q := p[..|p| - 1];
    forall j | 0 <= j < |q| - 1 ensures Joins(links, q[j], q[j + 1]) { assert Joins(links, p[j], p[j + 1]); }
    assert Joins(links, p[|p| - 2], p[|p| - 2 + 1]);
  }

  // ------------------------------------------------------------- acyclic walks are short

  function Nodes(p: seq<NodeId>): set<NodeId> { set v | v in p }

  lemma NodesSplit(p: seq<NodeId>)
    requires p != []
    ensures Nodes(p) == {p[0]} + Nodes(p[1..]) && forall v :: v in Nodes(p[1..]) <==> v in p[1..]
  {
  }

  lemma {:induction false} DistinctSize(p: seq<NodeId>)
    requires forall i, j | 0 <= i < j < |p| :: p[i] != p[j]
    ensures |Nodes(p)| == |p|
  {
    if p != [] {
      DistinctSize(p[1..]);
      NodesSplit(p);
      hide Nodes;
      assert p[0] !in p[1..];
    }
  }

  lemma {:induction false} NodesSize(p: seq<NodeId>)
    ensures |Nodes(p)| <= |p|
  {
    if p != [] {
      NodesSize(p[1..]);
      NodesSplit(p);
    }
  }

  lemma SubsetSize(x: set<NodeId>, y: set<NodeId>)
    requires x <= y
    ensures |x| <= |y|
  {
    assert y == x + (y - x);
  }

  lemma SegmentIsWalk(links: seq<Link>, p: seq<NodeId>, i: nat, j: nat)
    requires Walk(links, p) && i < j < |p|
    ensures Walk(links, p[i..j + 1])
  {
    var q := p[i..j + 1];
    forall k | 0 <= k < |q| - 1 ensures Joins(links, q[k], q[k + 1]) { assert Joins(links, p[i + k], p[i + k + 1]); }
  }

  /** On an acyclic graph a walk visits each node at most once. */
  lemma WalksAreShort(ids: seq<NodeId>, links: seq<Link>, p: seq<NodeId>)
    requires Acyclic(links) && Closed(ids, links) && Walk(links, p) && p[|p| - 1] in ids
    ensures |p| <= |ids|
  {
    forall i, j | 0 <= i < j < |p| ensures p[i] != p[j] {
      SegmentIsWalk(links, p, i, j);
      assert p[i..j + 1][0] == p[i] && p[i..j + 1][j - i] == p[j];
    }
    forall v | v in Nodes(p) ensures v in Nodes(ids) {
      var i :| 0 <= i < |p| && p[i] == v;
      if i < |p| - 1 { assert Joins(links, p[i], p[i + 1]); }
    }
    DistinctSize(p);
    NodesSize(ids);
    SubsetSize(Nodes(p), Nodes(ids));
  }

  // ------------------------------------------------------------------------ relaxation

  /** `layers.get(v, 0)`. */
  function Layer(layers: map<NodeId, nat>, v: NodeId): nat { if v in layers then layers[v] else 0 }

  /** Every link leads to a strictly later layer. */
  predicate Fixed(links: seq<Link>, layers: map<NodeId, nat>) {
    forall i | 0 <= i < |links| :: Layer(layers, links[i].sourceNodeId) < Layer(layers, links[i].targetNodeId)
  }

  /** Every layer is the length of some walk. */
  ghost predicate Sound(links: seq<Link>, layers: map<NodeId, nat>) {
    forall v :: Attained(links, v, Layer(layers, v))
  }

  ghost predicate Attained(links: seq<Link>, v: NodeId, k: nat) { exists p :: WalkTo(links, p, v) && |p| == k + 1 }

  /** Walks of up to `r` links are accounted for. */
  ghost predicate Covers(links: seq<Link>, layers: map<NodeId, nat>, r: int) {
    forall p | Walk(links, p) && |p| - 1 <= r :: |p| - 1 <= Layer(layers, p[|p| - 1])
  }

  ghost predicate Above(before: map<NodeId, nat>, layers: map<NodeId, nat>) {
    forall v :: Layer(before, v) <= Layer(layers, v)
  }

  /** The first `i` links were relaxed against layers no smaller than `before`. */
  predicate Relaxed(links: seq<Link>, before: map<NodeId, nat>, layers: map<NodeId, nat>, i: nat) {
    i <= |links| && forall j | 0 <= j < i :: Layer(before, links[j].sourceNodeId) < Layer(layers, links[j].targetNodeId)
  }

  lemma StartIsSound(links: seq<Link>, layers: map<NodeId, nat>)
    requires forall v | v in layers :: layers[v] == 0
    ensures Sound(links, layers)
  {
    forall v ensures Attained(links, v, Layer(layers, v)) { assert WalkTo(links, [v], v); }
  }

  lemma RelaxIsSound(links: seq<Link>, layers: map<NodeId, nat>, i: nat)
    requires i < |links| && Sound(links, layers)
    ensures Sound(links, layers[links[i].targetNodeId := Layer(layers, links[i].sourceNodeId) + 1])
  {
    var u, t := links[i].sourceNodeId, links[i].targetNodeId;
    var after := layers[t := Layer(layers, u) + 1];
    assert Attained(links, u, Layer(layers, u));
    var p :| WalkTo(links, p, u) && |p| == Layer(layers, u) + 1;
    ExtendWalk(links, p, i);
    assert Attained(links, t, Layer(after, t));
    forall v ensures Attained(links, v, Layer(after, v)) {
      if v != t { assert Attained(links, v, Layer(layers, v)); }
    }
  }

  /** A full round accounts for walks that are one link longer. */
  lemma RoundCovers(links: seq<Link>, before: map<NodeId, nat>, layers: map<NodeId, nat>, r: int)
    requires Covers(links, before, r) && r >= 0 && Relaxed(links, before, layers, |links|)
    ensures Covers(links, layers, r + 1)
  {
    forall p | Walk(links, p) && |p| - 1 <= r + 1 ensures |p| - 1 <= Layer(layers, p[|p| - 1]) {
      if |p| > 1 {
        WalkPrefix(links, p);
        var q := p[..|p| - 1];
        assert |q| - 1 <= Layer(before, q[|q| - 1]);
        var j :| 0 <= j < |links| && links[j].sourceNodeId == p[|p| - 2] && links[j].targetNodeId == p[|p| - 1];
      }
    }
  }

  /** Fixed layers account for every walk. */
  lemma {:induction false} FixedCovers(links: seq<Link>, layers: map<NodeId, nat>, p: seq<NodeId>)
    requires Fixed(links, layers) && Walk(links, p)
    ensures Layer(layers, p[0]) + |p| - 1 <= Layer(layers, p[|p| - 1])
    decreases |p|
  {
    if |p| > 1 {
      WalkPrefix(links, p);
      FixedCovers(links, layers, p[..|p| - 1]);
      var j :| 0 <= j < |links| && links[j].sourceNodeId == p[|p| - 2] && links[j].targetNodeId == p[|p| - 1];
    }
  }

  /** As many rounds as nodes are enough on an acyclic graph. */
  lemma EnoughRounds(ids: seq<NodeId>, links: seq<Link>, layers: map<NodeId, nat>)
    requires Closed(ids, links) && Acyclic(links) && Sound(links, layers) && Covers(links, layers, |ids|)
    ensures Fixed(links, layers)
  {
    forall i | 0 <= i < |links| ensures Layer(layers, links[i].sourceNodeId) < Layer(layers, links[i].targetNodeId) {
      var u := links[i].sourceNodeId;
      assert Attained(links, u, Layer(layers, u));
      var p :| WalkTo(links, p, u) && |p| == Layer(layers, u) + 1;
      ExtendWalk(links, p, i);
      WalksAreShort(ids, links, p + [links[i].targetNodeId]);
    }
  }

  lemma FixedIsAcyclic(links: seq<Link>, layers: map<NodeId, nat>)
    requires Fixed(links, layers)
    ensures Acyclic(links)
  {
    forall p | Walk(links, p) && |p| > 1 ensures p[0] != p[|p| - 1] { FixedCovers(links, layers, p); }
  }

  lemma FixedIsLongest(links: seq<Link>, layers: map<NodeId, nat>, v: NodeId)
    requires Sound(links, layers) && Fixed(links, layers)
    ensures IsLongest(links, v, Layer(layers, v))
  {
    assert Attained(links, v, Layer(layers, v));
    forall p | WalkTo(links, p, v) ensures |p| <= Layer(layers, v) + 1 { FixedCovers(links, layers, p); }
  }

  /**
   The layers of the nodes.  If the links join only nodes, they end up pointing
   strictly forward exactly when they form no cycle, whatever their order; and
   then each layer is the length of the longest walk that ends at the node.
   */
  method AssignLayers(ids: seq<NodeId>, links: seq<Link>) returns (layers: map<NodeId, nat>)
    ensures forall v | v in ids :: v in layers
    ensures forall v :: Attained(links, v, Layer(layers, v))
    ensures Fixed(links, layers) ==> Acyclic(links) && forall v :: IsLongest(links, v, Layer(layers, v))
    ensures Closed(ids, links) && Acyclic(links) ==> Fixed(links, layers)
  {
    hide Walk, WalkTo, Acyclic, IsLongest, Closed, Sound, Covers, Above, Relaxed, Fixed, Layer, Attained;
    layers := map v | v in ids :: 0;
    StartCovers(ids, links, layers);
    var round, settled := 0, false;
    var rounds := if |ids| > 1 then |ids| else 1;
    while round < rounds && !settled
      invariant forall v | v in ids :: v in layers
      invariant Sound(links, layers)
      invariant 0 <= round <= rounds && Covers(links, layers, round)
      invariant settled ==> Fixed(links, layers)
      decreases rounds - round, !settled
    {
      var before := layers;
      layers, settled := RelaxRound(links, layers);
      if !settled {
        RoundCovers(links, before, layers, round);
      }
      round := if settled then round else round + 1;
    }
    Conclude(ids, links, layers, round, settled);
  }

  lemma StartCovers(ids: seq<NodeId>, links: seq<Link>, layers: map<NodeId, nat>)
    requires layers == map v | v in ids :: 0
    ensures Sound(links, layers) && Covers(links, layers, 0)
  {
    StartIsSound(links, layers);
  }

  lemma Conclude(ids: seq<NodeId>, links: seq<Link>, layers: map<NodeId, nat>, round: nat, settled: bool)
    requires Sound(links, layers) && Covers(links, layers, round)
    requires if settled then Fixed(links, layers) else round >= |ids|
    ensures forall v :: Attained(links, v, Layer(layers, v))
    ensures Fixed(links, layers) ==> Acyclic(links) && forall v :: IsLongest(links, v, Layer(layers, v))
    ensures Closed(ids, links) && Acyclic(links) ==> Fixed(links, layers)
  {
    if Fixed(links, layers) {
      FixedIsAcyclic(links, layers);
      forall v ensures IsLongest(links, v, Layer(layers, v)) { FixedIsLongest(links, layers, v); }
    } else if Closed(ids, links) && Acyclic(links) {
      assert Covers(links, layers, |ids|);
      EnoughRounds(ids, links, layers);
    }
  }

  /** One pass over the links; settled when nothing changed. */
  method RelaxRound(links: seq<Link>, before: map<NodeId, nat>) returns (layers: map<NodeId, nat>, settled: bool)
    requires Sound(links, before)
    ensures Sound(links, layers) && Above(before, layers) && Relaxed(links, before, layers, |links|)
    ensures forall v | v in before :: v in layers
    ensures settled ==> layers == before && Fixed(links, layers)
  {
    hide Sound, Attained;
    layers, settled := before, true;
    for i := 0 to |links|
      invariant Sound(links, layers) && Above(before, layers) && Relaxed(links, before, layers, i)
      invariant forall v | v in before :: v in layers
      invariant settled ==> layers == before
    {
      var next := Layer(layers, links[i].sourceNodeId) + 1;
      if Layer(layers, links[i].targetNodeId) < next {
        RelaxIsSound(links, layers, i);
        layers, settled := layers[links[i].targetNodeId := next], false;
      }
    }
  }
}
