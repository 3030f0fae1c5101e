/**
 The first two phases of native result rewriting: worklist discovery of the
 object graph and the reverse closure of the objects that must change
 (src/spl/execution_results.py, `_normalize_native`).
 */
module NativeDiscovery {
  import opened Common
  import opened NativeGraph

  /** A heap all of whose references are bound, with a leaf oracle over it. */
  ghost predicate WellFormed(nodes: map<Id, Node>, leaf: map<Id, Id>) {
    && leaf.Keys <= nodes.Keys
    && (forall x | x in leaf :: leaf[x] in nodes && nodes[leaf[x]] == Atom)
    && (forall x | x in nodes :: BoundNode(nodes, nodes[x]))
  }

  ghost predicate FreshFrom(nodes: map<Id, Node>, next: Id) { forall x | x in nodes :: x < next }

  lemma AllocatedIsFresh(heap: map<Id, Node>, next: Id, node: Node)
    requires FreshFrom(heap, next)
    ensures next !in heap && FreshFrom(heap[next := node], next + 1)
  {
  }

  /** A dict has one key per child; other containers have none. */
  ghost predicate KeyedRight(kind: Kind, keys: seq<Key>, children: seq<Id>) {
    if kind == Dict then |keys| == |children| else keys == []
  }

  ghost predicate BoundNode(nodes: map<Id, Node>, n: Node) {
    match n
    case Atom => true
    case Container(kind, keys, children) =>
      (forall c | c in children :: c in nodes) && KeyedRight(kind, keys, children)
    case Wrapper(keys, rest, result) =>
      (forall c | c in rest :: c in nodes) && |keys| == |rest| && (result.Some? ==> result.value in nodes)
  }

  /**
   What a wrapper stands for: its result entry, unless that is missing or is the
   wrapper itself; then a fresh dict of its unreserved entries.
   */
  ghost predicate StandsFor(source: map<Id, Node>, nodes: map<Id, Node>, w: Id, t: Id)
    requires w in source && source[w].Wrapper? && t in nodes
  {
    var n := source[w];
    if n.result.Some? && n.result.value != w then t == n.result.value
    else t !in source && nodes[t] == Container(Dict, n.keys, n.rest)
  }

  ghost predicate Extends(source: map<Id, Node>, nodes: map<Id, Node>) {
    forall x | x in source :: x in nodes && nodes[x] == source[x]
  }

  /** Every wrapper visited, and only those, has a target, which is what it stands for. */
  ghost predicate Targets(source: map<Id, Node>, g: Graph, values: set<Id>) {
    && g.target.Keys <= values
    && (forall w | w in g.target ::
          w in source && w !in g.leaf && source[w].Wrapper? && g.target[w] in g.nodes
          && StandsFor(source, g.nodes, w, g.target[w]))
    && (forall w | w in values && w in g.nodes && w !in g.leaf && g.nodes[w].Wrapper? :: w in g.target)
  }

  /** Every object allocated by discovery is the rest dict of exactly one wrapper. */
  ghost predicate RestDicts(source: map<Id, Node>, g: Graph) {
    && (forall n | n in g.nodes && n !in source :: exists w :: w in g.target && g.target[w] == n)
    && (forall v, w | v in g.target && w in g.target && g.target[v] == g.target[w] && g.target[v] !in source :: v == w)
  }

  /** What discovery leaves behind, for the objects in `values`. */
  ghost predicate Discovered(source: map<Id, Node>, g: Graph, values: set<Id>) {
    && WellFormed(source, g.leaf)
    && WellFormed(g.nodes, g.leaf)
    && Extends(source, g.nodes)
    && values <= g.nodes.Keys
    && Targets(source, g, values)
    && RestDicts(source, g)
  }

  /** `parents` inverts the edges that leave `values`. */
  ghost predicate Inverts(g: Graph, values: set<Id>, parents: map<Id, set<Id>>) {
    && (forall c | c in parents :: forall p | p in parents[c] :: p in values && c in Kids(g, p))
    && (forall p | p in values :: forall c | c in Kids(g, p) :: c in parents && p in parents[c])
  }

  lemma KidsBound(source: map<Id, Node>, g: Graph, values: set<Id>, x: Id)
    requires Discovered(source, g, values)
    ensures forall c | c in Kids(g, x) :: c in g.nodes
  {
    if x in g.nodes { assert BoundNode(g.nodes, g.nodes[x]); }
  }

  ghost predicate ClosedSet(g: Graph, values: set<Id>) {
    forall x | x in values :: forall c | c in Kids(g, x) :: c in values
  }

  /** One visit leaves every object alone and adds edges only at `item`. */
  ghost predicate Visited(g: Graph, h: Graph, item: Id) {
    g.leaf == h.leaf && Extends(g.nodes, h.nodes) && forall x | x in g.nodes && x != item :: Kids(h, x) == Kids(g, x)
  }

  lemma WrappersAreOriginal(source: map<Id, Node>, g: Graph, values: set<Id>, w: Id)
    requires Discovered(source, g, values) && w in g.nodes && g.nodes[w].Wrapper?
    ensures w in source && BoundNode(source, source[w])
  {
  }

  lemma PlainVisited(source: map<Id, Node>, g: Graph, values: set<Id>, item: Id)
    requires Discovered(source, g, values) && item in g.nodes && item !in values
    requires item in g.leaf || !g.nodes[item].Wrapper?
    ensures Discovered(source, g, values + {item}) && Visited(g, g, item)
  {
  }

  lemma ResultVisited(source: map<Id, Node>, g: Graph, values: set<Id>, item: Id)
    requires Discovered(source, g, values) && item in source && item !in values && item !in g.leaf
    requires source[item].Wrapper? && source[item].result.Some? && source[item].result.value != item
    requires BoundNode(source, source[item])
    ensures var h := g.(target := g.target[item := source[item].result.value]);
            Discovered(source, h, values + {item}) && Visited(g, h, item)
  {
    ResultTargets(source, g, values, item);
    ResultUnique(source, g, values, item);
  }

  lemma ResultTargets(source: map<Id, Node>, g: Graph, values: set<Id>, item: Id)
    requires Targets(source, g, values) && Extends(source, g.nodes) && item in source && item !in g.leaf
    requires source[item].Wrapper? && source[item].result.Some? && source[item].result.value != item
    requires source[item].result.value in source
    ensures Targets(source, g.(target := g.target[item := source[item].result.value]), values + {item})
  {
  }

  lemma ResultUnique(source: map<Id, Node>, g: Graph, values: set<Id>, item: Id)
    requires Targets(source, g, values) && RestDicts(source, g) && item in source && item !in values
    requires source[item].Wrapper? && source[item].result.Some? && source[item].result.value in source
    ensures RestDicts(source, g.(target := g.target[item := source[item].result.value]))
  {
    var h := g.(target := g.target[item := source[item].result.value]);
    forall n | n in h.nodes && n !in source ensures exists w :: w in h.target && h.target[w] == n {
      var w :| w in g.target && g.target[w] == n;
      assert h.target[w] == n;
    }
  }

  /** The graph after the rest dict of wrapper `w` was allocated as `d`. */
  ghost function WithRest(g: Graph, w: Id, d: Id): Graph
    requires w in g.nodes && g.nodes[w].Wrapper?
  {
    Graph(g.nodes[d := Container(Dict, g.nodes[w].keys, g.nodes[w].rest)], g.leaf, g.target[w := d])
  }

  lemma RestVisited(source: map<Id, Node>, g: Graph, values: set<Id>, item: Id, d: Id)
    requires Discovered(source, g, values) && item in source && item !in values && item !in g.leaf
    requires source[item].Wrapper? && (source[item].result.Some? ==> source[item].result.value == item)
    requires BoundNode(source, source[item]) && d !in g.nodes
    ensures Discovered(source, WithRest(g, item, d), values + {item}) && Visited(g, WithRest(g, item, d), item)
  {
    RestBound(g, item, d);
    RestTargets(source, g, values, item, d);
    RestUnique(source, g, values, item, d);
    RestVisits(g, item, d);
  }

  lemma RestBound(g: Graph, item: Id, d: Id)
    requires WellFormed(g.nodes, g.leaf) && d !in g.nodes && item in g.nodes && g.nodes[item].Wrapper?
    ensures WellFormed(WithRest(g, item, d).nodes, g.leaf)
  {
    var h := WithRest(g, item, d);
    forall x | x in h.nodes ensures BoundNode(h.nodes, h.nodes[x]) {
      assert BoundNode(g.nodes, g.nodes[if x == d then item else x]);
    }
  }

  lemma RestVisits(g: Graph, item: Id, d: Id)
    requires d !in g.nodes && item in g.nodes && g.nodes[item].Wrapper?
    ensures Visited(g, WithRest(g, item, d), item)
  {
  }

  lemma RestTargets(source: map<Id, Node>, g: Graph, values: set<Id>, item: Id, d: Id)
    requires Targets(source, g, values) && Extends(source, g.nodes) && item in source && item !in g.leaf
    requires source[item].Wrapper? && (source[item].result.Some? ==> source[item].result.value == item)
    requires d !in g.nodes && values <= g.nodes.Keys
    ensures Targets(source, WithRest(g, item, d), values + {item})
  {
    var h := WithRest(g, item, d);
    forall w | w in h.target
      ensures w in source && w !in h.leaf && source[w].Wrapper? && h.target[w] in h.nodes
              && StandsFor(source, h.nodes, w, h.target[w])
    {
      if w != item { assert StandsFor(source, g.nodes, w, g.target[w]); }
    }
  }

  lemma RestUnique(source: map<Id, Node>, g: Graph, values: set<Id>, item: Id, d: Id)
    requires Targets(source, g, values) && RestDicts(source, g) && d !in g.nodes
    requires item in g.nodes && g.nodes[item].Wrapper? && item !in values
    ensures RestDicts(source, WithRest(g, item, d))
  {
    var h := WithRest(g, item, d);
    forall m | m in h.nodes && m !in source ensures exists w :: w in h.target && h.target[w] == m {
      if m == d {
        assert h.target[item] == m;
      } else {
        var w :| w in g.target && g.target[w] == m;
        assert h.target[w] == m;
      }
    }
  }

  /** A wrapper that is visited first gets what it stands for. */
  lemma WrapperVisited(source: map<Id, Node>, g: Graph, values: set<Id>, item: Id, next: Id)
    requires Discovered(source, g, values) && FreshFrom(g.nodes, next) && item in g.nodes && item !in values
    requires item !in g.leaf && g.nodes[item].Wrapper?
    ensures var n := g.nodes[item];
      if n.result.Some? && n.result.value != item then
        var h := g.(target := g.target[item := n.result.value]);
        Discovered(source, h, values + {item}) && Visited(g, h, item) && Kids(g, item) == []
        && Kids(h, item) == [n.result.value]
      else
        var h := WithRest(g, item, next);
        && Discovered(source, h, values + {item}) && Visited(g, h, item) && Kids(g, item) == []
        && Kids(h, item) == [next]
        && FreshFrom(h.nodes, next + 1) && item in source
  {
    WrappersAreOriginal(source, g, values, item);
    AllocatedIsFresh(g.nodes, next, Container(Dict, g.nodes[item].keys, g.nodes[item].rest));
    NotTargeted(source, g, values, item);
    SameInSource(source, g, values, item);
    hide Discovered, Visited, FreshFrom, BoundNode;
    var n := g.nodes[item];
    if n.result.Some? && n.result.value != item { ResultVisited(source, g, values, item); }
    else { RestVisited(source, g, values, item, next); }
  }

  lemma NotTargeted(source: map<Id, Node>, g: Graph, values: set<Id>, item: Id)
    requires Discovered(source, g, values) && item !in values
    ensures item !in g.target
  {
  }

  lemma SameInSource(source: map<Id, Node>, g: Graph, values: set<Id>, item: Id)
    requires Discovered(source, g, values) && item in source
    ensures item in g.nodes && g.nodes[item] == source[item]
  {
  }

  class Discovery {
    const leaf: map<Id, Id>
    ghost const source: map<Id, Node>
    var heap: map<Id, Node>
    var next: Id
    var values: set<Id>
    var parents: map<Id, set<Id>>
    var target: map<Id, Id>

    function Seen(): Graph reads this { Graph(heap, leaf, target) }

    ghost predicate Valid() reads this {
      && Discovered(source, Seen(), values)
      && FreshFrom(heap, next)
    }

    constructor (heap: map<Id, Node>, leaf: map<Id, Id>, next: Id)
      requires WellFormed(heap, leaf)
      requires FreshFrom(heap, next)
      ensures Valid() && values == {} && this.leaf == leaf && source == heap && this.heap == heap
      ensures target == map[] && parents == map[]
    {
      this.heap, this.leaf, this.next, this.source := heap, leaf, next, heap;
      values, parents, target := {}, map[], map[];
    }

    /** Visit one object for the first time and return the children to follow. */
    method Visit(item: Id) returns (children: seq<Id>)
      requires Valid() && item in heap && item !in values
      modifies `heap, `next, `values, `target
      ensures Valid() && values == old(values) + {item}
      ensures Visited(old(Seen()), Seen(), item)
      ensures children == Kids(Seen(), item)
      ensures heap.Keys == old(heap.Keys) || item in source
      ensures Kids(old(Seen()), item) != children ==> Kids(old(Seen()), item) == []
    {
      hide Discovered, Visited, FreshFrom, BoundNode;
      ghost var seen := values;
      values := values + {item};
      var n := heap[item];
      if item !in leaf && n.Wrapper? {
        WrapperVisited(source, Seen(), seen, item, next);
        var replacement;
        if n.result.Some? && n.result.value != item {
          replacement := n.result.value;
        } else {
          replacement := next;
          heap := heap[next := Container(Dict, n.keys, n.rest)];
          next := next + 1;
        }
        target := target[item := replacement];
        children := [replacement];
      } else {
        PlainVisited(source, Seen(), seen, item);
        children := if item in leaf || n.Atom? then [] else n.children;
      }
    }

    /** Visit `item` and push its children. */
    method Follow(ghost root: Id, item: Id, pending: seq<Id>, ghost stack: seq<Id>) returns (grown: seq<Id>)
      requires Valid() && item !in values && stack == pending + [item]
      requires Frontier(Seen(), root, values, parents, stack)
      modifies `heap, `next, `values, `target, `parents
      ensures Valid()
      ensures Frontier(Seen(), root, values, parents, grown)
      ensures Left(source, values) < old(Left(source, values))
           || (Left(source, values) == old(Left(source, values)) && Left(heap, values) < old(Left(heap, values)))
    {
      hide Discovered, Visited, Frontier, Inverts, Kids, FreshFrom, Left, AddParents;
      ItemIsNode(Seen(), root, values, parents, stack, pending, item);
      var children := Visit(item);
      parents := AddParents(parents, children, item);
      KidsBound(source, Seen(), values, item);
      FrontierStep(old(Seen()), Seen(), root, old(values), old(parents), parents, stack, pending, item);
      MeasureDrops(source, old(heap), heap, old(values), item);
      grown := pending + children;
    }

    /** Discover everything reachable from `root`, with the edges inverted in `parents`. */
    method Discover(root: Id)
      requires Valid() && root in heap && values == {} && target == map[] && parents == map[] && heap == source
      modifies this
      ensures Valid()
      ensures forall x :: x in values <==> Reaches(Seen(), root, x)
      ensures ClosedSet(Seen(), values)
      ensures Inverts(Seen(), values, parents)
    {
      var pending := [root];
      ReachesSelf(Seen(), root);
      assert Frontier(Seen(), root, values, parents, pending);
      while pending != []
        invariant Valid()
        invariant Frontier(Seen(), root, values, parents, pending)
        decreases Left(source, values), Left(heap, values), |pending|
      {
        var item := pending[|pending| - 1];
        ghost var stack := pending;
        pending := pending[..|pending| - 1];
        PopLast(stack);
        if item in values {
          FrontierSkip(Seen(), root, values, parents, stack, pending, item);
        } else {
          pending := Follow(root, item, pending, stack);
        }
      }
      FrontierDone(Seen(), root, values, parents);
    }
  }

  /**
   Everything seen or pending is reachable, and every edge leaving a seen object
   leads to one that is seen or pending and is recorded in `parents`.
   */
  ghost predicate Frontier(g: Graph, root: Id, values: set<Id>, parents: map<Id, set<Id>>, pending: seq<Id>) {
    && values <= g.nodes.Keys
    && (forall x | x in pending :: x in g.nodes)
    && (root in values || root in pending)
    && (forall x | x in values || x in pending :: Reaches(g, root, x))
    && (forall x | x in values :: forall c | c in Kids(g, x) :: c in values || c in pending)
    && Inverts(g, values, parents)
  }

  lemma ItemIsNode(g: Graph, root: Id, values: set<Id>, parents: map<Id, set<Id>>, stack: seq<Id>, pending: seq<Id>,
                   item: Id)
    requires Frontier(g, root, values, parents, stack) && stack == pending + [item]
    ensures item in g.nodes
  {
    assert item in stack;
  }

  lemma PopLast(s: seq<Id>)
    requires s != []
    ensures s == s[..|s| - 1] + [s[|s| - 1]]
  {
  }

  lemma FrontierSkip(g: Graph, root: Id, values: set<Id>, parents: map<Id, set<Id>>,
                     stack: seq<Id>, pending: seq<Id>, item: Id)
    requires Frontier(g, root, values, parents, stack) && stack == pending + [item] && item in values
    ensures Frontier(g, root, values, parents, pending)
  {
    assert forall x | x in stack :: x in pending || x == item;
    assert forall x | x in pending :: x in stack;
  }

  lemma FrontierStep(g: Graph, h: Graph, root: Id, seen: set<Id>,
                     before: map<Id, set<Id>>, after: map<Id, set<Id>>, stack: seq<Id>, pending: seq<Id>, item: Id)
    requires Frontier(g, root, seen, before, stack) && stack == pending + [item]
    requires Visited(g, h, item) && item !in seen
    requires forall c | c in Kids(h, item) :: c in h.nodes
    requires Kids(g, item) != Kids(h, item) ==> Kids(g, item) == []
    requires after == AddParents(before, Kids(h, item), item)
    ensures Frontier(h, root, seen + {item}, after, pending + Kids(h, item))
  {
    hide Kids, Reaches, Inverts, Extends;
    assert forall x | x in stack :: x in pending || x == item;
    assert item in stack;
    VisitKeepsKids(g, h, item);
    FrontierReaches(g, h, root, seen, stack, item);
    InvertsStep(g, h, seen, before, after, item);
    FrontierNodes(g, h, item);
    forall x | x in seen + {item}
      ensures forall c | c in Kids(h, x) :: c in seen + {item} || c in pending + Kids(h, item)
    {
      if x != item { assert Kids(h, x) == Kids(g, x); }
    }
  }

  lemma FrontierNodes(g: Graph, h: Graph, item: Id)
    requires Visited(g, h, item)
    ensures g.nodes.Keys <= h.nodes.Keys
  {
  }

  lemma VisitKeepsKids(g: Graph, h: Graph, item: Id)
    requires Visited(g, h, item) && (Kids(g, item) != Kids(h, item) ==> Kids(g, item) == [])
    ensures forall x | x in g.nodes && x != item :: Kids(h, x) == Kids(g, x)
    ensures forall v, w | w in Kids(g, v) :: w in Kids(h, v)
  {
  }

  lemma FrontierReaches(g: Graph, h: Graph, root: Id, seen: set<Id>, stack: seq<Id>, item: Id)
    requires (forall x | x in seen || x in stack :: Reaches(g, root, x)) && item in stack
    requires forall v, w | w in Kids(g, v) :: w in Kids(h, v)
    ensures forall x | x in seen || x in stack || x in Kids(h, item) :: Reaches(h, root, x)
  {
    hide Kids, Reaches;
    forall x | x in seen || x in stack ensures Reaches(h, root, x) { ReachesMonotone(g, h, root, x); }
    forall x | x in Kids(h, item) ensures Reaches(h, root, x) { ReachesSnoc(h, root, item, x); }
  }

  lemma InvertsStep(g: Graph, h: Graph, seen: set<Id>, before: map<Id, set<Id>>, after: map<Id, set<Id>>, item: Id)
    requires Inverts(g, seen, before) && item !in seen && seen <= g.nodes.Keys
    requires forall x | x in g.nodes && x != item :: Kids(h, x) == Kids(g, x)
    requires after == AddParents(before, Kids(h, item), item)
    ensures Inverts(h, seen + {item}, after)
  {
    hide Kids, AddParents;
    forall c | c in after ensures forall p | p in after[c] :: p in seen + {item} && c in Kids(h, p) {
      forall p | p in after[c] && p != item
        ensures p in seen && c in Kids(h, p)
      {
        assert p in before[c] && c in Kids(g, p);
      }
    }
    forall p | p in seen + {item} ensures forall c | c in Kids(h, p) :: c in after && p in after[c] {
      if p != item { assert Kids(h, p) == Kids(g, p); }
    }
  }

  lemma FrontierDone(g: Graph, root: Id, values: set<Id>, parents: map<Id, set<Id>>)
    requires Frontier(g, root, values, parents, [])
    ensures forall x :: x in values <==> Reaches(g, root, x)
    ensures ClosedSet(g, values)
  {
    forall x | Reaches(g, root, x) ensures x in values {
      var p :| WalkFromTo(g, p, root, x);
      ClosedUnderWalks(g, values, p);
    }
  }

  /** The parents once `marker` is one of every child. */
  function AddParents(parents: map<Id, set<Id>>, children: seq<Id>, marker: Id): (r: map<Id, set<Id>>)
    ensures forall c :: c in r <==> c in parents || c in children
    ensures forall c | c in r ::
      r[c] == (if c in parents then parents[c] else {}) + (if c in children then {marker} else {})
    decreases |children|
  {
    if children == [] then parents
    else
      var c := children[0];
      var p := parents[c := (if c in parents then parents[c] else {}) + {marker}];
      AddParents(p, children[1..], marker)
  }

  /** How many objects of a heap are still unseen. */
  ghost function Left(nodes: map<Id, Node>, seen: set<Id>): nat { |nodes.Keys - seen| }

  lemma MeasureDrops(source: map<Id, Node>, before: map<Id, Node>, after: map<Id, Node>, seen: set<Id>, item: Id)
    requires item in before && item !in seen
    requires after.Keys == before.Keys || item in source
    ensures Left(source, seen + {item}) < Left(source, seen)
         || (Left(source, seen + {item}) == Left(source, seen) && Left(after, seen + {item}) < Left(before, seen))
  {
    if item in source {
      assert source.Keys - seen == (source.Keys - (seen + {item})) + {item};
    } else {
      assert source.Keys - (seen + {item}) == source.Keys - seen;
      assert before.Keys - seen == (before.Keys - (seen + {item})) + {item};
    }
  }

  /** Exactly the discovered objects from which a replacement can be reached. */
  ghost predicate IsAffected(g: Graph, values: set<Id>, affected: set<Id>) {
    affected <= values && forall x | x in values :: x in affected <==> Touched(g, x)
  }

  /** The reverse closure of the replaced objects over `parents`. */
  method CloseAffected(g: Graph, values: set<Id>, parents: map<Id, set<Id>>) returns (affected: set<Id>)
    requires Inverts(g, values, parents)
    requires g.target.Keys <= values
    requires ClosedSet(g, values)
    ensures IsAffected(g, values, affected)
  {
    affected := g.leaf.Keys * values + g.target.Keys;
    var ancestors := affected;
    ClosureStart(g, values, parents, affected);
    while ancestors != {}
      invariant Closing(g, values, parents, affected, ancestors)
      decreases |values - affected|, |ancestors|
    {
      var child :| child in ancestors;
      var added := if child in parents then parents[child] - affected else {};
      ClosureStep(g, values, parents, affected, ancestors, child, added);
      affected := affected + added;
      ancestors := ancestors - {child} + added;
    }
    ClosureDone(g, values, parents, affected);
  }

  /** All objects in `affected` are touched; the parents of all but `ancestors` are in it already. */
  ghost predicate Closing(g: Graph, values: set<Id>, parents: map<Id, set<Id>>, affected: set<Id>, ancestors: set<Id>) {
    && ancestors <= affected <= values
    && (forall x | x in values && Replaced(g, x) :: x in affected)
    && (forall x | x in affected :: Touched(g, x))
    && (forall c | c in affected && c !in ancestors && c in parents :: parents[c] <= affected)
  }

  lemma ClosureStart(g: Graph, values: set<Id>, parents: map<Id, set<Id>>, affected: set<Id>)
    requires g.target.Keys <= values && affected == g.leaf.Keys * values + g.target.Keys
    ensures Closing(g, values, parents, affected, affected)
  {
    forall x | x in affected ensures Touched(g, x) { ReachesSelf(g, x); }
  }

  lemma ClosureStep(g: Graph, values: set<Id>, parents: map<Id, set<Id>>, affected: set<Id>, ancestors: set<Id>,
                    child: Id, added: set<Id>)
    requires Closing(g, values, parents, affected, ancestors) && Inverts(g, values, parents) && child in ancestors
    requires added == if child in parents then parents[child] - affected else {}
    ensures Closing(g, values, parents, affected + added, ancestors - {child} + added)
    ensures |values - (affected + added)| < |values - affected|
         || (added == {} && |ancestors - {child} + added| < |ancestors|)
  {
    forall p | p in added ensures Touched(g, p) { TouchedCons(g, p, child); }
    ClosureShrinks(values, affected, ancestors, child, added);
  }

  lemma ClosureShrinks(values: set<Id>, affected: set<Id>, ancestors: set<Id>, child: Id, added: set<Id>)
    requires added !! affected && added <= values && child in ancestors
    ensures |values - (affected + added)| < |values - affected|
         || (added == {} && |ancestors - {child} + added| < |ancestors|)
  {
    if added == {} {
      assert ancestors - {child} + added == ancestors - {child};
    } else {
      assert values - affected == (values - (affected + added)) + added;
      assert |values - affected| == |values - (affected + added)| + |added|;
    }
  }

  lemma ClosureDone(g: Graph, values: set<Id>, parents: map<Id, set<Id>>, affected: set<Id>)
    requires Closing(g, values, parents, affected, {}) && Inverts(g, values, parents) && ClosedSet(g, values)
    ensures IsAffected(g, values, affected)
  {
    forall x | x in values && Touched(g, x) ensures x in affected {
      var y :| Reaches(g, x, y) && Replaced(g, y);
      var p :| WalkFromTo(g, p, x, y);
      ClosedUnderWalks(g, values, p);
      ClosedUnderParents(g, affected, values, p);
    }
  }
}
