/**
 Native result rewriting end to end (src/spl/execution_results.py,
 `_normalize_native`), and what the rewritten graph means.

 `Meaning` says what a source object stands for, without reference to the
 algorithm: wrappers resolved, leaf replacements substituted, container kinds,
 keys and child order kept.  `View` reads an object of the rewritten heap, where
 a wrapper would show up as `Broken`.
 */
module NativeResults {
  import opened Common
  import opened NativeGraph
  import opened NativeDiscovery
  import opened NativeConvert

  datatype Tree =
    | Same(id: Id)                                       // this very object
    | Box(kind: Kind, keys: seq<Key>, kids: seq<Tree>)
    | Cut                                                // below the depth looked at
    | Broken                                             // a wrapper that stands for nothing

  /** What a wrapper chain ends in: an object, or the unreserved entries of a wrapper. */
  datatype Place = Obj(id: Id) | Rest(of: Id)

  function Chase(source: map<Id, Node>, leaf: map<Id, Id>, x: Id, fuel: nat): Option<Place>
    decreases fuel
  {
    if x in leaf || x !in source || !source[x].Wrapper? then Some(Obj(x))
    else if source[x].result.Some? && source[x].result.value != x then
      if fuel == 0 then None else Chase(source, leaf, source[x].result.value, fuel - 1)
    else Some(Rest(x))
  }

  ghost predicate EndsAt(source: map<Id, Node>, leaf: map<Id, Id>, x: Id, at: Place) {
    exists fuel: nat :: Chase(source, leaf, x, fuel) == Some(at)
  }

  /** The meaning of a source object, `k` containers deep. */
  ghost function Meaning(source: map<Id, Node>, leaf: map<Id, Id>, x: Id, k: nat): Tree
    decreases k
  {
    if at :| EndsAt(source, leaf, x, at) then
      match at
      case Rest(w) =>
        if w !in source || !source[w].Wrapper? then Broken
        else Boxed(source, leaf, Dict, source[w].keys, source[w].rest, k)
      case Obj(y) =>
        if y in leaf then Same(leaf[y])
        else if y in source && source[y].Container? then
          Boxed(source, leaf, source[y].kind, source[y].keys, source[y].children, k)
        else Same(y)
    else Broken
  }

  ghost function Boxed(source: map<Id, Node>, leaf: map<Id, Id>, kind: Kind, keys: seq<Key>, kids: seq<Id>,
                       k: nat): Tree
    decreases k, 0
  {
    if k == 0 then Cut
    else Box(kind, keys, seq(|kids|, i requires 0 <= i < |kids| => Meaning(source, leaf, kids[i], k - 1)))
  }

  /** An object of a heap, `k` containers deep. */
  function View(heap: map<Id, Node>, r: Id, k: nat): Tree
    decreases k
  {
    if r !in heap then Same(r)
    else match heap[r]
      case Atom => Same(r)
      case Wrapper(_, _, _) => Broken
      case Container(kind, keys, kids) =>
        if k == 0 then Cut
        else Box(kind, keys, seq(|kids|, i requires 0 <= i < |kids| => View(heap, kids[i], k - 1)))
  }

  // ------------------------------------------- chains of the source and of discovery

  /** Where a place is found in the discovered graph. */
  ghost predicate Located(g: Graph, at: Place, y: Id) {
    match at
    case Obj(x) => y == x
    case Rest(w) => w in g.target && y == g.target[w]
  }

  lemma {:induction false} ChaseUnique(source: map<Id, Node>, leaf: map<Id, Id>, x: Id, i: nat, j: nat)
    requires Chase(source, leaf, x, i).Some? && Chase(source, leaf, x, j).Some?
    ensures Chase(source, leaf, x, i) == Chase(source, leaf, x, j)
    decreases i
  {
    if !(x in leaf || x !in source || !source[x].Wrapper?) && source[x].result.Some? && source[x].result.value != x {
      ChaseUnique(source, leaf, source[x].result.value, i - 1, j - 1);
    }
  }

  lemma EndsAtUnique(source: map<Id, Node>, leaf: map<Id, Id>, x: Id, a: Place, b: Place)
    requires EndsAt(source, leaf, x, a) && EndsAt(source, leaf, x, b)
    ensures a == b
  {
    var i: nat :| Chase(source, leaf, x, i) == Some(a);
    var j: nat :| Chase(source, leaf, x, j) == Some(b);
    ChaseUnique(source, leaf, x, i, j);
  }

  /** Discovery resolves a wrapper to exactly the place its source chain ends at. */
  lemma {:induction false} ChaseIsResolve(source: map<Id, Node>, p: Plan, x: Id, y: Id, fuel: nat) returns (at: Place)
    requires Discovered(source, p.g, p.values) && ValidPlan(p) && x in p.values && x in source
    requires Resolve(p.g, x, fuel) == Some(y)
    ensures EndsAt(source, p.g.leaf, x, at) && Located(p.g, at, y) && (at.Obj? ==> y in source)
    ensures at.Rest? ==>
      at.of in source && source[at.of].Wrapper? && (source[at.of].result.Some? ==> source[at.of].result.value == at.of)
    decreases fuel
  {
    hide ValidPlan, Discovered;
    if x !in p.g.target {
      at := Obj(x);
      NoChain(source, p, x);
    } else {
      var t := p.g.target[x];
      TargetInside(source, p, x);
      if source[x].result.Some? && source[x].result.value != x {
        at := ChaseIsResolve(source, p, t, y, fuel - 1);
        var f: nat :| Chase(source, p.g.leaf, t, f) == Some(at);
        assert Chase(source, p.g.leaf, x, f + 1) == Some(at);
      } else {
        at := Rest(x);
        assert Chase(source, p.g.leaf, x, 0) == Some(at);
      }
    }
  }

  lemma NoChain(source: map<Id, Node>, p: Plan, x: Id)
    requires Discovered(source, p.g, p.values) && x in p.values && x in source && x !in p.g.target
    ensures EndsAt(source, p.g.leaf, x, Obj(x))
  {
    assert Chase(source, p.g.leaf, x, 0) == Some(Obj(x));
  }

  lemma TargetInside(source: map<Id, Node>, p: Plan, x: Id)
    requires Discovered(source, p.g, p.values) && ValidPlan(p) && x in p.g.target
    ensures x in source && x !in p.g.leaf && source[x].Wrapper? && p.g.target[x] in p.values
    ensures var t := p.g.target[x];
            if source[x].result.Some? && source[x].result.value != x then t == source[x].result.value && t in source
            else t !in source && t !in p.g.target && p.g.nodes[t] == Container(Dict, source[x].keys, source[x].rest)
  {
    var t := p.g.target[x];
    assert t in Kids(p.g, x) && StandsFor(source, p.g.nodes, x, t) && BoundNode(source, source[x]);
  }

  // ----------------------------------------------------------- meaning is preserved

  /** A rewritten graph: every discovered object has an image and all images are complete. */
  ghost predicate Rewritten(source: map<Id, Node>, p: Plan, s: Store) {
    Discovered(source, p.g, p.values) && ValidPlan(p) && Inv(p, s, {}) && s.memo.Keys == p.values
  }

  lemma Finished(source: map<Id, Node>, p: Plan, s: Store, x: Id)
    requires Rewritten(source, p, s) && x in p.values
    ensures x in s.memo && x in p.g.nodes && Complete(p, s, x) && Sound(p, x) && s.memo[x] in s.heap
    ensures x in p.g.leaf ==> s.heap[s.memo[x]] == Atom
    ensures x !in p.affected ==> s.heap[x] == p.g.nodes[x] && !p.g.nodes[x].Wrapper?
    ensures x !in p.g.leaf && x !in p.g.target ==> !p.g.nodes[x].Wrapper?
    ensures x in p.affected && x !in p.g.leaf && x !in p.g.target ==> p.g.nodes[x].Container?
  {
    if x in p.g.target { TargetImage(p, s, x); }
  }

  lemma TargetImage(p: Plan, s: Store, x: Id)
    requires ValidPlan(p) && Inv(p, s, {}) && x in s.memo
    ensures s.memo[x] in s.heap
  {
    assert Sound(p, x);
    var y: Id :| ResolvesTo(p.g, x, y);
    var fuel: nat :| Resolve(p.g, x, fuel) == Some(y);
    ImageOfResolved(p, s, {}, x, y, fuel);
    ResolvedEnds(p, x, y, fuel);
    assert Complete(p, s, y);
  }

  /** The image of a source object shows its meaning, to any depth. */
  lemma {:induction false} ImageMeans(source: map<Id, Node>, p: Plan, s: Store, x: Id, k: nat)
    requires Rewritten(source, p, s) && x in p.values && x in source
    ensures View(s.heap, s.memo[x], k) == Meaning(source, p.g.leaf, x, k)
    decreases k, 2
  {
    hide Inv, ValidPlan, Discovered, Boxed, View, Complete;
    Finished(source, p, s, x);
    var y: Id :| ResolvesTo(p.g, x, y);
    var fuel: nat :| Resolve(p.g, x, fuel) == Some(y);
    var at := ChaseIsResolve(source, p, x, y, fuel);
    ImageOfResolved(p, s, {}, x, y, fuel);
    ResolvedEnds(p, x, y, fuel);
    ResolvedStaysInside(p, x, y, fuel);
    MeaningIs(source, p.g.leaf, x, at, k);
    PlaceFound(source, p, at, y);
    PlaceMeans(source, p, s, at, y, k);
  }

  ghost function MeaningAt(source: map<Id, Node>, leaf: map<Id, Id>, at: Place, k: nat): Tree {
    match at
    case Rest(w) =>
      if w !in source || !source[w].Wrapper? then Broken
      else Boxed(source, leaf, Dict, source[w].keys, source[w].rest, k)
    case Obj(y) =>
      if y in leaf then Same(leaf[y])
      else if y in source && source[y].Container? then
        Boxed(source, leaf, source[y].kind, source[y].keys, source[y].children, k)
      else Same(y)
  }

  lemma MeaningIs(source: map<Id, Node>, leaf: map<Id, Id>, x: Id, at: Place, k: nat)
    requires EndsAt(source, leaf, x, at)
    ensures Meaning(source, leaf, x, k) == MeaningAt(source, leaf, at, k)
  {
    hide Boxed, EndsAt;
    forall b | EndsAt(source, leaf, x, b) ensures b == at { EndsAtUnique(source, leaf, x, at, b); }
  }

  lemma {:induction false} ResolvedEnds(p: Plan, x: Id, y: Id, fuel: nat)
    requires Resolve(p.g, x, fuel) == Some(y)
    ensures y !in p.g.target
    decreases fuel
  {
    if x in p.g.target { ResolvedEnds(p, p.g.target[x], y, fuel - 1); }
  }

  /** A place of the discovered graph, described in source terms. */
  ghost predicate Found(source: map<Id, Node>, p: Plan, at: Place, y: Id) {
    && y in p.values && y !in p.g.target && y in p.g.nodes
    && match at
       case Obj(x) => y == x && y in source && p.g.nodes[y] == source[y]
       case Rest(w) =>
         w in source && source[w].Wrapper? && y !in p.g.leaf
         && p.g.nodes[y] == Container(Dict, source[w].keys, source[w].rest)
  }

  lemma PlaceFound(source: map<Id, Node>, p: Plan, at: Place, y: Id)
    requires Discovered(source, p.g, p.values) && ValidPlan(p) && Located(p.g, at, y)
    requires y in p.values && y !in p.g.target && (at.Obj? ==> y in source)
    requires at.Rest? ==>
      at.of in source && source[at.of].Wrapper? && (source[at.of].result.Some? ==> source[at.of].result.value == at.of)
    ensures Found(source, p, at, y)
  {
    if at.Rest? { TargetInside(source, p, at.of); }
  }

  lemma {:induction false} PlaceMeans(source: map<Id, Node>, p: Plan, s: Store, at: Place, y: Id, k: nat)
    requires Rewritten(source, p, s) && Found(source, p, at, y)
    ensures View(s.heap, s.memo[y], k) == MeaningAt(source, p.g.leaf, at, k)
    decreases k, 1
  {
    hide Inv, ValidPlan, Discovered, Boxed;
    Finished(source, p, s, y);
    if y !in p.g.leaf && p.g.nodes[y].Container? { ContainerMeans(source, p, s, y, k); }
  }

  /** A container's image shows its children's meanings, in order. */
  lemma {:induction false} ContainerMeans(source: map<Id, Node>, p: Plan, s: Store, y: Id, k: nat)
    requires Rewritten(source, p, s) && y in p.values && y !in p.g.leaf && y in p.g.nodes && p.g.nodes[y].Container?
    ensures var m := p.g.nodes[y]; View(s.heap, s.memo[y], k) == Boxed(source, p.g.leaf, m.kind, m.keys, m.children, k)
    decreases k, 0
  {
    ContainerImage(source, p, s, y);
    hide Inv, ValidPlan, Discovered, Complete, Meaning, Rewritten;
    var m := p.g.nodes[y];
    var n := s.heap[s.memo[y]];
    if k > 0 {
      forall i | 0 <= i < |m.children|
        ensures View(s.heap, n.children[i], k - 1) == Meaning(source, p.g.leaf, m.children[i], k - 1)
      {
        ChildMeans(source, p, s, y, i, k);
      }
    }
    SameBoxes(source, p.g.leaf, s.heap, m, s.memo[y], k);
  }

  lemma SameBoxes(source: map<Id, Node>, leaf: map<Id, Id>, heap: map<Id, Node>, m: Node, r: Id, k: nat)
    requires r in heap && heap[r].Container? && m.Container? && |heap[r].children| == |m.children|
    requires heap[r].kind == m.kind && heap[r].keys == m.keys
    requires k > 0 ==> forall i | 0 <= i < |m.children| ::
      View(heap, heap[r].children[i], k - 1) == Meaning(source, leaf, m.children[i], k - 1)
    ensures View(heap, r, k) == Boxed(source, leaf, m.kind, m.keys, m.children, k)
  {
    hide Meaning;
  }

  lemma {:induction false} ChildMeans(source: map<Id, Node>, p: Plan, s: Store, y: Id, i: nat, k: nat)
    requires k > 0 && Rewritten(source, p, s) && y in p.values && y !in p.g.leaf && y in p.g.nodes
    requires p.g.nodes[y].Container?
    requires i < |p.g.nodes[y].children| && y in s.memo && s.memo[y] in s.heap
    requires Image(s.memo, p.g.nodes[y], s.heap[s.memo[y]])
    ensures View(s.heap, s.heap[s.memo[y]].children[i], k - 1) == Meaning(source, p.g.leaf, p.g.nodes[y].children[i],
                                                                          k - 1)
    decreases k - 1, 3
  {
    hide Inv, ValidPlan, Discovered, Complete, Meaning, View;
    ChildInside(source, p, y, i);
    ImageMeans(source, p, s, p.g.nodes[y].children[i], k - 1);
  }

  lemma ContainerImage(source: map<Id, Node>, p: Plan, s: Store, y: Id)
    requires Rewritten(source, p, s) && y in p.values && y !in p.g.leaf && y in p.g.nodes && p.g.nodes[y].Container?
    ensures y in s.memo && s.memo[y] in s.heap && Image(s.memo, p.g.nodes[y], s.heap[s.memo[y]])
  {
    Finished(source, p, s, y);
    if y !in p.affected {
      forall i | 0 <= i < |p.g.nodes[y].children| ensures s.memo[p.g.nodes[y].children[i]] == p.g.nodes[y].children[i] {
        assert p.g.nodes[y].children[i] in Kids(p.g, y);
        assert Complete(p, s, p.g.nodes[y].children[i]);
      }
    }
  }

  /** Children of discovered containers are source objects, never rest dicts. */
  lemma ChildInside(source: map<Id, Node>, p: Plan, y: Id, i: nat)
    requires Discovered(source, p.g, p.values) && ValidPlan(p) && y in p.values && y !in p.g.leaf
    requires p.g.nodes[y].Container? && i < |p.g.nodes[y].children|
    ensures p.g.nodes[y].children[i] in source && p.g.nodes[y].children[i] in p.values
  {
    assert p.g.nodes[y].children[i] in Kids(p.g, y);
    hide ValidPlan;
    if y !in source {
      var w :| w in p.g.target && p.g.target[w] == y;
      TargetInside(source, p, w);
      SourceNodeIsBound(source, p, w);
    } else {
      SourceNodeIsBound(source, p, y);
    }
  }

  lemma SourceNodeIsBound(source: map<Id, Node>, p: Plan, x: Id)
    requires Discovered(source, p.g, p.values) && x in source
    ensures BoundNode(source, source[x]) && x in p.g.nodes && p.g.nodes[x] == source[x]
  {
  }

  // ------------------------------------------------------- sharing, frame, identity

  /**
   Two references mean one object of the result exactly when they resolve to one
   object of the input (leaf references excepted: those belong to the host).
   */
  lemma SharingPreserved(source: map<Id, Node>, p: Plan, s: Store, a: Id, b: Id, x: Id, y: Id)
    requires Rewritten(source, p, s) && a in p.values && b in p.values
    requires ResolvesTo(p.g, a, x) && ResolvesTo(p.g, b, y) && x !in p.g.leaf && y !in p.g.leaf
    ensures s.memo[a] == s.memo[b] <==> x == y
  {
    hide Discovered, Nest, Inv;
    var i: nat :| Resolve(p.g, a, i) == Some(x);
    var j: nat :| Resolve(p.g, b, j) == Some(y);
    ImageOfResolved(p, s, {}, a, x, i);
    ImageOfResolved(p, s, {}, b, y, j);
    ResolvedEnds(p, a, x, i);
    ResolvedEnds(p, b, y, j);
    if x != y { ImagesDiffer(p, s, x, y); }
  }

  /** Two objects that neither wrappers nor leaf replacements stand for have images of their own. */
  lemma ImagesDiffer(p: Plan, s: Store, x: Id, y: Id)
    requires Inv(p, s, {}) && x in s.memo && y in s.memo && x != y && !Replaced(p.g, x) && !Replaced(p.g, y)
    requires p.affected <= p.values <= p.g.nodes.Keys
    ensures s.memo[x] != s.memo[y]
  {
    hide AllSound;
    ImageKind(p, s, x);
    ImageKind(p, s, y);
    hide AllComplete, Domain, Extends;
  }

  lemma ImageKind(p: Plan, s: Store, x: Id)
    requires Inv(p, s, {}) && x in s.memo && !Replaced(p.g, x) && p.affected <= p.values <= p.g.nodes.Keys
    ensures if x in p.affected then s.memo[x] in s.origin && s.origin[s.memo[x]] == x && s.memo[x] !in p.g.nodes
            else s.memo[x] == x && x in p.g.nodes
  {
    hide AllSound;
    assert Complete(p, s, x);
  }

  /** Objects from which no replacement is reachable are returned themselves; all others are never. */
  lemma IdentityPreserved(source: map<Id, Node>, p: Plan, s: Store, x: Id)
    requires Rewritten(source, p, s) && x in p.values && x !in p.g.target && x !in p.g.leaf
    requires IsAffected(p.g, p.values, p.affected)
    ensures s.memo[x] == x <==> !Touched(p.g, x)
    ensures Touched(p.g, x) ==> s.memo[x] !in p.g.nodes
  {
    hide Discovered, Nest;
    assert Complete(p, s, x);
  }

  /** No source object is written, and each new object is one rebuilt container or one rest dict. */
  lemma OnlyNeededObjects(source: map<Id, Node>, p: Plan, s: Store, n: Id)
    requires Rewritten(source, p, s) && n in s.heap
    ensures n in source ==> s.heap[n] == source[n]
    ensures n !in source ==>
      (exists w :: w in p.g.target && p.g.target[w] == n)
      != (exists x :: Rebuilt(p, x) && x in s.memo && s.memo[x] == n)
  {
    if n !in source {
      if n in p.g.nodes {
        var w :| w in p.g.target && p.g.target[w] == n;
      } else {
        assert Rebuilt(p, s.origin[n]);
      }
    }
  }

  // --------------------------------------------------------------- the whole rewrite

  lemma PlanIsValid(source: map<Id, Node>, g: Graph, values: set<Id>, affected: set<Id>)
    requires Discovered(source, g, values) && IsAffected(g, values, affected) && ClosedSet(g, values)
    ensures ValidPlan(Plan(g, values, affected))
  {
    AffectedFacts(g, values, affected);
    DiscoveredFacts(source, g, values);
    hide Discovered, IsAffected;
  }

  lemma AffectedFacts(g: Graph, values: set<Id>, affected: set<Id>)
    requires IsAffected(g, values, affected) && ClosedSet(g, values)
    ensures forall x | x in values :: forall c | c in Kids(g, x) :: c in values && (c in affected ==> x in affected)
    ensures forall x | x in affected :: Replaced(g, x) || Kids(g, x) != []
    ensures forall x | x in values && Replaced(g, x) :: x in affected
    ensures affected <= values
  {
    forall x | x in values && Replaced(g, x) ensures x in affected { ReachesSelf(g, x); }
    forall x | x in values ensures forall c | c in Kids(g, x) :: c in values && (c in affected ==> x in affected) {
      forall c | c in Kids(g, x) && c in affected ensures x in affected { TouchedCons(g, x, c); }
    }
    forall x | x in affected ensures Replaced(g, x) || Kids(g, x) != [] { TouchedHasKids(g, x); }
  }

  lemma DiscoveredFacts(source: map<Id, Node>, g: Graph, values: set<Id>)
    requires Discovered(source, g, values)
    ensures values <= g.nodes.Keys
    ensures forall x | x in values && Kids(g, x) != [] && !Replaced(g, x) :: g.nodes[x].Container?
    ensures forall x | x in g.leaf :: x !in g.target && g.leaf[x] in g.nodes
    ensures forall w | w in g.target :: w in values && g.nodes[w].Wrapper? && g.target[w] in Kids(g, w)
    ensures forall x | x in values && g.nodes[x].Container? ::
      x !in g.target && KeyedRight(g.nodes[x].kind, g.nodes[x].keys, g.nodes[x].children)
    ensures forall x | x in values && g.nodes[x].Container? && x !in g.leaf :: Kids(g, x) == g.nodes[x].children
  {
    forall x | x in values && g.nodes[x].Container?
      ensures KeyedRight(g.nodes[x].kind, g.nodes[x].keys, g.nodes[x].children)
    {
      assert BoundNode(g.nodes, g.nodes[x]);
    }
  }

  lemma TouchedHasKids(g: Graph, x: Id)
    requires Touched(g, x)
    ensures Replaced(g, x) || Kids(g, x) != []
  {
    var y :| Reaches(g, x, y) && Replaced(g, y);
    var w :| WalkFromTo(g, w, x, y);
    if |w| > 1 { assert w[1] in Kids(g, w[0]); }
  }

  /** Once the root has an image, so has everything reachable from it. */
  lemma EverythingConverted(p: Plan, s: Store, root: Id)
    requires ValidPlan(p) && Inv(p, s, {}) && root in s.memo
    requires forall x :: x in p.values <==> Reaches(p.g, root, x)
    ensures s.memo.Keys == p.values
  {
    forall x | x in s.memo ensures forall c | c in Kids(p.g, x) :: c in s.memo {
      ChildrenConverted(p, s, x);
    }
    forall x | x in p.values ensures x in s.memo {
      var w :| WalkFromTo(p.g, w, root, x);
      ClosedUnderWalks(p.g, s.memo.Keys, w);
    }
  }

  lemma ChildrenConverted(p: Plan, s: Store, x: Id)
    requires ValidPlan(p) && Inv(p, s, {}) && x in s.memo
    ensures forall c | c in Kids(p.g, x) :: c in s.memo
  {
    assert Complete(p, s, x);
    if Rebuilt(p, x) {
      forall c | c in Kids(p.g, x) ensures c in s.memo {
        var i :| 0 <= i < |p.g.nodes[x].children| && p.g.nodes[x].children[i] == c;
      }
    }
  }

  /** A call depth that suffices whenever no tuples need each other in a cycle. */
  function EnoughDepth(p: Plan): nat { |p.affected| * (|p.affected| + 1) + |p.affected| + 1 }

  lemma {:induction false} UniformLimit(p: Plan, xs: set<Id>) returns (limit: nat)
    requires forall x | x in xs :: x in p.g.target || Sound(p, x)
    requires forall x | x in xs && x in p.g.target :: x in p.g.nodes && p.g.nodes[x].Wrapper?
    ensures forall x | x in xs :: Nest(p.g, p.affected, x, limit)
  {
    if xs == {} { return 0; }
    var x :| x in xs;
    var rest := UniformLimit(p, xs - {x});
    var k: nat := 0;
    if x !in p.g.target {
      assert Sound(p, x);
      ResolvesSelf(p.g, x);
      k :| Nest(p.g, p.affected, x, k);
    }
    limit := if k > rest then k else rest;
    forall y | y in xs ensures Nest(p.g, p.affected, y, limit) {
      NestMonotone(p.g, p.affected, y, if y == x then k else rest, limit);
    }
  }

  lemma DepthSuffices(p: Plan, memo: map<Id, Id>, root: Id, depth: nat)
    requires ValidPlan(p) && root in p.values && NoTupleCycle(p.g, p.affected) && depth >= EnoughDepth(p)
    ensures var limit := |p.affected|; Shallow(p, root, limit, limit) && DeepEnough(p, memo, depth, limit, limit)
  {
    var limit := |p.affected|;
    NestsExactly(p.g, p.affected, p.values, limit);
    hide Nest, NoTupleCycle;
    forall y: Id | ResolvesTo(p.g, root, y) ensures Nest(p.g, p.affected, y, limit) {
      var fuel: nat :| Resolve(p.g, root, fuel) == Some(y);
      ResolvedStaysInside(p, root, y, fuel);
    }
    Covers(|Unfilled(p, memo)|, |p.affected|, limit + 1) by { Smaller(Unfilled(p, memo), p.affected); }
  }

  /** If every object is sound, there is no cycle of tuples. */
  lemma SoundHasNoCycle(p: Plan)
    requires ValidPlan(p) && forall x | x in p.values :: Sound(p, x)
    ensures NoTupleCycle(p.g, p.affected)
  {
    var limit := UniformLimit(p, p.values);
    NestsExactly(p.g, p.affected, p.values, limit);
  }

  lemma Covers(a: nat, b: nat, m: nat)
    requires a <= b
    ensures a * m <= b * m
  {
    assert (b - a) * m >= 0;
  }

  /**
   Rewrite the graph below `root`.  `plan` and `s` are what the phases left behind.
   Success means that every reachable wrapper stands for something and that every
   cycle passes through a dict or list.  If every cycle does, a depth of about the
   square of the affected objects suffices: then the cyclic-wrapper error is raised
   exactly if some reachable chain consists of wrappers only and repeats, and no
   other way to fail is left.
   */
  method NormalizeNative(source: map<Id, Node>, leaf: map<Id, Id>, next: Id, root: Id, depth: nat)
    returns (out: Outcome, heap: map<Id, Node>, ghost plan: Plan, ghost s: Store)
    requires WellFormed(source, leaf) && FreshFrom(source, next) && root in source
    ensures Discovered(source, plan.g, plan.values) && IsAffected(plan.g, plan.values, plan.affected)
    ensures plan.g.leaf == leaf
    ensures forall x :: x in plan.values <==> Reaches(plan.g, root, x)
    ensures Extends(source, heap)
    ensures out.Done? ==> Rewritten(source, plan, s) && s.heap == heap && root in s.memo && s.memo[root] == out.ref
    ensures out.Done? ==> forall k: nat :: View(heap, out.ref, k) == Meaning(source, leaf, root, k)
    ensures out.Done? ==> AllMeaningful(plan)
    ensures out.CyclicWrapper? ==> out.at in plan.values && Circular(plan.g, out.at)
    ensures NoTupleCycle(plan.g, plan.affected) && depth >= EnoughDepth(plan) ==>
      !out.RecursionLimit? && (out.CyclicWrapper? <==> exists x :: x in plan.values && Circular(plan.g, x))
  {
    var d := new Discovery(source, leaf, next);
    d.Discover(root);
    var g := d.Seen();
    ReachesSelf(g, root);
    var affected := CloseAffected(g, d.values, d.parents);
    plan := Plan(g, d.values, affected);
    PlanIsValid(source, g, d.values, affected);
    hide Inv, ValidPlan, Discovered, Meaning, View, IsAffected, EnoughDepth, AllMeaningful, Inverts, NoTupleCycle,
         Circular, Resolvable;
    out, heap, s := Rebuild(g, d.values, affected, d.next, root, depth);
    ExtendsTransitive(source, g, d.values, heap);
    if out.CyclicWrapper? { CircularExactly(g, out.at); }
    if out.Done? {
      Conclude(source, plan, s, root);
      NoneCircular(plan);
    }
  }

  /** The rebuild, run on the whole graph. */
  method Rebuild(g: Graph, values: set<Id>, affected: set<Id>, next: Id, root: Id, depth: nat)
    returns (out: Outcome, heap: map<Id, Node>, ghost s: Store)
    requires ValidPlan(Plan(g, values, affected)) && FreshFrom(g.nodes, next) && root in values
    ensures var plan := Plan(g, values, affected);
      && Extends(g.nodes, heap)
      && (out.Done? ==> Inv(plan, s, {}) && s.heap == heap && root in s.memo && s.memo[root] == out.ref)
      && (out.CyclicWrapper? ==> out.at in values && !Resolvable(g, out.at))
      && (NoTupleCycle(g, affected) && depth >= EnoughDepth(plan) ==> !out.RecursionLimit?)
  {
    ghost var plan := Plan(g, values, affected);
    var c := new Converter(g, values, affected, next);
    ghost var limit := |affected|;
    if NoTupleCycle(g, affected) && depth >= EnoughDepth(plan) { DepthSuffices(plan, c.memo, root, depth); }
    hide Inv, ValidPlan, Shallow, DeepEnough, EnoughDepth, NoTupleCycle;
    out := c.Convert(root, depth, {}, limit, limit);
    heap, s := c.heap, c.Now();
  }

  lemma NoneCircular(p: Plan)
    requires AllMeaningful(p)
    ensures !exists x :: x in p.values && Circular(p.g, x)
  {
    hide Circular, Resolvable, NoTupleCycle;
    forall x | x in p.values ensures !Circular(p.g, x) { CircularExactly(p.g, x); }
  }

  /** Every object stands for something, and every cycle passes through a dict or list. */
  ghost predicate AllMeaningful(p: Plan) {
    NoTupleCycle(p.g, p.affected) && forall x | x in p.values :: Resolvable(p.g, x)
  }

  lemma ExtendsTransitive(source: map<Id, Node>, g: Graph, values: set<Id>, heap: map<Id, Node>)
    requires Discovered(source, g, values) && Extends(g.nodes, heap)
    ensures Extends(source, heap)
  {
  }

  lemma Conclude(source: map<Id, Node>, p: Plan, s: Store, root: Id)
    requires Discovered(source, p.g, p.values) && ValidPlan(p) && Inv(p, s, {}) && root in s.memo && root in source
    requires forall x :: x in p.values <==> Reaches(p.g, root, x)
    ensures Rewritten(source, p, s) && AllMeaningful(p)
    ensures forall k: nat :: View(s.heap, s.memo[root], k) == Meaning(source, p.g.leaf, root, k)
  {
    EverythingConverted(p, s, root);
    forall x | x in p.values ensures Sound(p, x) {}
    SoundHasNoCycle(p);
    hide Inv, ValidPlan, Discovered, Meaning, View, NoTupleCycle;
    forall k: nat
      ensures View(s.heap, s.memo[root], k) == Meaning(source, p.g.leaf, root, k)
    {
      ImageMeans(source, p, s, root, k);
    }
  }
}
