/**
 The object graph that native result rewriting walks
 (src/spl/execution_results.py, `_normalize_native`).

 Objects are identities; a heap maps them to nodes.  `leaf` is the oracle of
 leaf replacements (output bindings and adapters): it names, for an object that
 is replaced as a whole, the reference that replaces it.  `target` is filled
 during discovery: it maps a result wrapper to the object it stands for.
 */
module NativeGraph {
  import opened Common

  type Id = nat
  type Key = string

  datatype Kind = Dict | List | Tuple | Set

  datatype Node =
    | Atom                                               // never traversed
    | Container(kind: Kind, keys: seq<Key>, children: seq<Id>)
    | Wrapper(keys: seq<Key>, rest: seq<Id>, result: Option<Id>)
      // a mapping with the artifacts key: its unreserved entries and its result entry

  datatype Graph = Graph(nodes: map<Id, Node>, leaf: map<Id, Id>, target: map<Id, Id>)

  predicate Mutable(k: Kind) { k == Dict || k == List }

  /** The children discovery follows from an object. */
  function Kids(g: Graph, x: Id): seq<Id> {
    if x in g.leaf || x !in g.nodes then []
    else match g.nodes[x]
      case Atom => []
      case Container(_, _, children) => children
      case Wrapper(_, _, _) => if x in g.target then [g.target[x]] else []
  }

  predicate Replaced(g: Graph, x: Id) { x in g.leaf || x in g.target }

  /** A walk along discovered edges. */
  ghost predicate Walk(g: Graph, p: seq<Id>) {
    |p| > 0 && forall i | 0 <= i < |p| - 1 :: p[i + 1] in Kids(g, p[i])
  }

  ghost predicate WalkFromTo(g: Graph, p: seq<Id>, x: Id, y: Id) {
    Walk(g, p) && p[0] == x && p[|p| - 1] == y
  }

  ghost predicate Reaches(g: Graph, x: Id, y: Id) { exists p :: WalkFromTo(g, p, x, y) }

  /** Some replacement can be reached from `x`. */
  ghost predicate Touched(g: Graph, x: Id) { exists y :: Reaches(g, x, y) && Replaced(g, y) }

  lemma ReachesSelf(g: Graph, x: Id)
    ensures Reaches(g, x, x)
  {
    assert WalkFromTo(g, [x], x, x);
  }

  lemma ReachesSnoc(g: Graph, x: Id, y: Id, z: Id)
    requires Reaches(g, x, y) && z in Kids(g, y)
    ensures Reaches(g, x, z)
  {
    var p :| WalkFromTo(g, p, x, y);
    var q := p + [z];
    forall i | 0 <= i < |q| - 1 ensures q[i + 1] in Kids(g, q[i]) {
      if i < |p| - 1 { assert q[i] == p[i] && q[i + 1] == p[i + 1]; }
    }
    assert WalkFromTo(g, q, x, z);
  }

  lemma TouchedCons(g: Graph, x: Id, y: Id)
    requires y in Kids(g, x) && Touched(g, y)
    ensures Touched(g, x)
  {
    var z :| Reaches(g, y, z) && Replaced(g, z);
    var p :| WalkFromTo(g, p, y, z);
    var q := [x] + p;
    forall i | 0 <= i < |q| - 1 ensures q[i + 1] in Kids(g, q[i]) {
      if i > 0 { assert q[i] == p[i - 1] && q[i + 1] == p[i]; }
    }
    assert WalkFromTo(g, q, x, z);
  }

  /** A set closed under edges keeps every walk that starts in it. */
  lemma {:induction false} ClosedUnderWalks(g: Graph, s: set<Id>, p: seq<Id>)
    requires Walk(g, p) && p[0] in s
    requires forall x | x in s :: forall y | y in Kids(g, x) :: y in s
    ensures p[|p| - 1] in s
  {
    if |p| > 1 {
      var q := p[1..];
      forall i | 0 <= i < |q| - 1 ensures q[i + 1] in Kids(g, q[i]) {
        assert q[i] == p[i + 1] && q[i + 1] == p[i + 2];
      }
      assert p[1] in Kids(g, p[0]);
      ClosedUnderWalks(g, s, q);
    }
  }

  /** A set closed under parents keeps every walk that ends in it. */
  lemma {:induction false} ClosedUnderParents(g: Graph, s: set<Id>, all: set<Id>, p: seq<Id>)
    requires Walk(g, p) && p[|p| - 1] in s && p[0] in all
    requires forall x | x in all :: forall y | y in Kids(g, x) :: y in all && (y in s ==> x in s)
    ensures p[0] in s
  {
    if |p| > 1 {
      var q := p[1..];
      forall i | 0 <= i < |q| - 1 ensures q[i + 1] in Kids(g, q[i]) {
        assert q[i] == p[i + 1] && q[i + 1] == p[i + 2];
      }
      assert p[1] in Kids(g, p[0]);
      ClosedUnderParents(g, s, all, q);
    }
  }

  lemma ReachesMonotone(g: Graph, h: Graph, x: Id, y: Id)
    requires Reaches(g, x, y)
    requires forall v, w | w in Kids(g, v) :: w in Kids(h, v)
    ensures Reaches(h, x, y)
  {
    var p :| WalkFromTo(g, p, x, y);
    assert WalkFromTo(h, p, x, y);
  }

  lemma {:induction false} DifferentFit(p: seq<Id>, s: set<Id>)
    requires (forall i | 0 <= i < |p| :: p[i] in s) && forall i, j | 0 <= i < j < |p| :: p[i] != p[j]
    ensures |p| <= |s|
    decreases |p|
  {
    if p != [] { DifferentFit(p[1..], s - {p[0]}); }
  }

  // ------------------------------------------------------------ alias chains

  /** Follow wrappers for at most `fuel` steps. */
  function Resolve(g: Graph, x: Id, fuel: nat): Option<Id>
    decreases fuel
  {
    if x !in g.target then Some(x)
    else if fuel == 0 then None
    else Resolve(g, g.target[x], fuel - 1)
  }

  ghost predicate ResolvesTo(g: Graph, x: Id, y: Id) { exists k: nat :: Resolve(g, x, k) == Some(y) }

  ghost predicate Resolvable(g: Graph, x: Id) { exists y :: ResolvesTo(g, x, y) }

  lemma {:induction false} ResolveUnique(g: Graph, x: Id, j: nat, k: nat)
    requires Resolve(g, x, j).Some? && Resolve(g, x, k).Some?
    ensures Resolve(g, x, j) == Resolve(g, x, k)
    decreases j
  {
    if x in g.target { ResolveUnique(g, g.target[x], j - 1, k - 1); }
  }

  lemma ResolvesToUnique(g: Graph, x: Id, y: Id, z: Id)
    requires ResolvesTo(g, x, y) && ResolvesTo(g, x, z)
    ensures y == z
  {
    var j: nat :| Resolve(g, x, j) == Some(y);
    var k: nat :| Resolve(g, x, k) == Some(z);
    ResolveUnique(g, x, j, k);
  }

  lemma ResolvesSelf(g: Graph, x: Id)
    requires x !in g.target
    ensures ResolvesTo(g, x, x)
  {
    assert Resolve(g, x, 0) == Some(x);
  }

  lemma ResolvesThrough(g: Graph, w: Id, y: Id)
    requires w in g.target
    ensures ResolvesTo(g, w, y) <==> ResolvesTo(g, g.target[w], y)
  {
    if ResolvesTo(g, g.target[w], y) {
      var k: nat :| Resolve(g, g.target[w], k) == Some(y);
      assert Resolve(g, w, k + 1) == Some(y);
    }
    if ResolvesTo(g, w, y) {
      var k: nat :| Resolve(g, w, k) == Some(y);
      assert Resolve(g, g.target[w], k - 1) == Some(y);
    }
  }

  /** A set of wrappers closed under `target` has no way out. */
  lemma {:induction false} ClosedWrappersNeverResolve(g: Graph, s: set<Id>, x: Id, fuel: nat)
    requires x in s
    requires forall w | w in s :: w in g.target && g.target[w] in s
    ensures Resolve(g, x, fuel) == None
    decreases fuel
  {
    if fuel > 0 { ClosedWrappersNeverResolve(g, s, g.target[x], fuel - 1); }
  }

  /** A chain of wrappers only, each standing for the next, that comes back to one of them. */
  ghost predicate CircularChain(g: Graph, chain: seq<Id>) {
    && |chain| > 0 && IsChain(g, chain) && chain[|chain| - 1] in g.target && g.target[chain[|chain| - 1]] in chain
  }

  ghost predicate IsChain(g: Graph, chain: seq<Id>) {
    forall i | 0 <= i < |chain| - 1 :: chain[i] in g.target && g.target[chain[i]] == chain[i + 1]
  }

  ghost predicate Circular(g: Graph, x: Id) { exists chain :: CircularChain(g, chain) && chain[0] == x }

  /** A chain that resolves nowhere comes back to itself. */
  lemma {:induction false} UnresolvedRepeats(g: Graph, chain: seq<Id>)
    requires |chain| > 0 && IsChain(g, chain)
    requires (forall i, j | 0 <= i < j < |chain| :: chain[i] != chain[j]) && !Resolvable(g, chain[|chain| - 1])
    ensures Circular(g, chain[0])
    decreases |g.target| + 1 - |chain|
  {
    var last := chain[|chain| - 1];
    if last !in g.target { ResolvesSelf(g, last); assert false; }
    DifferentFit(chain, g.target.Keys);
    var t := g.target[last];
    if t in chain {
      assert CircularChain(g, chain);
    } else {
      if Resolvable(g, t) {
        var y :| ResolvesTo(g, t, y);
        ResolvesThrough(g, last, y);
        assert false;
      }
      UnresolvedRepeats(g, chain + [t]);
    }
  }

  /** An object stands for nothing exactly if its chain consists of wrappers only and repeats. */
  lemma CircularExactly(g: Graph, x: Id)
    ensures Circular(g, x) <==> !Resolvable(g, x)
  {
    if Circular(g, x) {
      var chain :| CircularChain(g, chain) && chain[0] == x;
      var s := set i | 0 <= i < |chain| :: chain[i];
      forall w | w in s ensures w in g.target && g.target[w] in s {
        var i :| 0 <= i < |chain| && chain[i] == w;
        if i < |chain| - 1 { assert g.target[w] == chain[i + 1]; }
      }
      forall fuel: nat ensures Resolve(g, x, fuel) == None { ClosedWrappersNeverResolve(g, s, x, fuel); }
    } else if !Resolvable(g, x) {
      UnresolvedRepeats(g, [x]);
    }
  }

  // ------------------------------------------- nesting of immutable containers

  ghost predicate Immutable(g: Graph, x: Id) {
    x !in g.leaf && x in g.nodes && g.nodes[x].Container? && !Mutable(g.nodes[x].kind)
  }

  /**
   Tuples and sets nest at most `k` deep below `x` before a dict, a list, a leaf
   or an unchanged object (outside `affected`) ends the descent.
   */
  ghost predicate Nest(g: Graph, affected: set<Id>, x: Id, k: nat)
    decreases k
  {
    x in affected && Immutable(g, x) ==>
      k > 0 && forall c, y | c in g.nodes[x].children && ResolvesTo(g, c, y) :: Nest(g, affected, y, k - 1)
  }

  ghost predicate Grounded(g: Graph, affected: set<Id>, x: Id) {
    forall y | ResolvesTo(g, x, y) :: exists k: nat :: Nest(g, affected, y, k)
  }

  lemma {:induction false} NestMonotone(g: Graph, affected: set<Id>, x: Id, j: nat, k: nat)
    requires Nest(g, affected, x, j) && j <= k
    ensures Nest(g, affected, x, k)
    decreases j
  {
    if x in affected && Immutable(g, x) {
      forall c, y | c in g.nodes[x].children && ResolvesTo(g, c, y) ensures Nest(g, affected, y, k - 1) {
        NestMonotone(g, affected, y, j - 1, k - 1);
      }
    }
  }

  /** Finitely many grounded children share one bound. */
  lemma {:induction false} CommonBound(g: Graph, affected: set<Id>, cs: seq<Id>) returns (k: nat)
    requires forall c | c in cs :: Grounded(g, affected, c)
    ensures forall c, y | c in cs && ResolvesTo(g, c, y) :: Nest(g, affected, y, k)
  {
    if cs == [] { return 0; }
    var j := CommonBound(g, affected, cs[1..]);
    assert Grounded(g, affected, cs[0]);
    if y :| ResolvesTo(g, cs[0], y) {
      var i: nat :| Nest(g, affected, y, i);
      k := if i > j then i else j;
    } else {
      k := j;
    }
    forall c, y | c in cs && ResolvesTo(g, c, y) ensures Nest(g, affected, y, k) {
      if c == cs[0] {
        var z :| ResolvesTo(g, cs[0], z) && exists i: nat :: Nest(g, affected, z, i) && i <= k;
        ResolvesToUnique(g, c, y, z);
        var i: nat :| Nest(g, affected, z, i) && i <= k;
        NestMonotone(g, affected, z, i, k);
      } else {
        assert c in cs[1..];
        NestMonotone(g, affected, y, j, k);
      }
    }
  }

  lemma GroundedFromChildren(g: Graph, affected: set<Id>, x: Id)
    requires x !in g.target
    requires Immutable(g, x) ==> forall c | c in g.nodes[x].children :: Grounded(g, affected, c)
    ensures Grounded(g, affected, x)
  {
    forall y | ResolvesTo(g, x, y) ensures exists k: nat :: Nest(g, affected, y, k) {
      ResolvesSelf(g, x);
      ResolvesToUnique(g, x, x, y);
      if Immutable(g, x) {
        var k := CommonBound(g, affected, g.nodes[x].children);
        assert Nest(g, affected, x, k + 1);
      } else {
        assert Nest(g, affected, x, 0);
      }
    }
  }

  // ------------------------------------------------- cycles through tuples and sets

  /** The rebuild of the tuple or set `x` must rebuild `y` first. */
  ghost predicate Needs(g: Graph, affected: set<Id>, x: Id, y: Id) {
    x in affected && Immutable(g, x) && exists c :: c in g.nodes[x].children && ResolvesTo(g, c, y)
  }

  ghost predicate NeedsInTurn(g: Graph, affected: set<Id>, p: seq<Id>) {
    |p| > 0 && forall i | 0 <= i < |p| - 1 :: Needs(g, affected, p[i], p[i + 1])
  }

  /** Every cycle of resolved children passes through a dict or a list, or changes nothing. */
  ghost predicate NoTupleCycle(g: Graph, affected: set<Id>) {
    forall p | NeedsInTurn(g, affected, p) && |p| > 1 :: p[0] != p[|p| - 1]
  }

  /** Without a cycle, all objects that need each other in turn are different. */
  lemma TurnsDiffer(g: Graph, affected: set<Id>, p: seq<Id>, i: nat, j: nat)
    requires NoTupleCycle(g, affected) && NeedsInTurn(g, affected, p) && i < j < |p|
    ensures p[i] != p[j]
  {
    hide Needs;
    var q := p[i..j + 1];
    forall k | 0 <= k < |q| - 1
      ensures Needs(g, affected, q[k], q[k + 1])
    {
      assert q[k] == p[i + k] && q[k + 1] == p[i + k + 1];
    }
    assert NeedsInTurn(g, affected, q) && q[0] == p[i] && q[|q| - 1] == p[j];
  }

  /** After `|p| - 1` tuples in turn, no more than the remaining affected objects can nest. */
  lemma {:induction false} NestsBelow(g: Graph, affected: set<Id>, p: seq<Id>)
    requires NoTupleCycle(g, affected) && NeedsInTurn(g, affected, p)
    ensures |affected| >= |p| - 1 && Nest(g, affected, p[|p| - 1], |affected| + 1 - |p|)
    decreases |affected| + 1 - |p|
  {
    var n, x := |p| - 1, p[|p| - 1];
    forall i, j | 0 <= i < j < |p| ensures p[i] != p[j] { TurnsDiffer(g, affected, p, i, j); }
    forall i | 0 <= i < n ensures p[..n][i] in affected { assert Needs(g, affected, p[i], p[i + 1]); }
    DifferentFit(p[..n], affected);
    if x in affected && Immutable(g, x) {
      DifferentFit(p, affected);
      forall c, y | c in g.nodes[x].children && ResolvesTo(g, c, y) ensures Nest(g, affected, y, |affected| - |p|) {
        OneMoreTurn(g, affected, p, y);
        NestsBelow(g, affected, p + [y]);
      }
    }
  }

  lemma OneMoreTurn(g: Graph, affected: set<Id>, p: seq<Id>, y: Id)
    requires NeedsInTurn(g, affected, p) && Needs(g, affected, p[|p| - 1], y)
    ensures NeedsInTurn(g, affected, p + [y])
  {
    hide Needs;
  }

  lemma TurnCycle(g: Graph, affected: set<Id>, p: seq<Id>)
    requires NeedsInTurn(g, affected, p) && |p| > 1 && p[0] == p[|p| - 1]
    ensures NeedsInTurn(g, affected, p[1..] + [p[1]])
  {
    hide Needs;
    var q := p[1..] + [p[1]];
    forall i | 0 <= i < |q| - 1 ensures Needs(g, affected, q[i], q[i + 1]) {
      if i < |q| - 2 { assert q[i] == p[i + 1] && q[i + 1] == p[i + 2]; }
    }
  }

  /** A cycle of tuples and sets nests without end. */
  lemma {:induction false} CycleNestsForever(g: Graph, affected: set<Id>, p: seq<Id>, k: nat)
    requires NeedsInTurn(g, affected, p) && |p| > 1 && p[0] == p[|p| - 1]
    ensures !Nest(g, affected, p[0], k)
    decreases k
  {
    assert Needs(g, affected, p[0], p[1]);
    if k > 0 {
      var q := p[1..] + [p[1]];
      TurnCycle(g, affected, p);
      CycleNestsForever(g, affected, q, k - 1);
    }
  }

  /** The nesting of tuples is bounded exactly if it has no cycle, and then by the number of affected objects. */
  lemma NestsExactly(g: Graph, affected: set<Id>, values: set<Id>, limit: nat)
    requires affected <= values
    ensures NoTupleCycle(g, affected) ==> forall x | x in values :: Nest(g, affected, x, |affected|)
    ensures (forall x | x in values :: Nest(g, affected, x, limit)) ==> NoTupleCycle(g, affected)
  {
    hide Needs, Nest;
    if NoTupleCycle(g, affected) {
      forall x | x in values ensures Nest(g, affected, x, |affected|) { NestsBelow(g, affected, [x]); }
    }
    if forall x | x in values :: Nest(g, affected, x, limit) {
      forall p | NeedsInTurn(g, affected, p) && |p| > 1 ensures p[0] != p[|p| - 1] {
        StartsAffected(g, affected, p);
        if p[0] == p[|p| - 1] { CycleNestsForever(g, affected, p, limit); }
      }
    }
  }

  lemma StartsAffected(g: Graph, affected: set<Id>, p: seq<Id>)
    requires NeedsInTurn(g, affected, p) && |p| > 1
    ensures p[0] in affected
  {
    assert Needs(g, affected, p[0], p[1]);
  }
}
