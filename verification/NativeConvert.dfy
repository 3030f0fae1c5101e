/**
 The last phase of native result rewriting: the memoised rebuild
 (src/spl/execution_results.py, `convert` inside `_normalize_native`).

 `Convert` carries the host's recursion limit as `depth`, so it is total: it
 ends in a reference, in the cyclic-wrapper error, or in the recursion limit.
 */
module NativeConvert {
  import opened Common
  import opened NativeGraph
  import opened NativeDiscovery

  datatype Outcome = Done(ref: Id) | CyclicWrapper(at: Id) | RecursionLimit

  /** What does not change while objects are rebuilt. */
  datatype Plan = Plan(g: Graph, values: set<Id>, affected: set<Id>)

  /** What does: the heap, the memo, and which object each new object stands for. */
  datatype Store = Store(heap: map<Id, Node>, memo: map<Id, Id>, origin: map<Id, Id>)

  ghost predicate ValidPlan(p: Plan) {
    && p.affected <= p.values <= p.g.nodes.Keys
    && (forall x | x in p.values :: forall c | c in Kids(p.g, x) ::
         c in p.values && (c in p.affected ==> x in p.affected))
    && (forall x | x in p.affected :: Replaced(p.g, x) || p.g.nodes[x].Container?)
    && (forall x | x in p.values && Replaced(p.g, x) :: x in p.affected)
    && (forall x | x in p.g.leaf :: x !in p.g.target && p.g.leaf[x] in p.g.nodes)
    && (forall w | w in p.g.target :: w in p.values && p.g.nodes[w].Wrapper? && p.g.target[w] in Kids(p.g, w))
    && (forall x | x in p.values && p.g.nodes[x].Container? && x !in p.g.leaf ::
         x !in p.g.target && Kids(p.g, x) == p.g.nodes[x].children)
    && (forall x | x in p.values && p.g.nodes[x].Container? ::
         KeyedRight(p.g.nodes[x].kind, p.g.nodes[x].keys, p.g.nodes[x].children))
  }

  /** A container that must be built anew. */
  predicate Rebuilt(p: Plan, x: Id) { x in p.affected && !Replaced(p.g, x) }

  /** `n` is the image of container `m` under `memo`: same kind, keys, child order. */
  ghost predicate Image(memo: map<Id, Id>, m: Node, n: Node)
    requires m.Container?
  {
    && n.Container? && n.kind == m.kind && n.keys == m.keys
    && |n.children| == |m.children|
    && forall i | 0 <= i < |m.children| :: m.children[i] in memo && n.children[i] == memo[m.children[i]]
  }

  ghost predicate Complete(p: Plan, s: Store, x: Id)
    requires x in s.memo
  {
    if x in p.g.target then p.g.target[x] in s.memo && s.memo[x] == s.memo[p.g.target[x]]
    else if x in p.g.leaf then s.memo[x] == p.g.leaf[x]
    else if x !in p.affected then s.memo[x] == x
    else x in p.g.nodes && p.g.nodes[x].Container? && s.memo[x] in s.heap
         && Image(s.memo, p.g.nodes[x], s.heap[s.memo[x]])
  }

  /** Objects allocated during the rebuild and rebuilt containers match one to one. */
  ghost predicate OneToOne(p: Plan, s: Store) {
    && s.origin.Keys == s.heap.Keys - p.g.nodes.Keys
    && (forall x | x in s.memo && Rebuilt(p, x) :: s.memo[x] in s.origin && s.origin[s.memo[x]] == x)
    && (forall n | n in s.origin :: Rebuilt(p, s.origin[n]) && s.origin[n] in s.memo && s.memo[s.origin[n]] == n)
  }

  ghost predicate Sound(p: Plan, x: Id) { Resolvable(p.g, x) && Grounded(p.g, p.affected, x) }

  ghost predicate AllSound(p: Plan, memo: map<Id, Id>) { forall x | x in memo :: Sound(p, x) }

  ghost predicate AllComplete(p: Plan, s: Store, open: set<Id>) {
    forall x | x in s.memo && x !in open :: Complete(p, s, x)
  }

  ghost predicate Domain(p: Plan, memo: map<Id, Id>, open: set<Id>) {
    open <= memo.Keys <= p.values && p.values - p.affected <= memo.Keys && forall x | x in open :: !Replaced(p.g, x)
  }

  /** The invariant of the rebuild; `open` are the dicts and lists still being filled. */
  ghost predicate Inv(p: Plan, s: Store, open: set<Id>) {
    && Extends(p.g.nodes, s.heap)
    && Domain(p, s.memo, open)
    && AllComplete(p, s, open)
    && AllSound(p, s.memo)
    && OneToOne(p, s)
  }

  /** Later states keep every memo entry and every object that existed before. */
  ghost predicate Later(s: Store, t: Store) {
    Extends(s.heap, t.heap) && s.memo.Keys <= t.memo.Keys && forall x | x in s.memo :: t.memo[x] == s.memo[x]
  }

  function Aliased(memo: map<Id, Id>, aliases: set<Id>, r: Id): map<Id, Id> { memo + map a | a in aliases :: r }

  ghost predicate LeadsOn(t: Id, memo: map<Id, Id>, aliases: set<Id>, cur: Id) {
    t in aliases || t == cur || (t in memo && cur in memo && memo[t] == memo[cur])
  }

  /** The aliases of one conversion: a chain of unmemoised wrappers that ends in `cur`. */
  ghost predicate Chain(p: Plan, memo: map<Id, Id>, aliases: set<Id>, cur: Id) {
    && cur in p.values && aliases <= p.values
    && (forall a | a in aliases :: a !in memo)
    && (forall a | a in aliases && a != cur :: a in p.g.target && LeadsOn(p.g.target[a], memo, aliases, cur))
    && (forall a | a in aliases :: forall y | ResolvesTo(p.g, cur, y) :: ResolvesTo(p.g, a, y))
  }

  // ------------------------------------------------- steps that keep the invariant

  /** A chain is sound when its end is. */
  lemma ChainSound(p: Plan, memo: map<Id, Id>, aliases: set<Id>, cur: Id, r: Id)
    requires Chain(p, memo, aliases, cur) && Sound(p, cur) && AllSound(p, memo)
    ensures AllSound(p, Aliased(memo, aliases, r))
  {
    var y :| ResolvesTo(p.g, cur, y);
    forall a | a in aliases ensures Sound(p, a) {
      assert ResolvesTo(p.g, a, y);
      forall z | ResolvesTo(p.g, a, z) ensures exists k: nat :: Nest(p.g, p.affected, z, k) {
        ResolvesToUnique(p.g, a, y, z);
      }
    }
  }

  /** Memoising a chain completes it, once its end is complete or open. */
  lemma ChainComplete(p: Plan, s: Store, t: Store, open: set<Id>, after: set<Id>, aliases: set<Id>, cur: Id, r: Id)
    requires AllComplete(p, s, open) && Chain(p, s.memo, aliases, cur) && Extends(s.heap, t.heap)
    requires t.memo == Aliased(s.memo, aliases, r) && open <= after
    requires cur in aliases || (cur in s.memo && s.memo[cur] == r)
    requires cur in aliases && cur !in after ==> Complete(p, t, cur)
    ensures AllComplete(p, t, after)
  {
    forall x | x in t.memo && x !in after ensures Complete(p, t, x) {
      if x !in aliases { assert Complete(p, s, x); }
    }
  }

  /** Memoise a chain whose end is already memoised. */
  lemma MemoisedKeepsInv(p: Plan, s: Store, open: set<Id>, aliases: set<Id>, cur: Id)
    requires ValidPlan(p) && Inv(p, s, open) && Chain(p, s.memo, aliases, cur) && cur in s.memo
    ensures var t := s.(memo := Aliased(s.memo, aliases, s.memo[cur])); Inv(p, t, open) && Later(s, t)
  {
    var t := s.(memo := Aliased(s.memo, aliases, s.memo[cur]));
    assert Sound(p, cur);
    ChainSound(p, s.memo, aliases, cur, s.memo[cur]);
    ChainComplete(p, s, t, open, open, aliases, cur, s.memo[cur]);
    ChainOneToOne(p, s, aliases, cur, s.memo[cur]);
  }

  lemma ChainOneToOne(p: Plan, s: Store, aliases: set<Id>, cur: Id, r: Id)
    requires OneToOne(p, s) && Chain(p, s.memo, aliases, cur) && (cur in aliases ==> Replaced(p.g, cur))
    ensures OneToOne(p, s.(memo := Aliased(s.memo, aliases, r)))
  {
  }

  /** Memoise a chain that ends in a leaf replacement. */
  lemma LeafKeepsInv(p: Plan, s: Store, open: set<Id>, aliases: set<Id>, cur: Id)
    requires ValidPlan(p) && Inv(p, s, open) && Chain(p, s.memo, aliases, cur) && cur in aliases && cur in p.g.leaf
    ensures var t := s.(memo := Aliased(s.memo, aliases, p.g.leaf[cur])); Inv(p, t, open) && Later(s, t)
  {
    var t := s.(memo := Aliased(s.memo, aliases, p.g.leaf[cur]));
    ResolvesSelf(p.g, cur);
    GroundedFromChildren(p.g, p.affected, cur);
    ChainSound(p, s.memo, aliases, cur, p.g.leaf[cur]);
    ChainComplete(p, s, t, open, open, aliases, cur, p.g.leaf[cur]);
    ChainOneToOne(p, s, aliases, cur, p.g.leaf[cur]);
  }

  /** Allocate container `cur` as `n` and memoise its chain. */
  ghost function Allocated(s: Store, aliases: set<Id>, cur: Id, n: Id, node: Node): Store {
    Store(s.heap[n := node], Aliased(s.memo, aliases, n), s.origin[n := cur])
  }

  lemma AllocateKeepsOneToOne(p: Plan, s: Store, aliases: set<Id>, cur: Id, n: Id, node: Node)
    requires OneToOne(p, s) && Extends(p.g.nodes, s.heap) && n !in s.heap
    requires Chain(p, s.memo, aliases, cur) && cur in aliases && Rebuilt(p, cur)
    ensures OneToOne(p, Allocated(s, aliases, cur, n, node))
  {
  }

  lemma AllocateKeepsSound(p: Plan, s: Store, aliases: set<Id>, cur: Id, n: Id)
    requires ValidPlan(p) && AllSound(p, s.memo)
    requires Chain(p, s.memo, aliases, cur) && cur in aliases && Rebuilt(p, cur)
    requires Immutable(p.g, cur) ==> forall c | c in p.g.nodes[cur].children :: c in s.memo
    ensures AllSound(p, Aliased(s.memo, aliases, n))
  {
    ResolvesSelf(p.g, cur);
    if Immutable(p.g, cur) {
      forall c | c in p.g.nodes[cur].children ensures Grounded(p.g, p.affected, c) { assert Sound(p, c); }
    }
    GroundedFromChildren(p.g, p.affected, cur);
    ChainSound(p, s.memo, aliases, cur, n);
  }

  lemma AllocateLater(p: Plan, s: Store, open: set<Id>, aliases: set<Id>, cur: Id, n: Id, node: Node)
    requires Domain(p, s.memo, open) && Extends(p.g.nodes, s.heap) && n !in s.heap
    requires Chain(p, s.memo, aliases, cur) && cur in aliases && !Replaced(p.g, cur)
    ensures var t := Allocated(s, aliases, cur, n, node);
            Later(s, t) && Extends(p.g.nodes, t.heap) && Domain(p, t.memo, open) && Domain(p, t.memo, open + {cur})
  {
  }

  /** A dict or list is memoised before its children are converted, and stays open. */
  lemma OpenKeepsInv(p: Plan, s: Store, open: set<Id>, aliases: set<Id>, cur: Id, n: Id, node: Node)
    requires ValidPlan(p) && Inv(p, s, open) && n !in s.heap
    requires Chain(p, s.memo, aliases, cur) && cur in aliases && Rebuilt(p, cur) && !Immutable(p.g, cur)
    ensures var t := Allocated(s, aliases, cur, n, node); Later(s, t) && Inv(p, t, open + {cur})
  {
    AllocateLater(p, s, open, aliases, cur, n, node);
    AllocateKeepsSound(p, s, aliases, cur, n);
    AllocateKeepsOneToOne(p, s, aliases, cur, n, node);
    ChainComplete(p, s, Allocated(s, aliases, cur, n, node), open, open + {cur}, aliases, cur, n);
  }

  /** A tuple or set is built once its children are converted. */
  lemma BuildKeepsInv(p: Plan, s: Store, open: set<Id>, aliases: set<Id>, cur: Id, n: Id, node: Node)
    requires ValidPlan(p) && Inv(p, s, open) && n !in s.heap
    requires Chain(p, s.memo, aliases, cur) && cur in aliases && Rebuilt(p, cur)
    requires Image(s.memo, p.g.nodes[cur], node)
    ensures var t := Allocated(s, aliases, cur, n, node); Later(s, t) && Inv(p, t, open)
  {
    var t := Allocated(s, aliases, cur, n, node);
    AllocateLater(p, s, open, aliases, cur, n, node);
    forall c | c in p.g.nodes[cur].children ensures c in s.memo {
      var i :| 0 <= i < |p.g.nodes[cur].children| && p.g.nodes[cur].children[i] == c;
    }
    AllocateKeepsSound(p, s, aliases, cur, n);
    AllocateKeepsOneToOne(p, s, aliases, cur, n, node);
    assert Complete(p, t, cur) by { ImageLater(s.memo, t.memo, p.g.nodes[cur], node); }
    ChainComplete(p, s, t, open, open, aliases, cur, n);
  }

  lemma ImageLater(before: map<Id, Id>, after: map<Id, Id>, m: Node, n: Node)
    requires m.Container? && Image(before, m, n)
    requires forall x | x in before :: x in after && after[x] == before[x]
    ensures Image(after, m, n)
  {
  }

  /** Writing to the new object of an open container changes no invariant. */
  lemma FillKeepsInv(p: Plan, s: Store, open: set<Id>, cur: Id, node: Node)
    requires ValidPlan(p) && Inv(p, s, open) && cur in open && Rebuilt(p, cur)
    ensures Inv(p, s.(heap := s.heap[s.memo[cur] := node]), open)
  {
    var t := s.(heap := s.heap[s.memo[cur] := node]);
    FillFrame(p, s, cur, node);
    forall x | x in t.memo && x !in open ensures Complete(p, t, x) {
      FillKeepsComplete(p, s, cur, node, x);
    }
  }

  lemma FillFrame(p: Plan, s: Store, cur: Id, node: Node)
    requires Extends(p.g.nodes, s.heap) && OneToOne(p, s) && cur in s.memo && Rebuilt(p, cur)
    ensures var t := s.(heap := s.heap[s.memo[cur] := node]); Extends(p.g.nodes, t.heap) && OneToOne(p, t)
  {
  }

  lemma FillKeepsComplete(p: Plan, s: Store, cur: Id, node: Node, x: Id)
    requires OneToOne(p, s) && cur in s.memo && Rebuilt(p, cur)
    requires x in s.memo && x != cur && Complete(p, s, x)
    ensures Complete(p, s.(heap := s.heap[s.memo[cur] := node]), x)
  {
    if Rebuilt(p, x) { assert s.origin[s.memo[x]] == x; }
  }

  /** A filled container is complete. */
  lemma CloseKeepsInv(p: Plan, s: Store, open: set<Id>, cur: Id)
    requires ValidPlan(p) && Inv(p, s, open) && cur in open && Rebuilt(p, cur)
    requires s.memo[cur] in s.heap && Image(s.memo, p.g.nodes[cur], s.heap[s.memo[cur]])
    ensures Inv(p, s, open - {cur})
  {
  }

  lemma LaterTransitive(s: Store, t: Store, u: Store)
    requires Later(s, t) && Later(t, u)
    ensures Later(s, u)
  {
  }

  // ------------------------------------------------------- how deep it recurses

  predicate Fillable(p: Plan, x: Id) {
    x in p.affected && x !in p.g.leaf && x in p.g.nodes && p.g.nodes[x].Container? && Mutable(p.g.nodes[x].kind)
  }

  /** The dicts and lists not yet memoised. */
  ghost function Unfilled(p: Plan, memo: map<Id, Id>): set<Id> {
    set x | x in p.affected && Fillable(p, x) && x !in memo
  }

  /** `limit` bounds the nesting of tuples and sets everywhere, `k` below `item`. */
  ghost predicate Shallow(p: Plan, item: Id, k: nat, limit: nat) {
    && ShallowEverywhere(p, limit)
    && k <= limit
    && (forall y | ResolvesTo(p.g, item, y) :: Nest(p.g, p.affected, y, k))
  }

  ghost predicate ShallowEverywhere(p: Plan, limit: nat) { forall x | x in p.values :: Nest(p.g, p.affected, x, limit) }

  /** One budget of `limit + 1` calls for every dict or list, and one for the tuples above the next. */
  ghost predicate DeepEnough(p: Plan, memo: map<Id, Id>, depth: nat, k: nat, limit: nat) {
    depth > |Unfilled(p, memo)| * (limit + 1) + k
  }

  lemma UnfilledShrinks(p: Plan, before: map<Id, Id>, after: map<Id, Id>)
    requires before.Keys <= after.Keys
    ensures |Unfilled(p, after)| <= |Unfilled(p, before)|
    ensures forall x | Fillable(p, x) && x in after && x !in before :: |Unfilled(p, after)| < |Unfilled(p, before)|
  {
    Smaller(Unfilled(p, after), Unfilled(p, before));
    forall x | Fillable(p, x) && x in after && x !in before ensures |Unfilled(p, after)| < |Unfilled(p, before)| {
      Smaller(Unfilled(p, after), Unfilled(p, before) - {x});
    }
  }

  lemma Smaller(a: set<Id>, b: set<Id>)
    requires a <= b
    ensures |a| <= |b|
  {
    assert b == a + (b - a);
  }

  /** The children of a dict or list just memoised have enough depth left. */
  lemma DepthBelowMutable(p: Plan, before: map<Id, Id>, after: map<Id, Id>, x: Id, depth: nat, k: nat, limit: nat)
    requires DeepEnough(p, before, depth, k, limit) && before.Keys <= after.Keys && Fillable(p, x) && x in after
    requires x !in before
    ensures depth > 0 && DeepEnough(p, after, depth - 1, limit, limit)
  {
    UnfilledShrinks(p, before, after);
    Scaled(|Unfilled(p, after)|, |Unfilled(p, before)|, limit + 1);
  }

  lemma Scaled(a: nat, b: nat, m: nat)
    requires a < b
    ensures a * m + m <= b * m
  {
    var d: nat := b - a - 1;
    assert b * m == a * m + m + d * m by { assert b == a + 1 + d; }
  }

  lemma DepthLater(p: Plan, before: map<Id, Id>, after: map<Id, Id>, depth: nat, k: nat, limit: nat)
    requires DeepEnough(p, before, depth, k, limit) && before.Keys <= after.Keys
    ensures DeepEnough(p, after, depth, k, limit)
  {
    UnfilledShrinks(p, before, after);
    if |Unfilled(p, after)| < |Unfilled(p, before)| {
      Scaled(|Unfilled(p, after)|, |Unfilled(p, before)|, limit + 1);
    }
  }

  // ------------------------------------------------------------------ the rebuild

  class Converter {
    ghost const plan: Plan
    const leaf: map<Id, Id>
    const target: map<Id, Id>
    var heap: map<Id, Node>
    var next: Id
    var memo: map<Id, Id>
    ghost var origin: map<Id, Id>

    ghost function Now(): Store reads this { Store(heap, memo, origin) }

    ghost predicate Valid(open: set<Id>) reads this {
      ValidPlan(plan) && plan.g.leaf == leaf && plan.g.target == target && Inv(plan, Now(), open)
      && FreshFrom(heap, next)
    }

    constructor (g: Graph, values: set<Id>, affected: set<Id>, next: Id)
      requires ValidPlan(Plan(g, values, affected)) && FreshFrom(g.nodes, next)
      ensures Valid({}) && plan == Plan(g, values, affected) && heap == g.nodes
    {
      plan := Plan(g, values, affected);
      leaf, target, heap, this.next := g.leaf, g.target, g.nodes, next;
      memo, origin := map x | x in values - affected :: x, map[];
      new;
      StartInv(plan, Now());
    }

    /** Follow wrappers from `item` to an object that is memoised or is no wrapper. */
    method ResolveAliases(item: Id) returns (cur: Id, aliases: set<Id>, cyclic: bool)
      requires ValidPlan(plan) && plan.g.target == target && item in plan.values && AllSound(plan, memo)
      ensures cyclic <==> !Resolvable(plan.g, item)
      ensures cyclic ==> cur in plan.values && !Resolvable(plan.g, cur)
      ensures !cyclic ==> Chain(plan, memo, aliases, cur) && (item in aliases || item == cur)
      ensures !cyclic ==> (cur in memo) != (cur in aliases)
      ensures !cyclic && cur !in memo ==> cur !in target
    {
      cur, aliases, cyclic := item, {}, false;
      while cur !in memo
        invariant Open(plan, memo, item, aliases, cur)
        decreases plan.values - aliases
      {
        if cur in aliases {
          NoWayOut(plan.g, aliases, cur);
          NoWayOut(plan.g, aliases, item);
          return cur, aliases, true;
        }
        ghost var before := aliases;
        aliases := aliases + {cur};
        if cur !in target {
          ChainClosed(plan, memo, item, before, cur);
          ResolvesSelf(plan.g, cur);
          ChainResolves(plan, memo, aliases, cur, item);
          return;
        }
        ChainGrows(plan, memo, item, before, cur);
        cur := target[cur];
      }
      assert Sound(plan, cur);
      ChainResolves(plan, memo, aliases, cur, item);
    }

    method Convert(item: Id, depth: nat, ghost open: set<Id>, ghost k: nat, ghost limit: nat) returns (out: Outcome)
      requires Valid(open) && item in plan.values
      modifies `heap, `next, `memo, `origin
      ensures out.Done? ==> Valid(open) && Later(old(Now()), Now()) && item in memo && memo[item] == out.ref
      ensures Extends(plan.g.nodes, heap)
      ensures out.CyclicWrapper? ==> out.at in plan.values && !Resolvable(plan.g, out.at)
      ensures Shallow(plan, item, k, limit) && DeepEnough(plan, old(memo), depth, k, limit) ==> !out.RecursionLimit?
      decreases depth, 0
    {
      if depth == 0 { return RecursionLimit; }
      var cur, aliases, cyclic := ResolveAliases(item);
      if cyclic { return CyclicWrapper(cur); }
      if cur !in memo { Unconverted(plan, Now(), open, cur); }
      hide Inv, ValidPlan, Chain, Later, Shallow, DeepEnough;
      if cur in memo || cur in leaf {
        out := Settle(item, cur, aliases, open);
        return;
      }
      if Mutable(heap[cur].kind) {
        out := ConvertMutable(item, cur, aliases, depth, open, k, limit);
      } else {
        out := ConvertImmutable(item, cur, aliases, depth, open, k, limit);
      }
    }

    /** Memoise aliases whose chain ends in a memoised object or a leaf replacement. */
    method Settle(item: Id, cur: Id, aliases: set<Id>, ghost open: set<Id>) returns (out: Outcome)
      requires Valid(open) && Chain(plan, memo, aliases, cur) && (item in aliases || item == cur)
      requires (cur in memo) != (cur in aliases) && (cur in memo || cur in leaf)
      modifies `heap, `next, `memo, `origin
      ensures out.Done? && Valid(open) && Later(old(Now()), Now()) && item in memo && memo[item] == out.ref
    {
      hide Inv, ValidPlan, Chain, Later;
      if cur in memo {
        MemoisedKeepsInv(plan, Now(), open, aliases, cur);
        out := Done(memo[cur]);
      } else {
        LeafKeepsInv(plan, Now(), open, aliases, cur);
        out := Done(leaf[cur]);
      }
      memo := Aliased(memo, aliases, out.ref);
    }

    /** A dict or list: memoised empty, then extended child by child. */
    method ConvertMutable(item: Id, cur: Id, aliases: set<Id>, depth: nat, ghost open: set<Id>, ghost k: nat,
                          ghost limit: nat)
      returns (out: Outcome)
      requires Valid(open) && depth > 0
      requires Chain(plan, memo, aliases, cur) && cur in aliases && item in aliases && Rebuilt(plan, cur)
      requires Fillable(plan, cur)
      requires cur !in memo
      modifies `heap, `next, `memo, `origin
      ensures out.Done? ==> Valid(open) && Later(old(Now()), Now()) && item in memo && memo[item] == out.ref
      ensures Extends(plan.g.nodes, heap)
      ensures out.CyclicWrapper? ==> out.at in plan.values && !Resolvable(plan.g, out.at)
      ensures Shallow(plan, item, k, limit) && DeepEnough(plan, old(memo), depth, k, limit) ==> !out.RecursionLimit?
      decreases depth - 1, 3
    {
      SourceNode(plan, Now(), open, cur);
      InvDomain(plan, Now(), open);
      hide Inv, ValidPlan, Nest, Fillable, Chain, Domain, Filling, DeepEnough, Later, LaterBut, Extends, Image,
           Allocated;
      ghost var start := Now();
      var children := heap[cur].children;
      var result := Allocate(cur, aliases, open);
      ghost var begun := Now();
      LaterKeys(start, begun);
      if Shallow(plan, item, k, limit) && DeepEnough(plan, start.memo, depth, k, limit) {
        DepthBelowMutable(plan, start.memo, begun.memo, cur, depth, k, limit);
      }
      out := FillAll(cur, result, children, depth - 1, open + {cur}, limit);
      if !out.Done? { return; }
      FilledImage(plan, Now(), cur, result);
      CloseKeepsInv(plan, Now(), open + {cur}, cur);
      LaterButTransitive(start, begun, Now(), result);
      SameOpen(plan, Now(), start.memo, open, cur);
      EntryKept(begun, Now(), item, result);
    }

    /** Fill an open container with the images of its children, in order. */
    method FillAll(cur: Id, result: Id, children: seq<Id>, depth: nat, ghost open: set<Id>, ghost limit: nat)
      returns (out: Outcome)
      requires Valid(open) && cur in open && Rebuilt(plan, cur) && Filling(plan, Now(), cur, result, 0)
      requires children == plan.g.nodes[cur].children
      modifies `heap, `next, `memo, `origin
      ensures out.Done? ==>
        out.ref == result && Valid(open) && LaterBut(old(Now()), Now(), result)
        && Filling(plan, Now(), cur, result, |children|)
      ensures Extends(plan.g.nodes, heap)
      ensures out.CyclicWrapper? ==> out.at in plan.values && !Resolvable(plan.g, out.at)
      ensures ShallowEverywhere(plan, limit) && DeepEnough(plan, old(memo), depth, limit, limit) ==>
        !out.RecursionLimit?
      decreases depth, 2
    {
      hide Inv, ValidPlan, Filling, ShallowEverywhere, DeepEnough, LaterBut, Extends, Rebuilt, Resolvable;
      InvExtends(plan, Now(), open);
      LaterButReflexive(Now(), result);
      ghost var start := Now();
      var i := 0;
      while i < |children|
        invariant 0 <= i <= |children|
        invariant Valid(open) && LaterBut(start, Now(), result) && Filling(plan, Now(), cur, result, i)
        invariant Extends(plan.g.nodes, heap)
      {
        ghost var before := Now();
        if DeepEnough(plan, start.memo, depth, limit, limit) {
          LaterButKeys(start, before, result);
          DepthLater(plan, start.memo, before.memo, depth, limit, limit);
        }
        out := FillNext(cur, result, i, depth, open, limit);
        if !out.Done? { return; }
        LaterButChained(start, before, Now(), result);
        i := i + 1;
      }
      return Done(result);
    }

    /** Allocate an empty dict or list for `cur` and memoise its aliases. */
    method Allocate(cur: Id, aliases: set<Id>, ghost open: set<Id>) returns (result: Id)
      requires Valid(open) && Chain(plan, memo, aliases, cur) && cur in aliases && Rebuilt(plan, cur)
      requires Fillable(plan, cur)
      modifies `heap, `next, `memo, `origin
      ensures Valid(open + {cur}) && Later(old(Now()), Now()) && result !in old(heap)
      ensures Filling(plan, Now(), cur, result, 0)
      ensures memo == Aliased(old(memo), aliases, result)
    {
      hide Inv, Chain, ValidPlan, Later, Filling, Fillable, FreshFrom, Rebuilt, Aliased, Image, Extends, Domain,
           KeyedRight;
      AllocateKeeps(plan, Now(), cur, aliases, open, next);
      result := next;
      heap := heap[result := Container(heap[cur].kind, [], [])];
      next := next + 1;
      memo := Aliased(memo, aliases, result);
      origin := origin[result := cur];
    }

    /** Convert the next child of an open container and append its image. */
    method FillNext(cur: Id, result: Id, i: nat, depth: nat, ghost open: set<Id>, ghost limit: nat)
      returns (out: Outcome)
      requires Valid(open) && cur in open && Rebuilt(plan, cur)
      requires Filling(plan, Now(), cur, result, i) && i < |plan.g.nodes[cur].children|
      modifies `heap, `next, `memo, `origin
      ensures out.Done? ==>
        Valid(open) && LaterBut(old(Now()), Now(), result) && Filling(plan, Now(), cur, result, i + 1)
      ensures Extends(plan.g.nodes, heap)
      ensures out.CyclicWrapper? ==> out.at in plan.values && !Resolvable(plan.g, out.at)
      ensures ShallowEverywhere(plan, limit) && DeepEnough(plan, old(memo), depth, limit, limit) ==>
        !out.RecursionLimit?
      decreases depth, 1
    {
      ChildIn(plan, cur, i);
      RebuiltNode(plan, Now(), open, cur);
      if ShallowEverywhere(plan, limit) { ShallowAnywhere(plan, cur, i, limit); }
      hide Inv, ValidPlan, Chain, Filling, Shallow, ShallowEverywhere, DeepEnough, Later, LaterBut, Extends;
      ghost var start := Now();
      out := Convert(heap[cur].children[i], depth, open, limit, limit);
      if !out.Done? { return; }
      ghost var converted := Now();
      FillingLater(plan, start, converted, cur, result, i);
      Append(cur, result, i, open, out.ref);
      LaterThenBut(start, converted, Now(), result);
      InvExtends(plan, Now(), open);
    }

    /** Append the image of the next child to an open container. */
    method Append(cur: Id, result: Id, i: nat, ghost open: set<Id>, ref: Id)
      requires Valid(open) && cur in open && Rebuilt(plan, cur)
      requires Filling(plan, Now(), cur, result, i) && i < |plan.g.nodes[cur].children|
      requires plan.g.nodes[cur].children[i] in memo && memo[plan.g.nodes[cur].children[i]] == ref
      modifies `heap
      ensures Valid(open) && LaterBut(old(Now()), Now(), result) && Filling(plan, Now(), cur, result, i + 1)
    {
      hide Inv, ValidPlan, Filling, LaterBut, FreshFrom, Grown, Rebuilt, Image, Extends, Domain, KeyedRight;
      AppendKeeps(plan, Now(), cur, result, i, open, next);
      heap := heap[result := Grown(heap[cur], heap[result], i, ref)];
    }

    /** A tuple or set: built after its children, unless a dict or list among them closed a cycle. */
    method ConvertImmutable(item: Id, cur: Id, aliases: set<Id>, depth: nat, ghost open: set<Id>, ghost k: nat,
                            ghost limit: nat)
      returns (out: Outcome)
      requires Valid(open) && depth > 0
      requires Chain(plan, memo, aliases, cur) && cur in aliases && item in aliases && Rebuilt(plan, cur)
      requires Immutable(plan.g, cur)
      modifies `heap, `next, `memo, `origin
      ensures out.Done? ==> Valid(open) && Later(old(Now()), Now()) && item in memo && memo[item] == out.ref
      ensures Extends(plan.g.nodes, heap)
      ensures out.CyclicWrapper? ==> out.at in plan.values && !Resolvable(plan.g, out.at)
      ensures Shallow(plan, item, k, limit) && DeepEnough(plan, old(memo), depth, k, limit) ==> !out.RecursionLimit?
      decreases depth - 1, 2
    {
      var children := heap[cur].children;
      var refs := [];
      while |refs| < |children|
        invariant |refs| <= |children|
        invariant Valid(open) && Later(old(Now()), Now())
        invariant Collected(memo, children, refs)
      {
        if Shallow(plan, item, k, limit) && DeepEnough(plan, old(memo), depth, k, limit) {
          DepthLater(plan, old(memo), memo, depth, k, limit);
          ShallowBelow(plan, old(memo), item, aliases, cur, |refs|, k, limit);
        }
        ghost var before := Now();
        ChildIn(plan, cur, |refs|);
        out := Convert(children[|refs|], depth - 1, open, if k > 0 then k - 1 else 0, limit);
        if !out.Done? { return; }
        LaterTransitive(old(Now()), before, Now());
        CollectedStep(before.memo, memo, children, refs, out.ref);
        refs := refs + [out.ref];
      }
      ChainAfterwards(plan, old(Now()), Now(), open, aliases, cur);
      ghost var before := Now();
      out := Build(item, cur, aliases, open, refs);
      LaterTransitive(old(Now()), before, Now());
    }

    /** Memoise the tuple or set `cur`: a new one over `refs`, or the one a cycle already built. */
    method Build(item: Id, cur: Id, aliases: set<Id>, ghost open: set<Id>, refs: seq<Id>) returns (out: Outcome)
      requires Valid(open) && item in aliases && cur in aliases && Rebuilt(plan, cur) && Immutable(plan.g, cur)
      requires Collected(memo, plan.g.nodes[cur].children, refs) && |refs| == |plan.g.nodes[cur].children|
      requires Rejoined(plan, memo, aliases, cur)
      modifies `heap, `next, `memo, `origin
      ensures out.Done? && Valid(open) && Later(old(Now()), Now()) && item in memo && memo[item] == out.ref
    {
      hide Inv, ValidPlan, Chain, Later;
      if cur in memo {
        var result := memo[cur];
        MemoisedKeepsInv(plan, Now(), open, aliases - memo.Keys, cur);
        memo := Aliased(memo, aliases, result);
        out := Done(result);
      } else {
        out := BuildNew(cur, aliases, open, refs);
      }
    }

    method BuildNew(cur: Id, aliases: set<Id>, ghost open: set<Id>, refs: seq<Id>) returns (out: Outcome)
      requires Valid(open) && cur in aliases && Rebuilt(plan, cur) && Immutable(plan.g, cur)
      requires Collected(memo, plan.g.nodes[cur].children, refs) && |refs| == |plan.g.nodes[cur].children|
      requires Chain(plan, memo, aliases, cur)
      modifies `heap, `next, `memo, `origin
      ensures out.Done? && Valid(open) && Later(old(Now()), Now())
      ensures memo == Aliased(old(memo), aliases, out.ref)
    {
      hide Inv, ValidPlan, Chain, Later, FreshFrom, Immutable, Collected, Rebuilt, Aliased, Image, Extends, Domain,
           KeyedRight;
      BuildKeeps(plan, Now(), cur, aliases, open, refs, next);
      var result := next;
      heap := heap[result := Container(heap[cur].kind, [], refs)];
      next := next + 1;
      origin := origin[result := cur];
      memo := Aliased(memo, aliases, result);
      out := Done(result);
    }
  }

  lemma InvDomain(p: Plan, s: Store, open: set<Id>)
    requires Inv(p, s, open)
    ensures Domain(p, s.memo, open)
  {
  }

  lemma InvExtends(p: Plan, s: Store, open: set<Id>)
    requires Inv(p, s, open)
    ensures Extends(p.g.nodes, s.heap)
  {
  }

  lemma RebuiltNode(p: Plan, s: Store, open: set<Id>, cur: Id)
    requires ValidPlan(p) && Inv(p, s, open) && Rebuilt(p, cur)
    ensures cur in p.g.nodes && cur in s.heap && s.heap[cur] == p.g.nodes[cur] && s.heap[cur].Container?
  {
  }

  lemma ResultNode(p: Plan, s: Store, cur: Id, result: Id, i: nat)
    requires Filling(p, s, cur, result, i)
    ensures result in s.heap && s.heap[result].Container? && cur in s.memo && s.memo[cur] == result
  {
  }

  /** A container with one more child, and its key if it is a dict. */
  function Grown(m: Node, n: Node, i: nat, ref: Id): Node
    requires m.Container? && n.Container? && (m.kind == Dict ==> i < |m.keys|)
  {
    Container(m.kind, if m.kind == Dict then m.keys[..i + 1] else [], n.children + [ref])
  }

  /** What appending to an open container keeps. */
  lemma AppendKeeps(p: Plan, s: Store, cur: Id, result: Id, i: nat, open: set<Id>, next: Id)
    requires ValidPlan(p) && Inv(p, s, open) && FreshFrom(s.heap, next) && cur in open && Rebuilt(p, cur)
    requires Filling(p, s, cur, result, i) && i < |p.g.nodes[cur].children| && p.g.nodes[cur].children[i] in s.memo
    ensures cur in s.heap && result in s.heap && s.heap[cur].Container? && s.heap[result].Container?
    ensures (s.heap[cur].kind == Dict ==> i < |s.heap[cur].keys|)
    ensures var t :=
      s.(heap := s.heap[result := Grown(s.heap[cur], s.heap[result], i, s.memo[p.g.nodes[cur].children[i]])]);
            Inv(p, t, open) && FreshFrom(t.heap, next) && LaterBut(s, t, result) && Filling(p, t, cur, result, i + 1)
  {
    ChildIn(p, cur, i);
    RebuiltNode(p, s, open, cur);
    ResultNode(p, s, cur, result, i);
    var grown := Grown(s.heap[cur], s.heap[result], i, s.memo[p.g.nodes[cur].children[i]]);
    hide Inv, ValidPlan, Filling, LaterBut, FreshFrom;
    FillingStep(p, s, cur, result, i, grown);
    FillKeepsInv(p, s, open, cur, grown);
    GrownIsFresh(s.heap, result, grown, next);
  }

  /** What allocating an empty dict or list keeps. */
  lemma AllocateKeeps(p: Plan, s: Store, cur: Id, aliases: set<Id>, open: set<Id>, next: Id)
    requires ValidPlan(p) && Inv(p, s, open) && FreshFrom(s.heap, next)
    requires Chain(p, s.memo, aliases, cur) && cur in aliases && Rebuilt(p, cur) && Fillable(p, cur)
    ensures cur in s.heap && s.heap[cur].Container? && next !in s.heap
    ensures var t := Allocated(s, aliases, cur, next, Container(s.heap[cur].kind, [], []));
            Inv(p, t, open + {cur}) && FreshFrom(t.heap, next + 1) && Later(s, t) && Filling(p, t, cur, next, 0)
  {
    SourceNode(p, s, open, cur);
    AllocatedIsFresh(s.heap, next, Container(s.heap[cur].kind, [], []));
    FillingStart(p, s, aliases, cur, next);
    hide Inv, ValidPlan, Chain, Fillable, Filling, Later, FreshFrom;
    OpenKeepsInv(p, s, open, aliases, cur, next, Container(s.heap[cur].kind, [], []));
  }

  /** What building a tuple or set keeps. */
  lemma BuildKeeps(p: Plan, s: Store, cur: Id, aliases: set<Id>, open: set<Id>, refs: seq<Id>, next: Id)
    requires ValidPlan(p) && Inv(p, s, open) && FreshFrom(s.heap, next)
    requires Chain(p, s.memo, aliases, cur) && cur in aliases && Rebuilt(p, cur) && Immutable(p.g, cur)
    requires Collected(s.memo, p.g.nodes[cur].children, refs) && |refs| == |p.g.nodes[cur].children|
    ensures cur in s.heap && s.heap[cur].Container? && next !in s.heap
    ensures var t := Allocated(s, aliases, cur, next, Container(s.heap[cur].kind, [], refs));
            Inv(p, t, open) && FreshFrom(t.heap, next + 1) && Later(s, t)
  {
    RebuiltNode(p, s, open, cur);
    CollectedImage(p, s.memo, cur, refs);
    AllocatedIsFresh(s.heap, next, Container(s.heap[cur].kind, [], refs));
    hide Inv, ValidPlan, Chain, Image, Later, FreshFrom;
    BuildKeepsInv(p, s, open, aliases, cur, next, Container(s.heap[cur].kind, [], refs));
  }

  lemma GrownIsFresh(heap: map<Id, Node>, result: Id, grown: Node, next: Id)
    requires FreshFrom(heap, next) && result in heap
    ensures FreshFrom(heap[result := grown], next)
  {
  }

  lemma SourceNode(p: Plan, s: Store, open: set<Id>, cur: Id)
    requires Inv(p, s, open) && Fillable(p, cur)
    ensures cur in p.g.nodes && cur in s.heap && s.heap[cur] == p.g.nodes[cur] && s.heap[cur].Container?
    ensures !Immutable(p.g, cur)
  {
  }

  /** An object that is neither memoised nor replaced is a container to rebuild. */
  lemma Unconverted(p: Plan, s: Store, open: set<Id>, cur: Id)
    requires ValidPlan(p) && Inv(p, s, open) && cur in p.values && cur !in s.memo && cur !in p.g.target
    ensures cur in s.heap && cur in p.g.nodes && s.heap[cur] == p.g.nodes[cur]
    ensures cur !in p.g.leaf ==> Rebuilt(p, cur) && s.heap[cur].Container?
  {
  }

  /** Only unchanged objects are memoised at the start. */
  lemma StartInv(p: Plan, s: Store)
    requires ValidPlan(p)
    requires s == Store(p.g.nodes, map x | x in p.values - p.affected :: x, map[])
    ensures Inv(p, s, {})
  {
    forall x | x in s.memo ensures Sound(p, x) {
      ResolvesSelf(p.g, x);
      forall y | ResolvesTo(p.g, x, y) ensures exists k: nat :: Nest(p.g, p.affected, y, k) {
        ResolvesToUnique(p.g, x, x, y);
        assert Nest(p.g, p.affected, x, 0);
      }
    }
  }

  /** The aliases met so far all lead to `cur`. */
  ghost predicate Open(p: Plan, memo: map<Id, Id>, item: Id, aliases: set<Id>, cur: Id) {
    && Chain(p, memo, aliases, cur) && (item in aliases || item == cur)
    && (forall a | a in aliases :: a in p.g.target && (p.g.target[a] in aliases || p.g.target[a] == cur))
  }

  lemma NoWayOut(g: Graph, s: set<Id>, x: Id)
    requires x in s && forall w | w in s :: w in g.target && g.target[w] in s
    ensures !Resolvable(g, x)
  {
    forall fuel: nat ensures Resolve(g, x, fuel) == None { ClosedWrappersNeverResolve(g, s, x, fuel); }
  }

  lemma ChainResolves(p: Plan, memo: map<Id, Id>, aliases: set<Id>, cur: Id, a: Id)
    requires Chain(p, memo, aliases, cur) && Resolvable(p.g, cur) && (a in aliases || a == cur)
    ensures Resolvable(p.g, a)
  {
  }

  lemma ChainGrows(p: Plan, memo: map<Id, Id>, item: Id, aliases: set<Id>, cur: Id)
    requires Open(p, memo, item, aliases, cur) && cur !in memo && cur in p.g.target && p.g.target[cur] in p.values
    ensures Open(p, memo, item, aliases + {cur}, p.g.target[cur])
  {
    forall y | ResolvesTo(p.g, p.g.target[cur], y) ensures ResolvesTo(p.g, cur, y) { ResolvesThrough(p.g, cur, y); }
  }

  lemma ChainClosed(p: Plan, memo: map<Id, Id>, item: Id, aliases: set<Id>, cur: Id)
    requires Open(p, memo, item, aliases, cur) && cur !in memo
    ensures Chain(p, memo, aliases + {cur}, cur)
  {
  }

  /** `result`, the image of `cur`, holds the images of the first `i` children. */
  ghost predicate Filling(p: Plan, s: Store, cur: Id, result: Id, i: nat) {
    && cur in p.g.nodes && p.g.nodes[cur].Container? && i <= |p.g.nodes[cur].children|
    && cur in s.memo && s.memo[cur] == result && result in s.heap
    && FilledTo(s.memo, p.g.nodes[cur], s.heap[result], i)
  }

  ghost predicate FilledTo(memo: map<Id, Id>, m: Node, n: Node, i: nat)
    requires m.Container? && i <= |m.children|
  {
    && n.Container? && n.kind == m.kind && |n.children| == i
    && (if m.kind == Dict then i <= |m.keys| && n.keys == m.keys[..i] else n.keys == [])
    && forall j | 0 <= j < i :: m.children[j] in memo && n.children[j] == memo[m.children[j]]
  }

  lemma ChildIn(p: Plan, cur: Id, i: nat)
    requires ValidPlan(p) && Rebuilt(p, cur) && p.g.nodes[cur].Container? && i < |p.g.nodes[cur].children|
    ensures p.g.nodes[cur].children[i] in p.values
    ensures KeyedRight(p.g.nodes[cur].kind, p.g.nodes[cur].keys, p.g.nodes[cur].children)
  {
    assert p.g.nodes[cur].children[i] in Kids(p.g, cur);
  }

  /** Everything that existed is kept, except that `result` may have been written. */
  ghost predicate LaterBut(s: Store, t: Store, result: Id) {
    && (forall x | x in s.heap && x != result :: x in t.heap && t.heap[x] == s.heap[x])
    && s.memo.Keys <= t.memo.Keys && forall x | x in s.memo :: t.memo[x] == s.memo[x]
  }

  lemma LaterButReflexive(s: Store, result: Id)
    ensures LaterBut(s, s, result)
  {
  }

  lemma LaterKeys(s: Store, t: Store)
    requires Later(s, t)
    ensures s.memo.Keys <= t.memo.Keys
  {
  }

  lemma LaterButKeys(s: Store, t: Store, result: Id)
    requires LaterBut(s, t, result)
    ensures s.memo.Keys <= t.memo.Keys
  {
  }

  lemma EntryKept(s: Store, t: Store, x: Id, result: Id)
    requires LaterBut(s, t, result) && x in s.memo
    ensures x in t.memo && t.memo[x] == s.memo[x]
  {
  }

  lemma LaterButChained(s: Store, t: Store, u: Store, result: Id)
    requires LaterBut(s, t, result) && LaterBut(t, u, result)
    ensures LaterBut(s, u, result)
  {
  }

  lemma LaterButTransitive(s: Store, t: Store, u: Store, result: Id)
    requires Later(s, t) && LaterBut(t, u, result) && result !in s.heap
    ensures Later(s, u)
  {
  }

  lemma SameOpen(p: Plan, s: Store, before: map<Id, Id>, open: set<Id>, cur: Id)
    requires Domain(p, before, open) && cur !in before && Inv(p, s, (open + {cur}) - {cur})
    ensures Inv(p, s, open)
  {
    assert (open + {cur}) - {cur} == open;
  }

  lemma FilledImage(p: Plan, s: Store, cur: Id, result: Id)
    requires ValidPlan(p) && Rebuilt(p, cur) && cur in p.g.nodes && p.g.nodes[cur].Container?
    requires Filling(p, s, cur, result, |p.g.nodes[cur].children|)
    ensures Image(s.memo, p.g.nodes[cur], s.heap[result])
  {
  }

  lemma FillingStart(p: Plan, s: Store, aliases: set<Id>, cur: Id, n: Id)
    requires Fillable(p, cur) && cur in aliases
    ensures Filling(p, Allocated(s, aliases, cur, n, Container(p.g.nodes[cur].kind, [], [])), cur, n, 0)
  {
  }

  lemma FillingStep(p: Plan, s: Store, cur: Id, result: Id, i: nat, grown: Node)
    requires Filling(p, s, cur, result, i) && i < |p.g.nodes[cur].children|
    requires KeyedRight(p.g.nodes[cur].kind, p.g.nodes[cur].keys, p.g.nodes[cur].children)
    requires p.g.nodes[cur].children[i] in s.memo
    requires s.heap[result].Container?
    requires var m := p.g.nodes[cur];
             grown == Container(m.kind, if m.kind == Dict then m.keys[..i + 1]
             else [], s.heap[result].children + [s.memo[m.children[i]]])
    ensures Filling(p, s.(heap := s.heap[result := grown]), cur, result, i + 1)
    ensures LaterBut(s, s.(heap := s.heap[result := grown]), result)
  {
  }

  lemma FillingLater(p: Plan, s: Store, t: Store, cur: Id, result: Id, i: nat)
    requires Filling(p, s, cur, result, i) && Later(s, t)
    ensures Filling(p, t, cur, result, i)
  {
  }

  lemma LaterThenBut(s: Store, t: Store, u: Store, result: Id)
    requires Later(s, t) && LaterBut(t, u, result)
    ensures LaterBut(s, u, result)
  {
  }

  /** `refs` are the images of the first children. */
  ghost predicate Collected(memo: map<Id, Id>, children: seq<Id>, refs: seq<Id>) {
    |refs| <= |children| && forall j | 0 <= j < |refs| :: children[j] in memo && memo[children[j]] == refs[j]
  }

  lemma CollectedStep(before: map<Id, Id>, memo: map<Id, Id>, children: seq<Id>, refs: seq<Id>, r: Id)
    requires Collected(before, children, refs) && |refs| < |children|
    requires forall x | x in before :: x in memo && memo[x] == before[x]
    requires children[|refs|] in memo && memo[children[|refs|]] == r
    ensures Collected(memo, children, refs + [r])
  {
  }

  lemma CollectedImage(p: Plan, memo: map<Id, Id>, cur: Id, refs: seq<Id>)
    requires ValidPlan(p) && Immutable(p.g, cur) && Rebuilt(p, cur)
    requires Collected(memo, p.g.nodes[cur].children, refs) && |refs| == |p.g.nodes[cur].children|
    ensures Image(memo, p.g.nodes[cur], Container(p.g.nodes[cur].kind, [], refs))
  {
  }

  lemma TargetStaysInside(p: Plan, x: Id)
    requires ValidPlan(p) && x in p.g.target
    ensures p.g.target[x] in p.values
  {
    assert p.g.target[x] in Kids(p.g, x);
  }

  lemma {:induction false} ResolvedStaysInside(p: Plan, x: Id, y: Id, fuel: nat)
    requires ValidPlan(p) && x in p.values && Resolve(p.g, x, fuel) == Some(y)
    ensures y in p.values
    decreases fuel
  {
    hide ValidPlan;
    if x in p.g.target {
      TargetStaysInside(p, x);
      ResolvedStaysInside(p, p.g.target[x], y, fuel - 1);
    }
  }

  /** Below a dict or list the nesting bound starts afresh. */
  lemma ShallowAnywhere(p: Plan, cur: Id, i: nat, limit: nat)
    requires ValidPlan(p) && ShallowEverywhere(p, limit) && Rebuilt(p, cur)
    requires p.g.nodes[cur].Container? && i < |p.g.nodes[cur].children|
    ensures Shallow(p, p.g.nodes[cur].children[i], limit, limit)
  {
    hide Nest;
    var c := p.g.nodes[cur].children[i];
    ChildIn(p, cur, i);
    forall y: Id | ResolvesTo(p.g, c, y) ensures Nest(p.g, p.affected, y, limit) {
      var fuel: nat :| Resolve(p.g, c, fuel) == Some(y);
      ResolvedStaysInside(p, c, y, fuel);
    }
  }

  /** Below a tuple or set the nesting bound is one smaller. */
  lemma ShallowBelow(p: Plan, memo: map<Id, Id>, item: Id, aliases: set<Id>, cur: Id, i: nat, k: nat, limit: nat)
    requires Chain(p, memo, aliases, cur) && item in aliases && cur in aliases && cur !in p.g.target
    requires cur in p.affected && Immutable(p.g, cur) && i < |p.g.nodes[cur].children|
    requires Shallow(p, item, k, limit)
    ensures k > 0 && Shallow(p, p.g.nodes[cur].children[i], k - 1, limit)
  {
    ResolvesSelf(p.g, cur);
    assert ResolvesTo(p.g, item, cur);
    assert Nest(p.g, p.affected, cur, k);
  }

  /** A memoised object has the image of the object it resolves to. */
  lemma {:induction false} ImageOfResolved(p: Plan, s: Store, open: set<Id>, x: Id, y: Id, fuel: nat)
    requires Inv(p, s, open) && x in s.memo && Resolve(p.g, x, fuel) == Some(y)
    ensures y in s.memo && s.memo[x] == s.memo[y]
    decreases fuel
  {
    if x in p.g.target {
      assert Complete(p, s, x);
      ImageOfResolved(p, s, open, p.g.target[x], y, fuel - 1);
    }
  }

  /** What became of a chain while the children of its end were converted. */
  ghost predicate Rejoined(p: Plan, memo: map<Id, Id>, aliases: set<Id>, cur: Id) {
    if cur in memo then
      && Chain(p, memo, aliases - memo.Keys, cur)
      && Aliased(memo, aliases, memo[cur]) == Aliased(memo, aliases - memo.Keys, memo[cur])
    else Chain(p, memo, aliases, cur)
  }

  /** Aliases memoised meanwhile already have the image of the end of their chain. */
  lemma ChainAfterwards(p: Plan, s: Store, t: Store, open: set<Id>, aliases: set<Id>, cur: Id)
    requires Inv(p, t, open) && Chain(p, s.memo, aliases, cur) && cur in aliases && cur !in p.g.target
    ensures Rejoined(p, t.memo, aliases, cur)
  {
    ResolvesSelf(p.g, cur);
    forall a | a in aliases && a in t.memo ensures cur in t.memo && t.memo[a] == t.memo[cur] {
      assert ResolvesTo(p.g, a, cur);
      var fuel: nat :| Resolve(p.g, a, fuel) == Some(cur);
      ImageOfResolved(p, t, open, a, cur, fuel);
    }
    ChainRejoins(p, s.memo, t.memo, aliases, cur);
  }

  lemma ChainRejoins(p: Plan, before: map<Id, Id>, memo: map<Id, Id>, aliases: set<Id>, cur: Id)
    requires Chain(p, before, aliases, cur) && cur in aliases
    requires forall a | a in aliases && a in memo :: cur in memo && memo[a] == memo[cur]
    ensures Rejoined(p, memo, aliases, cur)
  {
  }
}
