/**
 Which nodes the links of a decomposition join (src/spl/pipeline_widget.py:337-371,
 588-649), told from the decomposition alone: the last node that is declared under
 an id, one shared node for each unknown target, one for each source that is no node.
 */
module PipelineLinks {
  import opened PipelineModel
  import D = Decimal

  /** The source of link `k` is no node that is known by then, so it gets a node of its own. */
  predicate HasOwnSource(d: Decomposition, k: nat)
    requires k < |d.links|
  {
    !Known(WithTarget(Filed(d, k), d.links[k]), d.links[k].sourceRawId)
  }

  /** Some link before `k` has put the node of its source under this id. */
  predicate Shadowed(d: Decomposition, id: string, k: nat)
    requires k <= |d.links|
  {
    exists j :: 0 <= j < k && HasOwnSource(d, j) && ExternalKey(d.links[j], j) == id
  }

  predicate IsDeclared(d: Decomposition, id: string) { exists i :: 0 <= i < |Items(d)| && Items(d)[i].rawId == id }

  predicate IsEarlierTarget(d: Decomposition, id: string, k: nat)
    requires k <= |d.links|
  {
    exists j :: 0 <= j < k && d.links[j].targetRawId == id
  }

  /** An id is known before link `k` if something is declared under it or an earlier link has brought it. */
  lemma {:induction false} FiledMeans(d: Decomposition, id: string, k: nat)
    requires k <= |d.links|
    ensures id in Filed(d, k) <==> IsDeclared(d, id) || IsEarlierTarget(d, id, k) || Shadowed(d, id, k)
  {
    hide Filed, HasOwnSource, IsDeclared, Items, IsEarlierTarget, Shadowed;
    if k == 0 {
      FiledAtFirst(d, id);
    } else {
      FiledMeans(d, id, k - 1);
      FiledStep(d, id, k - 1);
      EarlierTargetStep(d, id, k - 1);
      ShadowedStep(d, id, k - 1);
    }
  }

  lemma FiledAtFirst(d: Decomposition, id: string)
    ensures id in Filed(d, 0) <==> IsDeclared(d, id)
    ensures !IsEarlierTarget(d, id, 0) && !Shadowed(d, id, 0)
  {
    hide Items;
    if IsDeclared(d, id) {
      var i :| 0 <= i < |Items(d)| && Items(d)[i].rawId == id;
      assert RawIdsOf(Items(d))[i] == id;
    }
  }

  lemma FiledStep(d: Decomposition, id: string, k: nat)
    requires k < |d.links|
    ensures id in Filed(d, k + 1) <==>
      id in Filed(d, k) || id == d.links[k].targetRawId || (HasOwnSource(d, k) && id == ExternalKey(d.links[k], k))
  {
    FiledGrows(d, k);
    hide Filed;
    var l, filed := d.links[k], Filed(d, k);
    InLonger(filed, l.targetRawId, id);
    InLonger(WithTarget(filed, l), ExternalKey(l, k), id);
  }

  lemma InLonger(filed: seq<string>, more: string, id: string)
    ensures id in filed + [more] <==> id in filed || id == more
  {
    assert (filed + [more])[|filed|] == more;
    if id in filed { var i :| 0 <= i < |filed| && filed[i] == id; assert (filed + [more])[i] == id; }
  }

  lemma EarlierTargetStep(d: Decomposition, id: string, k: nat)
    requires k < |d.links|
    ensures IsEarlierTarget(d, id, k + 1) <==> IsEarlierTarget(d, id, k) || d.links[k].targetRawId == id
  {
  }

  lemma ShadowedStep(d: Decomposition, id: string, k: nat)
    requires k < |d.links|
    ensures Shadowed(d, id, k + 1) <==>
      Shadowed(d, id, k) || (HasOwnSource(d, k) && ExternalKey(d.links[k], k) == id)
  {
    hide HasOwnSource;
    if HasOwnSource(d, k) && ExternalKey(d.links[k], k) == id { assert k < k + 1; }
  }

  // ------------------------------------------------------------------- declared targets

  /** The last thing declared under an id. */
  predicate IsLastItem(d: Decomposition, id: string, i: nat) {
    i < |Items(d)| && Items(d)[i].rawId == id && forall j | i < j < |Items(d)| :: Items(d)[j].rawId != id
  }

  /** Links find the last declared node under an id until a source that is no node is filed under it. */
  lemma {:induction false} LastFiled(d: Decomposition, id: string, i: nat, k: nat)
    requires k <= |d.links| && IsLastItem(d, id, i)
    ensures id in Filed(d, k) && i < |Items(d)| <= |Filed(d, k)|
    ensures LastOf(Filed(d, k), id) < |Items(d)| <==> !Shadowed(d, id, k)
    ensures !Shadowed(d, id, k) ==> LastOf(Filed(d, k), id) == i
  {
    hide Items, Filed, IsLastItem, HasOwnSource, Shadowed, LastOf;
    if k == 0 {
      LastAtFirst(d, id, i);
    } else {
      LastFiled(d, id, i, k - 1);
      LastStep(d, id, k - 1);
      ShadowedStep(d, id, k - 1);
    }
  }

  lemma LastAtFirst(d: Decomposition, id: string, i: nat)
    requires IsLastItem(d, id, i)
    ensures id in Filed(d, 0) && LastOf(Filed(d, 0), id) == i < |Items(d)| == |Filed(d, 0)| && !Shadowed(d, id, 0)
  {
    hide Items;
    var ids := RawIdsOf(Items(d));
    assert ids[i] == id;
    assert forall j | i < j < |ids| :: ids[j] != id;
    LastIsLast(ids, id, i);
  }

  lemma LastIsLast(ids: seq<string>, id: string, i: nat)
    requires i < |ids| && ids[i] == id && forall j | i < j < |ids| :: ids[j] != id
    ensures id in ids && LastOf(ids, id) == i
  {
  }

  /** How the node that an id leads to changes with one link. */
  lemma LastStep(d: Decomposition, id: string, k: nat)
    requires k < |d.links| && id in Filed(d, k)
    ensures id in Filed(d, k + 1) && |Filed(d, k)| <= |Filed(d, k + 1)|
    ensures if HasOwnSource(d, k) && ExternalKey(d.links[k], k) == id
            then LastOf(Filed(d, k + 1), id) >= |Filed(d, k)|
            else LastOf(Filed(d, k + 1), id) == LastOf(Filed(d, k), id)
  {
    hide Filed, LastOf;
    FiledGrows(d, k);
    var l, filed := d.links[k], Filed(d, k);
    LastIn(filed, l.targetRawId, id);
    LastIn(WithTarget(filed, l), ExternalKey(l, k), id);
  }

  lemma LastIn(filed: seq<string>, more: string, id: string)
    requires id in filed
    ensures id in filed + [more] && LastOf(filed + [more], id) == if id == more then |filed| else LastOf(filed, id)
  {
    var all := filed + [more];
    assert all[|filed|] == more && all[..|filed|] == filed;
    assert all[LastOf(filed, id)] == id;
  }

  /**
   A link whose target is declared runs to the node of what is declared last under that id, unless an earlier link
   has a source that is no node and whose label happens to be that id; then, and only then, it runs elsewhere.
   */
  lemma DeclaredTarget(d: Decomposition, k: nat, i: nat)
    requires k < |d.links| && IsLastItem(d, d.links[k].targetRawId, i)
    ensures TargetOf(d, k) == i <==> !Shadowed(d, d.links[k].targetRawId, k)
  {
    hide Items, Filed, HasOwnSource;
    LastFiled(d, d.links[k].targetRawId, i, k);
  }

  /** The same for a source. */
  lemma DeclaredSource(d: Decomposition, k: nat, i: nat)
    requires k < |d.links| && d.links[k].sourceRawId != "" && IsLastItem(d, d.links[k].sourceRawId, i)
    ensures SourceOf(d, k) == i <==> !Shadowed(d, d.links[k].sourceRawId, k)
  {
    hide Items, Filed, HasOwnSource;
    var l, filed := d.links[k], Filed(d, k);
    LastFiled(d, l.sourceRawId, i, k);
    LastIn(filed, l.targetRawId, l.sourceRawId);
  }

  /** A decomposition in which a declared target is not found: the first link's source takes its id. */
  const SHADOWING: Decomposition :=
    Decomposition([RawNode("scalar:7:0", "f", [], [])], [],
                  [RawLink("", "", "scalar:7", "scalar:7:0", ""), RawLink("", "", "scalar:7", "scalar:7:0", "")])

  /** The first of two links to one declared node runs there, the second does not. */
  lemma ShadowedTarget()
    ensures IsLastItem(SHADOWING, "scalar:7:0", 0) && Shadowed(SHADOWING, "scalar:7:0", 1)
    ensures TargetOf(SHADOWING, 0) == 0 != TargetOf(SHADOWING, 1)
  {
    var d := SHADOWING;
    assert Items(d) == d.nodes;
    assert HasOwnSource(d, 0) && ExternalKey(d.links[0], 0) == "scalar:7:0" by {
      assert "scalar:7" + ":" + D.Print(0) == "scalar:7:0";
    }
    assert Shadowed(d, "scalar:7:0", 1) && !Shadowed(d, "scalar:7:0", 0);
    hide Items, Filed, HasOwnSource, Shadowed;
    DeclaredTarget(d, 0, 0);
    DeclaredTarget(d, 1, 0);
  }

  // ----------------------------------------------------------------- what is not declared

  /** The target of link `k` is not known by then, so it gets a node. */
  predicate IsNewTarget(d: Decomposition, k: nat)
    requires k < |d.links|
  {
    var id := d.links[k].targetRawId;
    !IsDeclared(d, id) && !IsEarlierTarget(d, id, k) && !Shadowed(d, id, k)
  }

  lemma NewTargetMeans(d: Decomposition, k: nat)
    requires k < |d.links|
    ensures IsNewTarget(d, k) <==> d.links[k].targetRawId !in Filed(d, k)
  {
    hide IsDeclared, IsEarlierTarget, Shadowed, Filed;
    FiledMeans(d, d.links[k].targetRawId, k);
  }

  /** A source gets a node of its own exactly if it names none, or one that nothing has brought by then. */
  lemma OwnSourceMeans(d: Decomposition, k: nat)
    requires k < |d.links|
    ensures var id := d.links[k].sourceRawId;
      HasOwnSource(d, k) <==>
        id == "" || !(IsDeclared(d, id) || IsEarlierTarget(d, id, k + 1) || Shadowed(d, id, k))
  {
    hide IsDeclared, IsEarlierTarget, Shadowed, Filed;
    var l := d.links[k];
    FiledMeans(d, l.sourceRawId, k);
    EarlierTargetStep(d, l.sourceRawId, k);
    InLonger(Filed(d, k), l.targetRawId, l.sourceRawId);
  }

  lemma {:induction false} LastStays(d: Decomposition, id: string, j: nat, k: nat)
    requires j <= k <= |d.links| && id in Filed(d, j)
    requires forall m | j <= m < k :: !(HasOwnSource(d, m) && ExternalKey(d.links[m], m) == id)
    ensures id in Filed(d, k) && LastOf(Filed(d, k), id) == LastOf(Filed(d, j), id)
    decreases k
  {
    hide Filed, LastOf, HasOwnSource;
    if j < k {
      LastStays(d, id, j, k - 1);
      LastStep(d, id, k - 1);
    }
  }

  /** Links with one target run to one node, whether it is declared or not. */
  lemma TargetIsShared(d: Decomposition, j: nat, k: nat)
    requires j < k < |d.links| && d.links[j].targetRawId == d.links[k].targetRawId
    requires forall m | j <= m < k ::
               !(HasOwnSource(d, m) && ExternalKey(d.links[m], m) == d.links[k].targetRawId)
    ensures TargetOf(d, j) == TargetOf(d, k)
  {
    hide HasOwnSource, Filed, LastOf;
    var l, id := d.links[j], d.links[k].targetRawId;
    var filed := WithTarget(Filed(d, j), l);
    LastIn(filed, ExternalKey(l, j), id);
    assert HasOwnSource(d, j) ==> ExternalKey(l, j) != id;
    OwnSourceStep(d, j);
    LastStays(d, id, j + 1, k);
  }

  lemma OwnSourceStep(d: Decomposition, j: nat)
    requires j < |d.links|
    ensures var filed := WithTarget(Filed(d, j), d.links[j]);
      Filed(d, j + 1) == if HasOwnSource(d, j) then filed + [ExternalKey(d.links[j], j)] else filed
  {
    FiledGrows(d, j);
  }

  // ---------------------------------------------------------------------- how many nodes

  function NewTargets(d: Decomposition, k: nat): set<nat>
    requires k <= |d.links|
  {
    set j | 0 <= j < k && IsNewTarget(d, j)
  }

  function OwnSources(d: Decomposition, k: nat): set<nat>
    requires k <= |d.links|
  {
    set j | 0 <= j < k && HasOwnSource(d, j)
  }

  /**
   There is a node for everything declared, one for each target that is new when its link is looked at, and one for
   each source that is no node.
   */
  lemma {:induction false} NodeCount(d: Decomposition, k: nat)
    requires k <= |d.links|
    ensures |Filed(d, k)| == |Items(d)| + |NewTargets(d, k)| + |OwnSources(d, k)|
  {
    hide IsNewTarget, HasOwnSource, Items, Filed, NewTargets, OwnSources;
    if k == 0 {
      NothingCounted(d);
    } else {
      NodeCount(d, k - 1);
      NewTargetMeans(d, k - 1);
      OwnSourceStep(d, k - 1);
      TargetsGrow(d, k - 1);
      SourcesGrow(d, k - 1);
    }
  }

  lemma TargetsGrow(d: Decomposition, k: nat)
    requires k < |d.links|
    ensures |NewTargets(d, k + 1)| == |NewTargets(d, k)| + if IsNewTarget(d, k) then 1 else 0
  {
    hide IsNewTarget;
    assert NewTargets(d, k + 1) == NewTargets(d, k) + if IsNewTarget(d, k) then {k} else {};
  }

  lemma SourcesGrow(d: Decomposition, k: nat)
    requires k < |d.links|
    ensures |OwnSources(d, k + 1)| == |OwnSources(d, k)| + if HasOwnSource(d, k) then 1 else 0
  {
    hide HasOwnSource;
    assert OwnSources(d, k + 1) == OwnSources(d, k) + if HasOwnSource(d, k) then {k} else {};
  }

  lemma NothingCounted(d: Decomposition)
    ensures |Filed(d, 0)| == |Items(d)| && |NewTargets(d, 0)| == |OwnSources(d, 0)| == 0
  {
    hide Items;
    assert NewTargets(d, 0) == {} && OwnSources(d, 0) == {};
  }

  /** What has a node by itself: the nodes in their order, then functions, whose names are new and come once. */
  lemma ItemsMean(d: Decomposition)
    ensures d.nodes <= Items(d)
    ensures forall i | |d.nodes| <= i < |Items(d)| ::
      Items(d)[i] in d.functions && forall j | 0 <= j < i :: Items(d)[j].caption != Items(d)[i].caption
    ensures forall f | f in d.functions :: HasCaption(Items(d), f.caption)
  {
    hide NewFunctions, IsNew;
    var n := |d.functions|;
    var added := NewFunctions(d.functions, d.nodes, n);
    assert d.functions[..n] == d.functions;
    forall i | |d.nodes| <= i < |Items(d)|
      ensures Items(d)[i] in d.functions && forall j | 0 <= j < i :: Items(d)[j].caption != Items(d)[i].caption
    {
      AddedIsNew(d, n, i - |d.nodes|);
      forall j | 0 <= j < i ensures Items(d)[j].caption != Items(d)[i].caption {
        if j >= |d.nodes| { assert Items(d)[j] == added[j - |d.nodes|]; }
      }
    }
    forall j | 0 <= j < n ensures HasCaption(Items(d), d.functions[j].caption) { FunctionHasNode(d, n, j); }
  }

  predicate HasCaption(raws: seq<RawNode>, caption: string) {
    exists i :: 0 <= i < |raws| && raws[i].caption == caption
  }

  lemma {:induction false} AddedIsNew(d: Decomposition, n: nat, i: nat)
    requires n <= |d.functions| && i < |NewFunctions(d.functions, d.nodes, n)|
    ensures var added := NewFunctions(d.functions, d.nodes, n);
      && added[i] in d.functions[..n]
      && (forall k | 0 <= k < |d.nodes| :: d.nodes[k].caption != added[i].caption)
      && (forall j | 0 <= j < i :: added[j].caption != added[i].caption)
  {
    var before := NewFunctions(d.functions, d.nodes, n - 1);
    assert d.functions[..n] == d.functions[..n - 1] + [d.functions[n - 1]];
    if i < |before| { AddedIsNew(d, n - 1, i); }
    else {
      forall j | 0 <= j < |before| ensures before[j].caption != d.functions[n - 1].caption {
        AddedIsNew(d, n - 1, j);
        var m :| 0 <= m < n - 1 && d.functions[m] == before[j];
      }
    }
  }

  lemma {:induction false} FunctionHasNode(d: Decomposition, n: nat, j: nat)
    requires j < n <= |d.functions|
    ensures HasCaption(d.nodes + NewFunctions(d.functions, d.nodes, n), d.functions[j].caption)
  {
    var before, c := NewFunctions(d.functions, d.nodes, n - 1), d.functions[j].caption;
    if j < n - 1 {
      FunctionHasNode(d, n - 1, j);
      CaptionStays(d, n - 1, c);
    } else if IsNew(d.functions, d.nodes, j) {
      assert (d.nodes + NewFunctions(d.functions, d.nodes, n))[|d.nodes| + |before|].caption == c;
    } else if k :| 0 <= k < |d.nodes| && d.nodes[k].caption == c {
      assert (d.nodes + NewFunctions(d.functions, d.nodes, n))[k].caption == c;
    } else {
      var k :| 0 <= k < j && d.functions[k].caption == c;
      FunctionHasNode(d, n - 1, k);
      CaptionStays(d, n - 1, c);
    }
  }

  lemma CaptionStays(d: Decomposition, n: nat, c: string)
    requires n < |d.functions| && HasCaption(d.nodes + NewFunctions(d.functions, d.nodes, n), c)
    ensures HasCaption(d.nodes + NewFunctions(d.functions, d.nodes, n + 1), c)
  {
    hide IsNew;
    var all := d.nodes + NewFunctions(d.functions, d.nodes, n);
    var i :| 0 <= i < |all| && all[i].caption == c;
    assert (d.nodes + NewFunctions(d.functions, d.nodes, n + 1))[i] == all[i];
  }
}
