/**
 Splicing decoded outputs into a result (src/spl/_client.py:159-180, 1139-1143).
 Dictionaries are cells of a store; one is updated only after it was copied.
 */
module ResultSplice {
  import opened Common

  type Id = nat
  type Path = seq<string>

  datatype Value = Scalar(n: nat) | Mapping(cell: Id)

  type Cells = map<Id, map<string, Value>>

  /** What one finds at a path. */
  datatype Look = Missing | Leaf(n: nat) | Dictionary

  predicate Known(cells: Cells, v: Value) { v.Mapping? ==> v.cell in cells }

  /** No dictionary holds an unknown one. */
  predicate Closed(cells: Cells) { forall id, k | id in cells && k in cells[id] :: Known(cells, cells[id][k]) }

  function LookAt(cells: Cells, v: Value, q: Path): Look
    decreases |q|
  {
    if q == [] then (match v case Scalar(n) => Leaf(n) case Mapping(_) => Dictionary)
    else if v.Scalar? || v.cell !in cells || q[0] !in cells[v.cell] then Missing
    else LookAt(cells, cells[v.cell][q[0]], q[1..])
  }

  predicate Extends(before: Cells, after: Cells) { forall id | id in before :: id in after && after[id] == before[id] }

  /** What is there stays as it looks when dictionaries are added. */
  lemma {:induction false} LookStays(before: Cells, after: Cells, v: Value, q: Path)
    requires Closed(before) && Extends(before, after) && Known(before, v)
    ensures LookAt(after, v, q) == LookAt(before, v, q)
    decreases |q|
  {
    if q != [] && v.Mapping? && q[0] in before[v.cell] {
      LookStays(before, after, before[v.cell][q[0]], q[1..]);
    }
  }

  predicate NoEmptyParts(path: Path) { forall i | 0 <= i < |path| :: path[i] != "" }

  /** How a result looks after `value` was put at `path`. */
  function Replaced(before: Cells, result: Value, path: Path, value: Value, q: Path): Look {
    if path <= q then LookAt(before, value, q[|path|..]) else LookAt(before, result, q)
  }

  // ---------------------------------------------------------------------- the copies

  /** The cells on the way down the path. */
  ghost predicate OnTheWay(before: Cells, originals: seq<Id>, path: Path) {
    && (forall j | 0 <= j < |originals| :: originals[j] in before)
    && (forall j | 0 <= j < |originals| - 1 && j < |path| ::
         path[j] in before[originals[j]] && before[originals[j]][path[j]] == Mapping(originals[j + 1]))
  }

  /** The copies are all that was added to the store. */
  ghost predicate Added(before: Cells, cells: Cells, copies: seq<Id>) {
    && Extends(before, cells) && cells.Keys == before.Keys + Elements(copies)
    && (forall j | 0 <= j < |copies| :: copies[j] !in before)
    && (forall j, k | 0 <= j < k < |copies| :: copies[j] != copies[k])
  }

  /** Each copy but the last leads to the next one. */
  ghost predicate Linked(before: Cells, cells: Cells, originals: seq<Id>, copies: seq<Id>, path: Path)
    requires |originals| == |copies| <= |path| && OnTheWay(before, originals, path) && Added(before, cells, copies)
  {
    forall j | 0 <= j < |copies| :: LinkedAt(before, cells, originals, copies, path, j)
  }

  ghost predicate LinkedAt(before: Cells, cells: Cells, originals: seq<Id>, copies: seq<Id>, path: Path, j: nat) {
    && j < |originals| == |copies| <= |path| && originals[j] in before && copies[j] in cells
    && cells[copies[j]] == if j + 1 < |copies| then before[originals[j]][path[j] := Mapping(copies[j + 1])]
         else before[originals[j]]
  }

  /** The dictionaries from the root to the `i`-th part of the path have been copied. */
  ghost predicate CopiedDown(before: Cells, cells: Cells, originals: seq<Id>, copies: seq<Id>, path: Path, i: nat) {
    && |originals| == |copies| == i + 1 <= |path|
    && OnTheWay(before, originals, path) && Added(before, cells, copies)
    && Linked(before, cells, originals, copies, path)
  }

  function Elements(ids: seq<Id>): set<Id> { set id | id in ids }

  /** The way down exists as far as it was copied. */
  lemma {:induction false} WayDown(before: Cells, cells: Cells, originals: seq<Id>, copies: seq<Id>, path: Path, i: nat,
                                   j: nat, q: Path)
    requires CopiedDown(before, cells, originals, copies, path, i) && j <= i
    ensures LookAt(before, Mapping(originals[0]), path[..j] + q) == LookAt(before, Mapping(originals[j]), q)
  {
    if j == 0 {
      assert path[..0] + q == q;
    } else {
      WayDown(before, cells, originals, copies, path, i, j - 1, [path[j - 1]] + q);
      assert path[..j] + q == path[..j - 1] + ([path[j - 1]] + q);
      assert ([path[j - 1]] + q)[1..] == q;
    }
  }

  /** After the last assignment, the copies look as they should from the `j`-th on. */
  lemma {:induction false} CopiesLook(before: Cells, cells: Cells, originals: seq<Id>, copies: seq<Id>, path: Path,
                                      value: Value, j: nat, q: Path)
    requires Closed(before) && Known(before, value) && path != [] && j < |path|
    requires CopiedDown(before, cells, originals, copies, path, |path| - 1)
    ensures var last := copies[|path| - 1];
      LookAt(cells[last := cells[last][path[|path| - 1] := value]], Mapping(copies[j]), q)
        == Replaced(before, Mapping(originals[j]), path[j..], value, q)
    decreases |path| - j
  {
    var last := copies[|path| - 1];
    var after := cells[last := cells[last][path[|path| - 1] := value]];
    assert Extends(before, after);
    if q == [] {
      assert !(path[j..] <= q);
    } else {
      assert q == [q[0]] + q[1..] && path[j..] == [path[j]] + path[j..][1..];
      var next := if j == |path| - 1 then value else Mapping(copies[j + 1]);
      assert LinkedAt(before, cells, originals, copies, path, j);
      assert after[copies[j]] == before[originals[j]][path[j] := next];
      if q[0] != path[j] {
        assert !(path[j..] <= q);
        if q[0] in before[originals[j]] { LookStays(before, after, before[originals[j]][q[0]], q[1..]); }
      } else if j == |path| - 1 {
        assert path[j..] <= q;
        LookStays(before, after, value, q[1..]);
      } else {
        CopiesLook(before, cells, originals, copies, path, value, j + 1, q[1..]);
        SameTail(path, j, q);
      }
    }
  }

  lemma SameTail(path: Path, j: nat, q: Path)
    requires j + 1 < |path| && q != [] && q[0] == path[j]
    ensures path[j..] <= q <==> path[j + 1..] <= q[1..]
    ensures path[j..] <= q ==> q[|path[j..]|..] == q[1..][|path[j + 1..]|..]
  {
    assert path[j..] == [path[j]] + path[j + 1..] && q == [q[0]] + q[1..];
    if path[j..] <= q { assert q[..|path| - j] == path[j..]; assert q[1..][..|path| - j - 1] == path[j + 1..]; }
    if path[j + 1..] <= q[1..] { assert q[1..][..|path| - j - 1] == path[j + 1..]; }
  }

  class Store {
    var cells: Cells

    constructor (cells: Cells)
      ensures this.cells == cells
    {
      this.cells := cells;
    }

    /** `dict(...)`: a new dictionary with the same items. */
    method Copy(id: Id) returns (copy: Id)
      requires id in cells
      modifies this
      ensures copy !in old(cells) && cells == old(cells)[copy := old(cells)[id]]
    {
      SomeAbsent(cells.Keys);
      copy :| Absent(cells.Keys, copy);
      cells := cells[copy := cells[id]];
    }

    /**
     Put a value at a path of a result.  This works exactly if the path has no empty
     part and is there; then the new result has the value there and looks as before
     everywhere that is not below the path.  No dictionary that was there is changed.
     */
    method ReplaceResultPath(result: Value, path: Path, value: Value) returns (r: Result<Value>)
      requires Closed(cells) && Known(cells, result) && Known(cells, value)
      modifies this
      ensures Closed(cells) && Extends(old(cells), cells)
      ensures r.Ok? <==> NoEmptyParts(path) && LookAt(old(cells), result, path) != Missing
      ensures r.Ok? ==>
        Known(cells, r.value) && forall q :: LookAt(cells, r.value, q) == Replaced(old(cells), result, path, value, q)
    {
      hide CopiedDown, LookAt, Replaced;
      ghost var before := cells;
      if !NoEmptyParts(path) { return Err("malformed path"); }
      if path == [] {
        ReplacedRoot(before, result, value);
        return Ok(value);
      }
      if !result.Mapping? { NotMapping(before, result, path); return Err("not a mapping"); }
      var output := Copy(result.cell);
      var cursor := output;
      ghost var originals, copies := [result.cell], [output];
      CopiedRoot(before, cells, result.cell, output, path);
      for i := 0 to |path| - 1
        invariant Closed(cells) && CopiedDown(before, cells, originals, copies, path, i)
        invariant |originals| == |copies| == i + 1 && cursor == copies[i] && cursor in cells
        invariant originals[0] == result.cell && copies[0] == output
      {
        CursorHas(before, cells, originals, copies, path, i);
        if path[i] !in cells[cursor] || !cells[cursor][path[i]].Mapping? { return Err("missing path"); }
        var child := cells[cursor][path[i]].cell;
        ghost var prior := cells;
        CursorKnown(before, cells, originals, copies, path, i);
        var copied := Copy(child);
        cells := cells[cursor := cells[cursor][path[i] := Mapping(copied)]];
        OneMoreCopied(before, prior, cells, originals, copies, path, i, child, copied);
        originals, copies := originals + [child], copies + [copied];
        cursor := copied;
      }
      var last := path[|path| - 1];
      CursorHas(before, cells, originals, copies, path, |path| - 1);
      if last !in cells[cursor] { return Err("missing path"); }
      forall q
        ensures LookAt(cells[cursor := cells[cursor][last := value]], Mapping(output), q) == Replaced(before, result,
            path, value, q)
      {
        CopiesLook(before, cells, originals, copies, path, value, 0, q);
        assert path[0..] == path;
      }
      LastIsClosed(before, cells, originals, copies, path, value);
      cells := cells[cursor := cells[cursor][last := value]];
      return Ok(Mapping(output));
    }
  }

  predicate Absent(ids: set<Id>, id: Id) { id !in ids }

  lemma SomeAbsent(ids: set<Id>)
    ensures exists id :: Absent(ids, id)
  {
    var bound := Bound(ids);
    assert Absent(ids, bound);
  }

  /** A number above all of these. */
  lemma {:induction false} Bound(ids: set<Id>) returns (b: Id)
    ensures forall id | id in ids :: id < b
  {
    if ids == {} { b := 0; }
    else {
      var x :| x in ids;
      b := Bound(ids - {x});
      if b <= x { b := x + 1; }
      forall id | id in ids ensures id < b { assert id == x || id in ids - {x}; }
    }
  }

  lemma ReplacedRoot(before: Cells, result: Value, value: Value)
    ensures LookAt(before, result, []) != Missing
    ensures forall q :: LookAt(before, value, q) == Replaced(before, result, [], value, q)
  {
    forall q
      ensures LookAt(before, value, q) == Replaced(before, result, [], value, q)
    {
      assert q[0..] == q && [] <= q;
    }
  }

  lemma NotMapping(before: Cells, result: Value, path: Path)
    requires path != [] && !result.Mapping?
    ensures LookAt(before, result, path) == Missing
  {
  }

  lemma CopiedRoot(before: Cells, cells: Cells, original: Id, copy: Id, path: Path)
    requires Closed(before) && original in before && copy !in before && cells == before[copy := before[original]]
    requires path != []
    ensures Closed(cells) && CopiedDown(before, cells, [original], [copy], path, 0)
  {
    assert Elements([copy]) == {copy};
  }

  /** What the last copy has under the next part, and whether the way goes on there. */
  lemma CursorHas(before: Cells, cells: Cells, originals: seq<Id>, copies: seq<Id>, path: Path, i: nat)
    requires Closed(before) && CopiedDown(before, cells, originals, copies, path, i)
    ensures Extends(before, cells) && copies[i] in cells && cells[copies[i]] == before[originals[i]]
    ensures path[i] !in cells[copies[i]] ==> LookAt(before, Mapping(originals[0]), path) == Missing
    ensures path[i] in cells[copies[i]] ==> Known(before, cells[copies[i]][path[i]])
    ensures path[i] in cells[copies[i]] && i < |path| - 1 && !cells[copies[i]][path[i]].Mapping? ==>
      LookAt(before, Mapping(originals[0]), path) == Missing
    ensures path[i] in cells[copies[i]] && i == |path| - 1 ==> LookAt(before, Mapping(originals[0]), path) != Missing
  {
    assert LinkedAt(before, cells, originals, copies, path, i);
    WayDown(before, cells, originals, copies, path, i, i, path[i..]);
    assert path[..i] + path[i..] == path;
    assert path[i..][0] == path[i] && path[i..][1..] == path[i + 1..];
  }

  /** The next dictionary on the way is one that was there. */
  lemma CursorKnown(before: Cells, cells: Cells, originals: seq<Id>, copies: seq<Id>, path: Path, i: nat)
    requires Closed(before) && CopiedDown(before, cells, originals, copies, path, i)
    ensures forall k | k in before[originals[i]] && before[originals[i]][k].Mapping? ::
      before[originals[i]][k].cell in before && before[originals[i]][k].cell in cells
    ensures copies[i] in cells && originals[i] in before && |originals| == |copies| == i + 1
  {
  }

  lemma OneMoreCopied(before: Cells, prior: Cells, cells: Cells, originals: seq<Id>, copies: seq<Id>, path: Path,
                      i: nat, child: Id, copy: Id)
    requires Closed(before) && Closed(prior) && i < |path| - 1 && CopiedDown(before, prior, originals, copies, path, i)
    requires copy !in prior && path[i] in before[originals[i]] && before[originals[i]][path[i]] == Mapping(child)
    requires child in before
    requires copies[i] in prior && child in prior
    requires cells == prior[copy := prior[child]][copies[i] := prior[copies[i]][path[i] := Mapping(copy)]]
    ensures Closed(cells) && CopiedDown(before, cells, originals + [child], copies + [copy], path, i + 1)
  {
    StillClosed(prior, child, copy, copies[i], path[i]);
    OneMoreAdded(before, prior, cells, copies, copy, copies[i]);
    OneMoreLinked(before, prior, cells, originals, copies, path, i, child, copy);
    hide Closed, Added, LinkedAt;
    assert OnTheWay(before, originals + [child], path);
  }

  lemma OneMoreAdded(before: Cells, prior: Cells, cells: Cells, copies: seq<Id>, copy: Id, id: Id)
    requires Added(before, prior, copies) && copy !in prior && id in copies
    requires cells.Keys == prior.Keys + {copy} && forall x | x in prior && x != id :: cells[x] == prior[x]
    ensures Added(before, cells, copies + [copy])
  {
    var more := copies + [copy];
    assert Elements(more) == Elements(copies) + {copy};
    forall j | 0 <= j < |copies| ensures copies[j] in prior { assert copies[j] in Elements(copies); }
  }

  lemma OneMoreLinked(before: Cells, prior: Cells, cells: Cells, originals: seq<Id>, copies: seq<Id>, path: Path,
                      i: nat, child: Id, copy: Id)
    requires i < |path| - 1 && CopiedDown(before, prior, originals, copies, path, i) && copy !in prior
    requires child in before && copies[i] in prior && child in prior
    requires cells == prior[copy := prior[child]][copies[i] := prior[copies[i]][path[i] := Mapping(copy)]]
    ensures forall j | 0 <= j < |copies| + 1 :: LinkedAt(before, cells, originals + [child], copies + [copy], path, j)
  {
    assert Elements(copies) <= prior.Keys;
    forall j | 0 <= j < |copies| + 1 ensures LinkedAt(before, cells, originals + [child], copies + [copy], path, j) {
      if j < |copies| { assert copies[j] in Elements(copies) && LinkedAt(before, prior, originals, copies, path, j); }
    }
  }

  lemma StillClosed(prior: Cells, child: Id, copy: Id, id: Id, k: string)
    requires Closed(prior) && child in prior && id in prior && copy !in prior
    ensures Closed(prior[copy := prior[child]][id := prior[id][k := Mapping(copy)]])
  {
  }

  lemma LastIsClosed(before: Cells, cells: Cells, originals: seq<Id>, copies: seq<Id>, path: Path, value: Value)
    requires path != [] && CopiedDown(before, cells, originals, copies, path, |path| - 1) && Closed(cells)
    requires Known(before, value)
    ensures var last := copies[|path| - 1];
      var after := cells[last := cells[last][path[|path| - 1] := value]];
      Closed(after) && Extends(before, after) && Known(after, Mapping(copies[0]))
  {
  }

  // ----------------------------------------------------------------- several outputs

  /** A decoded output and where it goes. */
  datatype Output = Output(path: Path, value: Value)

  /** How the result looks after all outputs were put in their places, one after the other. */
  function Spliced(before: Cells, result: Value, outputs: seq<Output>, q: Path): Look
    decreases |outputs|
  {
    if outputs == [] then LookAt(before, result, q)
    else
      var last := outputs[|outputs| - 1];
      if last.path <= q then LookAt(before, last.value, q[|last.path|..])
      else Spliced(before, result, outputs[..|outputs| - 1], q)
  }

  /** Every output finds its place when its turn comes. */
  predicate AllPlaced(before: Cells, result: Value, outputs: seq<Output>) {
    forall i | 0 <= i < |outputs| ::
      NoEmptyParts(outputs[i].path) && Spliced(before, result, outputs[..i], outputs[i].path) != Missing
  }

  ghost predicate LooksSpliced(before: Cells, result: Value, outputs: seq<Output>, cells: Cells, spliced: Value) {
    forall q :: LookAt(cells, spliced, q) == Spliced(before, result, outputs, q)
  }

  lemma OneMoreSpliced(before: Cells, result: Value, outputs: seq<Output>, i: nat, cells: Cells, spliced: Value,
                       cells': Cells, spliced': Value)
    requires i < |outputs| && LooksSpliced(before, result, outputs[..i], cells, spliced)
    requires Closed(before) && Extends(before, cells) && Known(before, outputs[i].value)
    requires forall q :: LookAt(cells', spliced', q) == Replaced(cells, spliced, outputs[i].path, outputs[i].value, q)
    ensures LooksSpliced(before, result, outputs[..i + 1], cells', spliced')
  {
    assert outputs[..i + 1][..i] == outputs[..i];
    forall q ensures LookAt(cells', spliced', q) == Spliced(before, result, outputs[..i + 1], q) {
      assert LookAt(cells', spliced', q) == Replaced(cells, spliced, outputs[i].path, outputs[i].value, q);
      if outputs[i].path <= q { LookStays(before, cells, outputs[i].value, q[|outputs[i].path|..]); }
    }
  }

  /** Put the outputs in their places, one after the other, on copies. */
  method SpliceOutputs(store: Store, result: Value, outputs: seq<Output>) returns (r: Result<Value>)
    requires Closed(store.cells) && Known(store.cells, result)
    requires forall i | 0 <= i < |outputs| :: Known(store.cells, outputs[i].value)
    modifies store
    ensures Closed(store.cells) && Extends(old(store.cells), store.cells)
    ensures r.Ok? <==> AllPlaced(old(store.cells), result, outputs)
    ensures r.Ok? ==>
      Known(store.cells, r.value) && LooksSpliced(old(store.cells), result, outputs, store.cells, r.value)
  {
    hide LooksSpliced, Spliced, LookAt, Replaced, Closed;
    var spliced := result;
    ghost var before := store.cells;
    NothingSpliced(before, result);
    assert outputs[..0] == [];
    for i := 0 to |outputs|
      invariant Closed(store.cells) && Extends(before, store.cells) && Known(store.cells, spliced)
      invariant LooksSpliced(before, result, outputs[..i], store.cells, spliced)
      invariant forall j | 0 <= j < i ::
        NoEmptyParts(outputs[j].path) && Spliced(before, result, outputs[..j], outputs[j].path) != Missing
    {
      ghost var cells, prior := store.cells, spliced;
      LooksAt(before, result, outputs[..i], cells, prior, outputs[i].path);
      var replaced := store.ReplaceResultPath(spliced, outputs[i].path, outputs[i].value);
      if replaced.Err? { return replaced; }
      OneMoreSpliced(before, result, outputs, i, cells, prior, store.cells, replaced.value);
      spliced := replaced.value;
    }
    assert outputs[..|outputs|] == outputs;
    return Ok(spliced);
  }

  lemma NothingSpliced(before: Cells, result: Value)
    ensures LooksSpliced(before, result, [], before, result)
  {
  }

  lemma LooksAt(before: Cells, result: Value, outputs: seq<Output>, cells: Cells, spliced: Value, q: Path)
    requires LooksSpliced(before, result, outputs, cells, spliced)
    ensures LookAt(cells, spliced, q) == Spliced(before, result, outputs, q)
  {
  }

  /** No output lies on the way to another. */
  predicate PathsApart(outputs: seq<Output>) {
    forall i, j | 0 <= i < |outputs| && 0 <= j < |outputs| && i != j :: !(outputs[i].path <= outputs[j].path)
  }

  predicate SameOutputs(x: seq<Output>, y: seq<Output>) { (forall o | o in x :: o in y) && forall o | o in y :: o in x }

  /** With paths apart, what one finds is the one output that lies on the way, or what was there. */
  lemma {:induction false} SplicedFinds(before: Cells, result: Value, outputs: seq<Output>, q: Path)
    requires PathsApart(outputs)
    ensures forall o | o in outputs && o.path <= q ::
      Spliced(before, result, outputs, q) == LookAt(before, o.value, q[|o.path|..])
    ensures (forall o | o in outputs :: !(o.path <= q)) ==>
      Spliced(before, result, outputs, q) == LookAt(before, result, q)
    decreases |outputs|
  {
    if outputs != [] {
      var less, last := outputs[..|outputs| - 1], outputs[|outputs| - 1];
      SplicedFinds(before, result, less, q);
      assert forall o | o in less :: o in outputs;
      forall o | o in outputs && o.path <= q
        ensures Spliced(before, result, outputs, q) == LookAt(before, o.value, q[|o.path|..])
      {
        var i :| 0 <= i < |outputs| && outputs[i] == o;
        if i < |outputs| - 1 {
          assert less[i] == o;
          OneOnTheWay(o.path, last.path, q);
        }
      }
    }
  }

  /** Of two paths on the way to `q`, one is a prefix of the other. */
  lemma OneOnTheWay(x: Path, y: Path, q: Path)
    ensures x <= q && y <= q ==> x <= y || y <= x
  {
    if x <= q && y <= q {
      assert forall k | 0 <= k < |x| :: x[k] == q[k];
      assert forall k | 0 <= k < |y| :: y[k] == q[k];
    }
  }

  /** Outputs that lie apart may be put in their places in any order, with the same result. */
  lemma SpliceInAnyOrder(before: Cells, result: Value, x: seq<Output>, y: seq<Output>)
    requires PathsApart(x) && PathsApart(y) && SameOutputs(x, y)
    ensures forall q :: Spliced(before, result, x, q) == Spliced(before, result, y, q)
    ensures AllPlaced(before, result, x) <==> AllPlaced(before, result, y)
  {
    forall q ensures Spliced(before, result, x, q) == Spliced(before, result, y, q) {
      SplicedFinds(before, result, x, q);
      SplicedFinds(before, result, y, q);
      if o :| o in x && o.path <= q { assert o in y; }
    }
    PlacedAtFirst(before, result, x);
    PlacedAtFirst(before, result, y);
  }

  /** Outputs that lie apart all find their places exactly if all places are there at first. */
  lemma PlacedAtFirst(before: Cells, result: Value, outputs: seq<Output>)
    requires PathsApart(outputs)
    ensures AllPlaced(before, result, outputs) <==>
      forall o | o in outputs :: NoEmptyParts(o.path) && LookAt(before, result, o.path) != Missing
  {
    forall i | 0 <= i < |outputs|
      ensures Spliced(before, result, outputs[..i], outputs[i].path) == LookAt(before, result, outputs[i].path)
    {
      var less := outputs[..i];
      assert forall j | 0 <= j < i :: less[j] == outputs[j];
      SplicedFinds(before, result, less, outputs[i].path);
    }
  }

  /** Putting a value where one was put just before leaves nothing of the first. */
  lemma LastPutWins(before: Cells, result: Value, path: Path, x: Value, y: Value, q: Path)
    ensures Spliced(before, result, [Output(path, x), Output(path, y)], q)
         == Spliced(before, result, [Output(path, y)], q)
  {
    var two, one := [Output(path, x), Output(path, y)], [Output(path, y)];
    assert two[..1] == [Output(path, x)] && two[..1][..0] == [] && one[..0] == [];
  }

  // ------------------------------------------------------------------ where outputs go

  /** An output port: its outer name and its own. */
  datatype Port = Port(externalName: string, short: string)

  /** `_output_result_path` (src/spl/_runtime_port_adapters_client.py:781-790). */
  function OutputResultPath(isFunction: bool, selected: bool, count: nat, p: Port): Path {
    if isFunction then (if count == 1 then [] else [p.short])
    else if selected || p.externalName == p.short then [p.short]
    else [p.externalName, p.short]
  }

  /** Two ports whose outputs do not get in each other's way. */
  predicate PortsApart(isFunction: bool, selected: bool, p: Port, q: Port) {
    if isFunction || selected then p.short != q.short
    else p.externalName != q.externalName
         || (p.short != q.short && p.externalName != p.short && q.externalName != q.short)
  }

  /**
   The outputs of a run lie apart exactly if its ports do: no two agree, and none has the
   outer name of another for its own.
   */
  lemma OutputsLieApart(isFunction: bool, selected: bool, ports: seq<Port>, outputs: seq<Output>)
    requires |outputs| == |ports|
    requires forall i | 0 <= i < |ports| :: outputs[i].path == OutputResultPath(isFunction, selected, |ports|, ports[i])
    ensures PathsApart(outputs) <==>
      forall i, j | 0 <= i < j < |ports| :: PortsApart(isFunction, selected, ports[i], ports[j])
  {
    forall i, j | 0 <= i < j < |ports|
      ensures PortsApart(isFunction, selected, ports[i], ports[j]) <==>
        !(outputs[i].path <= outputs[j].path) && !(outputs[j].path <= outputs[i].path)
    {
      PortPathsApart(isFunction, selected, |ports|, ports[i], ports[j]);
    }
    if PathsApart(outputs) {
      forall i, j | 0 <= i < j < |ports| ensures PortsApart(isFunction, selected, ports[i], ports[j]) {
        assert !(outputs[i].path <= outputs[j].path) && !(outputs[j].path <= outputs[i].path);
      }
    } else {
      var i, j :| 0 <= i < |outputs| && 0 <= j < |outputs| && i != j && outputs[i].path <= outputs[j].path;
      assert i < j || j < i;
    }
  }

  lemma PortPathsApart(isFunction: bool, selected: bool, count: nat, p: Port, q: Port)
    requires count > 1
    ensures var x, y := OutputResultPath(isFunction, selected, count, p),
      OutputResultPath(isFunction, selected, count, q);
      PortsApart(isFunction, selected, p, q) <==> !(x <= y) && !(y <= x)
  {
    var x, y := OutputResultPath(isFunction, selected, count, p), OutputResultPath(isFunction, selected, count, q);
    assert x <= y <==> |x| <= |y| && x[0] == y[0] && (|x| == 2 ==> x[1] == y[1]);
    assert y <= x <==> |y| <= |x| && y[0] == x[0] && (|y| == 2 ==> y[1] == x[1]);
  }

  /**
   Where one finds an output that lies apart from the others: that of a function with one output is the whole
   result.  Otherwise it is under its own name, and in a pipeline that is under its outer name, if that differs and
   no output was selected.
   */
  lemma OutputsAreFound(before: Cells, result: Value, isFunction: bool, selected: bool, ports: seq<Port>,
                        outputs: seq<Output>, i: nat, q: Path)
    requires |outputs| == |ports| && i < |ports| && PathsApart(outputs)
    requires forall j | 0 <= j < |ports| :: outputs[j].path == OutputResultPath(isFunction, selected, |ports|, ports[j])
    ensures isFunction && |ports| == 1 ==> Spliced(before, result, outputs, q) == LookAt(before, outputs[i].value, q)
    ensures (isFunction && |ports| > 1) || (!isFunction && (selected || ports[i].externalName == ports[i].short)) ==>
      Spliced(before, result, outputs, [ports[i].short] + q) == LookAt(before, outputs[i].value, q)
    ensures !isFunction && !selected && ports[i].externalName != ports[i].short ==>
      Spliced(before, result, outputs, [ports[i].externalName, ports[i].short] + q)
      == LookAt(before, outputs[i].value, q)
  {
    var path := OutputResultPath(isFunction, selected, |ports|, ports[i]);
    SplicedFinds(before, result, outputs, path + q);
    assert outputs[i] in outputs && path <= path + q && (path + q)[|path|..] == q;
    assert [] + q == q;
  }
}
