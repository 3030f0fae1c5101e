/**
 Names made unique by a number: the wanted name first, then numbered ones from 2 on
 (src/spl/pipeline_widget.py:728-735, src/spl/_runtime_port_adapters_client.py:871-881,
 src/spl/execution_results.py:159-163, 465-472).
 */
module UniqueNames {
  import opened Common
  import D = Decimal

  /** How the numbered names look: `left`, a dash, the number, `right`. */
  datatype Scheme = Scheme(wanted: string, left: string, right: string)

  /** The `k`-th name tried. */
  function Candidate(n: Scheme, k: nat): string
    requires k >= 1
  {
    if k == 1 then n.wanted else n.left + "-" + D.Print(k) + n.right
  }

  lemma NumbersDiffer(n: Scheme, j: nat, k: nat)
    requires 2 <= j < k
    ensures Candidate(n, j) != Candidate(n, k)
  {
    var x, y := Candidate(n, j), Candidate(n, k);
    assert x[|n.left| + 1..|x| - |n.right|] == D.Print(j);
    assert y[|n.left| + 1..|y| - |n.right|] == D.Print(k);
    assert D.Value(D.Print(j)) != D.Value(D.Print(k));
  }

  /** The names tried before the `k`-th. */
  function Tried(n: Scheme, k: nat): set<string> { set j | 1 <= j < k :: Candidate(n, j) }

  function Numbered(n: Scheme, k: nat): set<string> { set j | 2 <= j < k :: Candidate(n, j) }

  lemma NumberedGrows(n: Scheme, k: nat)
    requires k >= 2
    ensures Numbered(n, k + 1) == Numbered(n, k) + {Candidate(n, k)} && Candidate(n, k) !in Numbered(n, k)
  {
    forall j | 2 <= j < k ensures Candidate(n, j) != Candidate(n, k) { NumbersDiffer(n, j, k); }
  }

  lemma {:induction false} NumberedSize(n: Scheme, k: nat)
    requires k >= 2
    ensures |Numbered(n, k)| == k - 2
  {
    if k > 2 {
      NumberedSize(n, k - 1);
      NumberedGrows(n, k - 1);
    } else {
      assert Numbered(n, 2) == {};
    }
  }

  lemma SubsetSize(x: set<string>, y: set<string>)
    requires x <= y
    ensures |x| <= |y|
  {
    assert y == x + (y - x);
  }

  /** As long as all names tried are in use, there are at most as many numbered ones as names in use. */
  lemma TriedAreFew(n: Scheme, k: nat, used: set<string>)
    requires k >= 2 && Tried(n, k) <= used
    ensures k - 2 <= |used|
  {
    NumberedSize(n, k);
    assert Numbered(n, k) <= Tried(n, k);
    SubsetSize(Numbered(n, k), used);
  }

  lemma TriedGrows(n: Scheme, k: nat)
    requires k >= 1
    ensures Tried(n, k + 1) == Tried(n, k) + {Candidate(n, k)}
  {
  }

  /** `id` is the first candidate that is not in use, and it is the `k`-th. */
  predicate IsFirstFree(n: Scheme, used: set<string>, id: string, k: nat) {
    k >= 1 && id == Candidate(n, k) && id !in used && Tried(n, k) <= used && k <= |used| + 2
  }

  /** The first candidate that is not in use. */
  method FirstFree(n: Scheme, used: set<string>) returns (id: string)
    ensures exists k :: IsFirstFree(n, used, id, k)
  {
    hide Tried;
    id := n.wanted;
    var index: nat := 2;
    NothingTried(n);
    while id in used
      invariant index >= 2 && id == Candidate(n, index - 1) && Tried(n, index - 1) <= used
      invariant index - 1 <= |used| + 2
      decreases |used| + 3 - index
    {
      TriedGrows(n, index - 1);
      TriedAreFew(n, index, used);
      id := n.left + "-" + D.Print(index) + n.right;
      index := index + 1;
    }
    assert IsFirstFree(n, used, id, index - 1);
  }

  lemma NothingTried(n: Scheme)
    ensures Tried(n, 1) == {}
  {
  }
}
