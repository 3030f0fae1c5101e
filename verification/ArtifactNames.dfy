/**
 Names of result artifacts (src/spl/execution_results.py:159-163, 465-472): a name
 that is taken gets a number before its extension.
 */
module ArtifactNames {
  import opened Common
  import U = UniqueNames

  /** The position of the last dot, or the length if there is none. */
  function LastDot(name: string): (i: nat)
    ensures i <= |name| && (i < |name| ==> name[i] == '.' && '.' !in name[i + 1..])
    ensures i == |name| ==> '.' !in name
  {
    if name == "" then 0
    else if name[|name| - 1] == '.' then |name| - 1
    else
      var i := LastDot(name[..|name| - 1]);
      assert name == name[..|name| - 1] + [name[|name| - 1]];
      if i == |name| - 1 then |name|
      else
        assert name[i + 1..] == name[..|name| - 1][i + 1..] + [name[|name| - 1]];
        i
  }

  /** The number goes before the extension, if there is a stem and an extension. */
  function Numbering(name: string): U.Scheme {
    var i := LastDot(name);
    if 0 < i && i + 1 < |name| then U.Scheme(name, name[..i], name[i..]) else U.Scheme(name, name, "")
  }

  lemma NumberingWants(name: string)
    ensures Numbering(name).wanted == name
  {
  }

  /** The numbered names have the extension of the wanted one. */
  lemma KeepsExtension(name: string, k: nat)
    requires k >= 1 && 0 < LastDot(name) && LastDot(name) + 1 < |name|
    ensures var i, r := LastDot(name), U.Candidate(Numbering(name), k);
      |r| >= |name| - i && r[|r| - (|name| - i)..] == name[i..] && r[..i] == name[..i]
  {
  }

  class Reservations {
    var used: set<string>

    constructor ()
      ensures used == {}
    {
      used := {};
    }

    /** Reserve the first free name; fails if a name that comes up on the way is not valid. */
    method ReserveArtifactName(name: string, valid: string -> bool) returns (r: Result<string>, ghost k: nat)
      modifies this`used
      ensures r.Ok? ==>
        U.IsFirstFree(Numbering(name), old(used), r.value, k) && valid(r.value) && used == old(used) + {r.value}
      ensures r.Err? ==>
        used == old(used) && k >= 1 && !valid(U.Candidate(Numbering(name), k))
        && U.Tried(Numbering(name), k) <= old(used)
    {
      hide U.Tried, LastDot, Numbering;
      var n := Numbering(name);
      NumberingWants(name);
      var candidate := name;
      var index: nat := 2;
      k := 1;
      U.NothingTried(n);
      if !valid(candidate) { return Err("invalid artifact name"), k; }
      while candidate in used
        invariant index >= 2 && k == index - 1 && candidate == U.Candidate(n, k) && U.Tried(n, k) <= used
        invariant valid(candidate)
        invariant k <= |used| + 2 && used == old(used)
        decreases |used| + 3 - index
      {
        U.TriedGrows(n, k);
        U.TriedAreFew(n, index, used);
        candidate := n.left + "-" + U.D.Print(index) + n.right;
        k := index;
        if !valid(candidate) { return Err("invalid artifact name"), k; }
        index := index + 1;
      }
      assert U.IsFirstFree(n, used, candidate, k);
      used := used + {candidate};
      return Ok(candidate), k;
    }
  }
}
