/**
 The inventory of an environment and its validation (src/spl/embedded.py:1363-1393).
 A path is its tuple of parts: "." has none, and an absolute path starts with its root.
 */
module EnvironmentInventory {
  import opened Common
  import W = PathWalk

  type Path = seq<string>
  type Bytes = seq<bv8>

  const MAX_ENVIRONMENT_FILES: nat := 32768
  const MAX_ENVIRONMENT_BYTES: nat := 1024 * 1024 * 1024

  /** One file: where it goes, its bytes and its mode. */
  datatype Item = Item(path: Path, data: Bytes, mode: nat)

  /** The inventory is a dictionary: no path occurs twice. */
  predicate IsInventory(files: seq<Item>) { forall i, j | 0 <= i < j < |files| :: files[i].path != files[j].path }

  function Paths(files: seq<Item>): set<Path> { set i | 0 <= i < |files| :: files[i].path }

  function TotalSize(files: seq<Item>): nat {
    if files == [] then 0 else TotalSize(files[..|files| - 1]) + |files[|files| - 1].data|
  }

  predicate IsAbsolute(p: Path) { p != [] && (p[0] == "/" || p[0] == "//") }

  predicate SafePath(p: Path) { !IsAbsolute(p) && forall k | 0 <= k < |p| :: p[k] != "" && p[k] != "." && p[k] != ".." }

  /** `str(path).casefold()`, part by part. */
  function Identity(fold: string -> string, p: Path): (r: Path)
    ensures |r| == |p| && forall k | 0 <= k < |p| :: r[k] == fold(p[k])
  {
    seq(|p|, k requires 0 <= k < |p| => fold(p[k]))
  }

  function Identities(fold: string -> string, files: seq<Item>): set<Path> {
    set i | 0 <= i < |files| :: Identity(fold, files[i].path)
  }

  /** The directories above the files, without the root. */
  function Parents(files: seq<Item>): set<Path> {
    set i, k | 0 <= i < |files| && 0 < k < |files[i].path| :: files[i].path[..k]
  }

  predicate NoFileAbove(files: seq<Item>, p: Path) { forall k | 0 < k < |p| :: p[..k] !in Paths(files) }

  predicate DistinctIdentities(fold: string -> string, files: seq<Item>) {
    forall i, j | 0 <= i < j < |files| :: Identity(fold, files[i].path) != Identity(fold, files[j].path)
  }

  predicate DirectoriesApart(fold: string -> string, files: seq<Item>, directories: set<Path>) {
    && (forall d, e | d in directories && e in directories && d != e :: Identity(fold, d) != Identity(fold, e))
    && (forall d | d in directories :: Identity(fold, d) !in Identities(fold, files))
  }

  /** An inventory that may be built: no two paths meet, even if the file system ignores case. */
  predicate Safe(fold: string -> string, files: seq<Item>) {
    && 0 < |files| <= MAX_ENVIRONMENT_FILES && TotalSize(files) <= MAX_ENVIRONMENT_BYTES
    && (forall i | 0 <= i < |files| :: SafePath(files[i].path))
    && DistinctIdentities(fold, files)
    && (forall i | 0 <= i < |files| :: NoFileAbove(files, files[i].path))
    && DirectoriesApart(fold, files, Parents(files))
  }

  // ---------------------------------------------------------------------- validation

  method SumSizes(files: seq<Item>) returns (total: nat)
    ensures total == TotalSize(files)
  {
    total := 0;
    for i := 0 to |files|
      invariant total == TotalSize(files[..i])
    {
      assert files[..i + 1][..i] == files[..i];
      total := total + |files[i].data|;
    }
    assert files[..|files|] == files;
  }

  function Above(p: Path, k: nat): set<Path> { set m | k < m < |p| :: p[..m] }

  /** Collect the directories above one file, unless one of them is a file. */
  method CollectParents(p: Path, paths: set<Path>, before: set<Path>) returns (ok: bool, directories: set<Path>)
    ensures ok <==> forall k | 0 < k < |p| :: p[..k] !in paths
    ensures ok ==> directories == before + Above(p, 0)
  {
    ok, directories := true, before;
    var parent := if p == [] then [] else p[..|p| - 1];
    while parent != []
      invariant |parent| <= |p| && parent == p[..|parent|] && (p != [] ==> |parent| < |p|)
      invariant forall k | |parent| < k < |p| :: p[..k] !in paths
      invariant directories == before + Above(p, |parent|)
      decreases |parent|
    {
      if parent in paths { return false, directories; }
      AboveGrows(p, |parent|);
      directories := directories + {parent};
      parent := parent[..|parent| - 1];
    }
  }

  lemma AboveGrows(p: Path, k: nat)
    requires 0 < k < |p|
    ensures Above(p, k - 1) == Above(p, k) + {p[..k]}
  {
  }

  lemma ParentsGrow(files: seq<Item>, i: nat)
    requires i < |files|
    ensures Parents(files[..i + 1]) == Parents(files[..i]) + Above(files[i].path, 0)
  {
    var more, less, p := files[..i + 1], files[..i], files[i].path;
    forall d | d in Parents(more) ensures d in Parents(less) + Above(p, 0) {
      var j, k :| 0 <= j < |more| && 0 < k < |more[j].path| && more[j].path[..k] == d;
      if j < i { assert less[j] == more[j]; }
    }
    forall d | d in Parents(less) ensures d in Parents(more) {
      var j, k :| 0 <= j < |less| && 0 < k < |less[j].path| && less[j].path[..k] == d;
      assert more[j].path[..k] == d;
    }
    forall d | d in Above(p, 0) ensures d in Parents(more) {
      var k :| 0 < k < |p| && p[..k] == d;
      assert more[i].path[..k] == d;
    }
  }

  lemma IdentitiesGrow(fold: string -> string, files: seq<Item>, i: nat)
    requires i < |files|
    ensures Identities(fold, files[..i + 1]) == Identities(fold, files[..i]) + {Identity(fold, files[i].path)}
  {
    var more, less := files[..i + 1], files[..i];
    forall d | d in Identities(fold, less) ensures d in Identities(fold, more) {
      var j :| 0 <= j < i && Identity(fold, less[j].path) == d;
      assert more[j] == less[j];
    }
    assert more[i] == files[i];
    forall d | d in Identities(fold, more) ensures d in Identities(fold, less) + {Identity(fold, files[i].path)} {
      var j :| 0 <= j < i + 1 && Identity(fold, more[j].path) == d;
      if j < i { assert less[j] == more[j]; }
    }
  }

  lemma ClashIsUnsafe(fold: string -> string, files: seq<Item>, i: nat)
    requires i < |files| && Identity(fold, files[i].path) in Identities(fold, files[..i])
    ensures !Safe(fold, files)
  {
    var j :| 0 <= j < i && Identity(fold, files[..i][j].path) == Identity(fold, files[i].path);
    assert files[j] == files[..i][j];
  }

  /** The files that were looked at are safe by themselves. */
  predicate SafeSoFar(fold: string -> string, files: seq<Item>, i: nat)
    requires i <= |files|
  {
    && (forall j | 0 <= j < i :: SafePath(files[j].path) && NoFileAbove(files, files[j].path))
    && DistinctIdentities(fold, files[..i])
  }

  lemma SafeOneMore(fold: string -> string, files: seq<Item>, i: nat)
    requires i < |files| && SafeSoFar(fold, files, i) && SafePath(files[i].path) && NoFileAbove(files, files[i].path)
    requires Identity(fold, files[i].path) !in Identities(fold, files[..i])
    ensures SafeSoFar(fold, files, i + 1)
  {
    forall a, b | 0 <= a < b < i + 1 ensures Identity(fold, files[a].path) != Identity(fold, files[b].path) {
      assert files[..i][a] == files[a];
      if b < i { assert files[..i][b] == files[b]; }
    }
    assert forall a | 0 <= a < i + 1 :: files[..i + 1][a] == files[a];
  }

  /** The directories an accepted inventory needs; accepted exactly when it is safe. */
  method ValidateExpectedFiles(fold: string -> string, files: seq<Item>) returns (r: Result<set<Path>>)
    ensures r.Ok? <==> Safe(fold, files)
    ensures r.Ok? ==> r.value == Parents(files)
  {
    hide SafePath, NoFileAbove, DistinctIdentities, DirectoriesApart, Parents, Identities, SafeSoFar, Safe;
    var error := Err("embedded_environment_build_failed");
    var total := SumSizes(files);
    SafeMeans(fold, files);
    if files == [] || |files| > MAX_ENVIRONMENT_FILES || total > MAX_ENVIRONMENT_BYTES { return error; }
    var folded, directories := {}, {};
    var paths := Paths(files);
    NothingYet(fold, files);
    for i := 0 to |files|
      invariant SafeSoFar(fold, files, i)
      invariant folded == Identities(fold, files[..i]) && directories == Parents(files[..i])
    {
      var p := files[i].path;
      var ok := IsSafe(p);
      if !ok { return error; }
      if Identity(fold, p) in folded { ClashIsUnsafe(fold, files, i); return error; }
      folded := folded + {Identity(fold, p)};
      IdentitiesGrow(fold, files, i);
      ParentsGrow(files, i);
      ok, directories := CollectParents(p, paths, directories);
      NoFileAboveMeans(files, p);
      if !ok { return error; }
      SafeOneMore(fold, files, i);
    }
    assert files[..|files|] == files;
    SoFarMeans(fold, files);
    var apart := AreApart(fold, files, directories, folded);
    r := if apart then Ok(directories) else error;
  }

  lemma SafeMeans(fold: string -> string, files: seq<Item>)
    ensures Safe(fold, files) <==>
      && 0 < |files| <= MAX_ENVIRONMENT_FILES && TotalSize(files) <= MAX_ENVIRONMENT_BYTES
      && (forall i | 0 <= i < |files| :: SafePath(files[i].path)) && DistinctIdentities(fold, files)
      && (forall i | 0 <= i < |files| :: NoFileAbove(files, files[i].path))
      && DirectoriesApart(fold, files, Parents(files))
  {
  }

  lemma NothingYet(fold: string -> string, files: seq<Item>)
    ensures SafeSoFar(fold, files, 0) && Identities(fold, files[..0]) == {} && Parents(files[..0]) == {}
  {
  }

  lemma NoFileAboveMeans(files: seq<Item>, p: Path)
    ensures NoFileAbove(files, p) <==> forall k | 0 < k < |p| :: p[..k] !in Paths(files)
  {
  }

  lemma SoFarMeans(fold: string -> string, files: seq<Item>)
    requires SafeSoFar(fold, files, |files|)
    ensures DistinctIdentities(fold, files)
    ensures forall i | 0 <= i < |files| :: SafePath(files[i].path) && NoFileAbove(files, files[i].path)
  {
    assert files[..|files|] == files;
  }

  method IsSafe(p: Path) returns (ok: bool)
    ensures ok <==> SafePath(p)
  {
    ok := !IsAbsolute(p) && forall k | 0 <= k < |p| :: p[k] !in {"", ".", ".."};
  }

  /** No two directories, and no directory and file, have the same identity. */
  method AreApart(fold: string -> string, files: seq<Item>, directories: set<Path>, folded: set<Path>)
    returns (apart: bool)
    requires folded == Identities(fold, files)
    ensures apart <==> DirectoriesApart(fold, files, directories)
  {
    var rest, seen := directories, {};
    while rest != {}
      invariant rest <= directories && seen == set d | d in directories - rest :: Identity(fold, d)
      invariant DirectoriesApart(fold, files, directories - rest)
      decreases |rest|
    {
      var d :| d in rest;
      if Identity(fold, d) in seen || Identity(fold, d) in folded {
        if Identity(fold, d) in seen {
          var e :| e in directories - rest && Identity(fold, e) == Identity(fold, d);
        }
        return false;
      }
      seen, rest := seen + {Identity(fold, d)}, rest - {d};
    }
    assert directories - rest == directories;
    return true;
  }

  // ------------------------------------------------------------- what acceptance gives

  lemma SafePathLeads(p: Path)
    ensures SafePath(p) <==> W.Leads(p) == Some(p)
  {
    W.LeadsItself(p);
    if SafePath(p) { assert forall k | 0 <= k < |p| :: W.Descends(p[k]); }
    if W.Leads(p) == Some(p) {
      forall k | 0 <= k < |p| ensures p[k] != "" && p[k] != "." && p[k] != ".." { assert W.Descends(p[k]); }
    }
  }

  /**
   The first `k` parts of file `i` and the first `m` of file `j` are one place on disk only if they are
   spelled alike, and if one of them is the file itself then both are.
   */
  predicate PlacesApart(fold: string -> string, files: seq<Item>, i: nat, k: nat, j: nat, m: nat)
    requires i < |files| && j < |files| && k <= |files[i].path| && m <= |files[j].path|
  {
    var p, q := files[i].path, files[j].path;
    Identity(fold, p[..k]) == Identity(fold, q[..m]) ==> p[..k] == q[..m] && (k == |p| || m == |q| ==> i == j)
  }

  ghost predicate AllPlacesApart(fold: string -> string, files: seq<Item>) {
    forall i, k, j, m | 0 <= i < |files| && 0 < k <= |files[i].path| && 0 <= j < |files| && 0 < m <= |files[j].path| ::
      PlacesApart(fold, files, i, k, j, m)
  }

  /**
   An inventory is accepted exactly if it is within the limits, every file lies where its parts lead,
   below the root, and no two places of the tree meet, even on a disk that ignores case.
   */
  lemma SafeMeansApart(fold: string -> string, files: seq<Item>)
    requires IsInventory(files)
    ensures Safe(fold, files) <==>
      && 0 < |files| <= MAX_ENVIRONMENT_FILES && TotalSize(files) <= MAX_ENVIRONMENT_BYTES
      && (forall i | 0 <= i < |files| :: W.Leads(files[i].path) == Some(files[i].path))
      && AllPlacesApart(fold, files)
  {
    hide SafePath, NoFileAbove, DistinctIdentities, DirectoriesApart, Parents, Identities, PlacesApart;
    SafeMeans(fold, files);
    forall i | 0 <= i < |files| ensures SafePath(files[i].path) <==> W.Leads(files[i].path) == Some(files[i].path) {
      SafePathLeads(files[i].path);
    }
    if Safe(fold, files) {
      forall i, k, j, m | 0 <= i < |files| && 0 < k <= |files[i].path| && 0 <= j < |files| && 0 < m <= |files[j].path|
        ensures PlacesApart(fold, files, i, k, j, m)
      {
        SafeKeepsApart(fold, files, i, k, j, m);
      }
    }
    if AllPlacesApart(fold, files) { ApartIsSafe(fold, files); }
  }

  lemma PlaceIsParent(files: seq<Item>, i: nat, k: nat)
    requires i < |files| && 0 < k < |files[i].path|
    ensures files[i].path[..k] in Parents(files)
  {
  }

  lemma SafeKeepsApart(fold: string -> string, files: seq<Item>, i: nat, k: nat, j: nat, m: nat)
    requires DistinctIdentities(fold, files) && DirectoriesApart(fold, files, Parents(files))
    requires i < |files| && 0 < k <= |files[i].path| && j < |files| && 0 < m <= |files[j].path|
    ensures PlacesApart(fold, files, i, k, j, m)
  {
    hide Parents;
    var p, q := files[i].path, files[j].path;
    assert p[..|p|] == p && q[..|q|] == q;
    if k < |p| { PlaceIsParent(files, i, k); }
    if m < |q| { PlaceIsParent(files, j, m); }
    if k == |p| { assert Identity(fold, p[..k]) in Identities(fold, files); }
    if m == |q| { assert Identity(fold, q[..m]) in Identities(fold, files); }
    if k == |p| && m == |q| && i != j {
      assert if i < j then Identity(fold, p) != Identity(fold, q) else Identity(fold, q) != Identity(fold, p);
    }
  }

  lemma ApartIsSafe(fold: string -> string, files: seq<Item>)
    requires IsInventory(files) && AllPlacesApart(fold, files)
    ensures DistinctIdentities(fold, files) && DirectoriesApart(fold, files, Parents(files))
    ensures forall i | 0 <= i < |files| :: NoFileAbove(files, files[i].path)
  {
    forall i, j | 0 <= i < j < |files| ensures Identity(fold, files[i].path) != Identity(fold, files[j].path) {
      var p, q := files[i].path, files[j].path;
      assert p[..|p|] == p && q[..|q|] == q;
      if p != [] && q != [] { assert PlacesApart(fold, files, i, |p|, j, |q|); }
    }
    forall i, k, j | 0 <= i < |files| && 0 < k < |files[i].path| && 0 <= j < |files|
      ensures files[j].path != files[i].path[..k]
    {
      NotTheFile(fold, files, i, k, j);
    }
    ApartDirectories(fold, files);
  }

  /** A directory above a file is no file, not even if case is ignored. */
  lemma NotTheFile(fold: string -> string, files: seq<Item>, i: nat, k: nat, j: nat)
    requires AllPlacesApart(fold, files) && i < |files| && 0 < k < |files[i].path| && j < |files|
    ensures Identity(fold, files[j].path) != Identity(fold, files[i].path[..k])
  {
    if |files[j].path| == k {
      assert files[j].path[..k] == files[j].path;
      assert PlacesApart(fold, files, i, k, j, k);
    }
  }

  lemma ApartDirectories(fold: string -> string, files: seq<Item>)
    requires AllPlacesApart(fold, files)
    ensures DirectoriesApart(fold, files, Parents(files))
  {
    forall d, e | d in Parents(files) && e in Parents(files) && d != e ensures Identity(fold, d) != Identity(fold, e) {
      var i, k :| 0 <= i < |files| && 0 < k < |files[i].path| && files[i].path[..k] == d;
      var j, m :| 0 <= j < |files| && 0 < m < |files[j].path| && files[j].path[..m] == e;
      assert PlacesApart(fold, files, i, k, j, m);
    }
    forall d | d in Parents(files) ensures Identity(fold, d) !in Identities(fold, files) {
      var i, k :| 0 <= i < |files| && 0 < k < |files[i].path| && files[i].path[..k] == d;
      forall j | 0 <= j < |files| ensures Identity(fold, files[j].path) != Identity(fold, d) {
        NotTheFile(fold, files, i, k, j);
      }
    }
  }

  /** The size of an inventory is the sum over its files. */
  lemma {:induction false} SizesAdd(x: seq<Item>, y: seq<Item>)
    ensures TotalSize(x + y) == TotalSize(x) + TotalSize(y)
    ensures forall f: Item :: TotalSize([f]) == |f.data|
    decreases |y|
  {
    if y == [] {
      assert x + y == x;
    } else {
      assert (x + y)[..|x + y| - 1] == x + y[..|y| - 1];
      SizesAdd(x, y[..|y| - 1]);
    }
    assert forall f: Item :: [f][..0] == [];
  }
}
