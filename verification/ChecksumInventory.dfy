/**
 The checksum inventory of a release (tools/release_chain.py:823-886): one line
 for each released file but the inventory itself, sorted by path.
 Paths are relative to the artifact root; hashing and rendering are given functions.
 */
module ChecksumInventory {
  import opened Common

  type Bytes = seq<bv8>

  const INVENTORY_NAME := "release-artifact-bom.sha256"

  // ------------------------------------------------------------------ order of paths

  /** Python's order of strings. */
  predicate Less(s: string, t: string) {
    if t == "" then false
    else if s == "" then true
    else s[0] < t[0] || (s[0] == t[0] && Less(s[1..], t[1..]))
  }

  lemma {:induction false} LessTotal(s: string, t: string)
    ensures s == t || Less(s, t) || Less(t, s)
    ensures !(Less(s, t) && Less(t, s)) && (s == t ==> !Less(s, t))
  {
    if s != "" && t != "" {
      LessTotal(s[1..], t[1..]);
      assert s == [s[0]] + s[1..] && t == [t[0]] + t[1..];
    }
  }

  lemma {:induction false} LessTransitive(s: string, t: string, u: string)
    requires Less(s, t) && Less(t, u)
    ensures Less(s, u)
  {
    if s != "" && s[0] == t[0] == u[0] { LessTransitive(s[1..], t[1..], u[1..]); }
  }

  predicate Ascending(names: seq<string>) { forall i, j | 0 <= i < j < |names| :: Less(names[i], names[j]) }

  /** Put a name in its place, unless it is there. */
  function Insert(name: string, names: seq<string>): seq<string> {
    if names == [] || Less(name, names[0]) then [name] + names
    else if name == names[0] then names
    else [names[0]] + Insert(name, names[1..])
  }

  lemma {:induction false} InsertKeepsOrder(name: string, names: seq<string>)
    requires Ascending(names)
    ensures Ascending(Insert(name, names)) && forall n :: n in Insert(name, names) <==> n == name || n in names
  {
    if names != [] {
      LessTotal(name, names[0]);
      if Less(name, names[0]) {
        forall i | 0 <= i < |names|
          ensures Less(name, names[i])
        {
          if i > 0 { LessTransitive(name, names[0], names[i]); }
        }
      } else if name != names[0] {
        InsertKeepsOrder(name, names[1..]);
        var rest := Insert(name, names[1..]);
        forall i | 0 <= i < |rest| ensures Less(names[0], rest[i]) { assert rest[i] in rest; }
        assert Ascending([names[0]] + rest);
      }
    }
  }

  /** There is only one way to write a set of names in order. */
  lemma {:induction false} OrderIsUnique(x: seq<string>, y: seq<string>)
    requires Ascending(x) && Ascending(y) && forall n :: n in x <==> n in y
    ensures x == y
    decreases |x|
  {
    if x == [] {
      SomeElement(y);
    } else {
      assert x[0] in y && y[0] in y && y[0] in x;
      FirstIsLeast(x, y[0]);
      FirstIsLeast(y, x[0]);
      LessTotal(x[0], y[0]);
      forall n ensures n in x[1..] <==> n in y[1..] {
        RestOf(x, n);
        RestOf(y, n);
      }
      OrderIsUnique(x[1..], y[1..]);
    }
  }

  lemma SomeElement(y: seq<string>)
    ensures y == [] || exists n :: n in y
  {
    if y != [] { assert y[0] in y; }
  }

  lemma FirstIsLeast(x: seq<string>, n: string)
    requires Ascending(x) && n in x
    ensures n == x[0] || Less(x[0], n)
  {
  }

  lemma RestOf(x: seq<string>, n: string)
    requires Ascending(x) && x != []
    ensures n in x[1..] <==> n in x && n != x[0]
  {
    forall i | 0 < i < |x| ensures x[i] != x[0] { LessTotal(x[0], x[i]); }
    if n in x && n != x[0] {
      var i :| 0 <= i < |x| && x[i] == n;
      assert x[1..][i - 1] == n;
    }
    if n in x[1..] { var i :| 0 <= i < |x| - 1 && x[1..][i] == n; assert x[i + 1] == n; }
  }

  // --------------------------------------------------------------- files and links

  /**
   A file, or a link to another path: to none if it leads out of the artifact
   root.  A path with dots, or through a linked directory, is a link too.
   */
  datatype Entry = Regular(data: Bytes) | Symlink(target: Option<string>)

  type Files = map<string, Entry>

  predicate IsRegular(files: Files, p: string) { p in files && files[p].Regular? }

  /** Where a path leads once all links are followed; nowhere, if out of the root or in a circle. */
  function Follow(files: Files, p: string, seen: set<string>): Option<string>
    decreases files.Keys - seen
  {
    if p !in files || files[p].Regular? then Some(p)
    else if p in seen || files[p].target.None? then None
    else Follow(files, files[p].target.value, seen + {p})
  }

  /** `Path.resolve` below the artifact root. */
  function Real(files: Files, p: string): Option<string> { Follow(files, p, {}) }

  /** The path leads to a file. */
  predicate IsFile(files: Files, p: string) {
    var q := Real(files, p);
    q.Some? && IsRegular(files, q.value)
  }

  /** No link is left where a path leads. */
  lemma {:induction false} RealIsNoLink(files: Files, p: string, seen: set<string>)
    ensures var q := Follow(files, p, seen); q.Some? ==> q.value !in files || files[q.value].Regular?
    ensures IsRegular(files, p) ==> Follow(files, p, seen) == Some(p)
    decreases files.Keys - seen
  {
    if p in files && files[p].Symlink? && p !in seen && files[p].target.Some? {
      RealIsNoLink(files, files[p].target.value, seen + {p});
    }
  }

  /** Writing where no link is changes the way of no path. */
  lemma {:induction false} WriteKeepsLinks(files: Files, q: string, data: Bytes, p: string, seen: set<string>)
    requires q !in files || files[q].Regular?
    ensures Follow(files[q := Regular(data)], p, seen) == Follow(files, p, seen)
    decreases files.Keys - seen
  {
    if p in files && files[p].Symlink? && p !in seen && files[p].target.Some? {
      WriteKeepsLinks(files, q, data, files[p].target.value, seen + {p});
    }
  }

  // -------------------------------------------------------------------- the inventory

  datatype Asset = Asset(name: string, path: string)

  datatype Line = Line(sha256: string, path: string)

  /** Where the released assets lead, but for the inventory itself. */
  function AssetPaths(assets: seq<Asset>, files: Files): set<string> {
    set i | 0 <= i < |assets| && assets[i].name != INVENTORY_NAME && Real(files, assets[i].path).Some? ::
      Real(files, assets[i].path).value
  }

  /** The files an inventory covers: the released assets but itself, and the regular files of the Console. */
  function Covered(assets: seq<Asset>, listing: seq<string>, files: Files): set<string> {
    AssetPaths(assets, files) + set p | p in listing && IsRegular(files, p)
  }

  /**
   When an inventory can be made: it is declared once, all other assets lead to
   files, no link lies in the Console, and the inventory leads to no covered file.
   */
  predicate CanInventory(assets: seq<Asset>, listing: seq<string>, files: Files) {
    && (exists i :: 0 <= i < |assets| && IsOnlyInventory(assets, i))
    && (forall i | 0 <= i < |assets| && assets[i].name != INVENTORY_NAME :: IsFile(files, assets[i].path))
    && (forall p | p in listing && p in files :: files[p].Regular?)
    && (forall i | 0 <= i < |assets| && assets[i].name == INVENTORY_NAME ::
          Real(files, assets[i].path).Some? && Real(files, assets[i].path).value !in Covered(assets, listing, files))
  }

  predicate IsOnlyInventory(assets: seq<Asset>, i: nat)
    requires i < |assets|
  {
    assets[i].name == INVENTORY_NAME && forall j | 0 <= j < |assets| && j != i :: assets[j].name != INVENTORY_NAME
  }

  /** The lines of an inventory of these files. */
  ghost predicate IsInventory(hash: Bytes -> string, files: Files, covered: set<string>, lines: seq<Line>) {
    && Ascending(LinePaths(lines))
    && (forall p :: p in LinePaths(lines) <==> p in covered)
    && forall i | 0 <= i < |lines| ::
         IsRegular(files, lines[i].path) && lines[i].sha256 == hash(files[lines[i].path].data)
  }

  function LinePaths(lines: seq<Line>): (r: seq<string>)
    ensures |r| == |lines| && forall i | 0 <= i < |r| :: r[i] == lines[i].path
  {
    seq(|lines|, i requires 0 <= i < |lines| => lines[i].path)
  }

  /** An inventory depends only on which files it covers and their bytes, not on how they were listed. */
  lemma InventoryIsUnique(hash: Bytes -> string, files: Files, covered: set<string>, x: seq<Line>, y: seq<Line>)
    requires IsInventory(hash, files, covered, x) && IsInventory(hash, files, covered, y)
    ensures x == y
  {
    OrderIsUnique(LinePaths(x), LinePaths(y));
    forall i | 0 <= i < |x| ensures x[i] == y[i] {
      assert LinePaths(x)[i] == LinePaths(y)[i];
    }
  }

  /** The one asset that is the inventory. */
  method FindInventory(assets: seq<Asset>) returns (r: Option<nat>)
    ensures r.Some? ==> r.value < |assets| && IsOnlyInventory(assets, r.value)
    ensures r.None? ==> forall i | 0 <= i < |assets| :: !IsOnlyInventory(assets, i)
  {
    r := None;
    for i := 0 to |assets|
      invariant r.Some? ==> r.value < i && assets[r.value].name == INVENTORY_NAME
      invariant r.Some? ==> forall j | 0 <= j < i && j != r.value :: assets[j].name != INVENTORY_NAME
      invariant r.None? ==> forall j | 0 <= j < i :: assets[j].name != INVENTORY_NAME
    {
      if assets[i].name == INVENTORY_NAME {
        if r.Some? { return None; }
        r := Some(i);
      }
    }
  }

  lemma AssetPathsGrow(assets: seq<Asset>, files: Files, i: nat)
    requires i < |assets| && (assets[i].name != INVENTORY_NAME ==> Real(files, assets[i].path).Some?)
    ensures AssetPaths(assets[..i + 1], files) ==
            AssetPaths(assets[..i], files)
            + if assets[i].name != INVENTORY_NAME then {Real(files, assets[i].path).value} else {}
  {
    hide Real;
    var more, less := assets[..i + 1], assets[..i];
    assert more == less + [assets[i]];
    forall p | p in AssetPaths(less, files) ensures p in AssetPaths(more, files) {
      var j :| 0 <= j < i && less[j].name != INVENTORY_NAME && Real(files, less[j].path) == Some(p);
      assert more[j] == less[j];
    }
    if assets[i].name != INVENTORY_NAME { assert more[i] == assets[i]; }
  }

  /** Add where the assets lead, in order, if all lead to files. */
  method CoverAssets(assets: seq<Asset>, files: Files) returns (ok: bool, names: seq<string>)
    ensures ok <==> forall i | 0 <= i < |assets| && assets[i].name != INVENTORY_NAME :: IsFile(files, assets[i].path)
    ensures ok ==> Ascending(names) && forall n :: n in names <==> n in AssetPaths(assets, files)
  {
    hide Ascending, Insert, Real, AssetPaths;
    names := [];
    NothingCovered(files);
    for i := 0 to |assets|
      invariant Ascending(names) && forall n :: n in names <==> n in AssetPaths(assets[..i], files)
      invariant forall j | 0 <= j < i && assets[j].name != INVENTORY_NAME :: IsFile(files, assets[j].path)
    {
      if assets[i].name != INVENTORY_NAME {
        if !IsFile(files, assets[i].path) { return false, names; }
        var path := Real(files, assets[i].path).value;
        InsertKeepsOrder(path, names);
        names := Insert(path, names);
      }
      AssetPathsGrow(assets, files, i);
    }
    assert assets[..|assets|] == assets;
    return true, names;
  }

  lemma NothingCovered(files: Files)
    ensures Ascending([]) && AssetPaths([], files) == {}
  {
  }

  /** The covered files, in order, if all assets lead to files and no link lies in the Console. */
  method Cover(assets: seq<Asset>, listing: seq<string>, files: Files) returns (ok: bool, names: seq<string>)
    ensures ok <==> (forall i | 0 <= i < |assets| && assets[i].name != INVENTORY_NAME :: IsFile(files, assets[i].path))
                    && (forall p | p in listing && p in files :: files[p].Regular?)
    ensures ok ==> Ascending(names) && forall n :: n in names <==> n in Covered(assets, listing, files)
  {
    hide Ascending, Insert, IsFile, AssetPaths;
    ok, names := CoverAssets(assets, files);
    if !ok { return; }
    for i := 0 to |listing|
      invariant Ascending(names) && forall n ::
        n in names <==> n in AssetPaths(assets, files) || (n in listing[..i] && IsRegular(files, n))
      invariant forall p | p in listing[..i] && p in files :: files[p].Regular?
    {
      assert listing[..i + 1] == listing[..i] + [listing[i]];
      if listing[i] in files {
        if files[listing[i]].Symlink? { return false, names; }
        InsertKeepsOrder(listing[i], names);
        names := Insert(listing[i], names);
      }
    }
    assert listing[..|listing|] == listing;
  }

  /** One line for each covered file. */
  method WriteLines(hash: Bytes -> string, files: Files, names: seq<string>) returns (lines: seq<Line>)
    requires forall i | 0 <= i < |names| :: IsRegular(files, names[i])
    ensures LinePaths(lines) == names
    ensures forall i | 0 <= i < |lines| ::
      IsRegular(files, lines[i].path) && lines[i].sha256 == hash(files[lines[i].path].data)
  {
    lines := [];
    for i := 0 to |names|
      invariant |lines| == i && forall j | 0 <= j < i :: lines[j] == Line(hash(files[names[j]].data), names[j])
    {
      lines := lines + [Line(hash(files[names[i]].data), names[i])];
    }
  }

  /** What a rebuild leaves behind: the lines of the covered files, and the inventory written where its asset leads. */
  ghost predicate Inventoried(hash: Bytes -> string, render: seq<Line> -> Bytes, assets: seq<Asset>,
                              listing: seq<string>, files: Files,
                              files': Files, lines: seq<Line>, inventory: string) {
    && IsInventory(hash, files, Covered(assets, listing, files), lines)
    && (exists i :: 0 <= i < |assets| && IsOnlyInventory(assets, i) && Real(files, assets[i].path) == Some(inventory))
    && inventory !in Covered(assets, listing, files) && files' == files[inventory := Regular(render(lines))]
  }

  /**
   Rebuild the inventory of a release, exactly if it can be made: one line for
   each covered file, in order, with the hash of its bytes, and no other file written.
   */
  method RebuildInventory(hash: Bytes -> string, render: seq<Line> -> Bytes, assets: seq<Asset>, listing: seq<string>,
                          files: Files)
    returns (r: Result<Files>, lines: seq<Line>, inventory: string)
    ensures r.Ok? <==> CanInventory(assets, listing, files)
    ensures r.Ok? ==> Inventoried(hash, render, assets, listing, files, r.value, lines, inventory)
  {
    hide Ascending, Real, IsFile, Covered;
    lines, inventory := [], "";
    var found := FindInventory(assets);
    if found.None? { return Err("checksum inventory declaration must be unique"), lines, inventory; }
    var place := Real(files, assets[found.value].path);
    if place.None? { return Err("checksum inventory must be under the artifact staging root"), lines, inventory; }
    inventory := place.value;
    var ok, names := Cover(assets, listing, files);
    if !ok { return Err("missing or symlink artifact"), lines, inventory; }
    if inventory in names { return Err("checksum inventory must not hash itself"), lines, inventory; }
    CoveredIsRegular(assets, listing, files);
    lines := WriteLines(hash, files, names);
    return Ok(files[inventory := Regular(render(lines))]), lines, inventory;
  }

  lemma CoveredIsRegular(assets: seq<Asset>, listing: seq<string>, files: Files)
    requires forall i | 0 <= i < |assets| && assets[i].name != INVENTORY_NAME :: IsFile(files, assets[i].path)
    ensures forall p | p in Covered(assets, listing, files) :: IsRegular(files, p)
  {
    hide Real;
  }

  /** Any two listings of one tree give the same inventory. */
  lemma ListingOrderDoesNotMatter(hash: Bytes -> string, files: Files, assets: seq<Asset>, x: seq<string>,
                                  y: seq<string>, linesX: seq<Line>, linesY: seq<Line>)
    requires forall p :: p in x <==> p in y
    requires IsInventory(hash, files, Covered(assets, x, files), linesX)
    requires IsInventory(hash, files, Covered(assets, y, files), linesY)
    ensures linesX == linesY
  {
    hide Real;
    assert Covered(assets, x, files) == Covered(assets, y, files);
    InventoryIsUnique(hash, files, Covered(assets, x, files), linesX, linesY);
  }

  /** The rebuild changes no path's way, and no bytes but those of the inventory. */
  lemma RebuildKeepsFiles(hash: Bytes -> string, render: seq<Line> -> Bytes, assets: seq<Asset>, listing: seq<string>,
                          files: Files,
                          files': Files, lines: seq<Line>, inventory: string, p: string)
    requires Inventoried(hash, render, assets, listing, files, files', lines, inventory)
    ensures Real(files', p) == Real(files, p)
    ensures Real(files, p) == Some(inventory) ==> IsFile(files', p) && files'[inventory].data == render(lines)
    ensures Real(files, p).Some? && Real(files, p) != Some(inventory) ==>
      var q := Real(files, p).value;
        (IsFile(files', p) <==> IsFile(files, p)) && (q in files <==> q in files')
        && (q in files ==> files'[q] == files[q])
  {
    hide IsInventory, Covered;
    var i :| 0 <= i < |assets| && IsOnlyInventory(assets, i) && Real(files, assets[i].path) == Some(inventory);
    RealIsNoLink(files, assets[i].path, {});
    WriteKeepsLinks(files, inventory, render(lines), p, {});
  }

  /** After the rebuild, every released asset but the inventory leads to a file whose line has the hash of its bytes. */
  lemma LinesAgreeAfterwards(hash: Bytes -> string, render: seq<Line> -> Bytes, assets: seq<Asset>,
                             listing: seq<string>, files: Files,
                             files': Files, lines: seq<Line>, inventory: string, i: nat)
    requires CanInventory(assets, listing, files)
    requires Inventoried(hash, render, assets, listing, files, files', lines, inventory)
    requires i < |assets| && assets[i].name != INVENTORY_NAME
    ensures IsFile(files', assets[i].path)
    ensures var q := Real(files', assets[i].path).value; Line(hash(files'[q].data), q) in lines && q != inventory
  {
    hide Real;
    var q := Real(files, assets[i].path).value;
    assert q in Covered(assets, listing, files) && q in LinePaths(lines);
    RebuildKeepsFiles(hash, render, assets, listing, files, files', lines, inventory, assets[i].path);
    var j :| 0 <= j < |lines| && LinePaths(lines)[j] == q;
    assert lines[j] == Line(hash(files[q].data), q);
  }

  /**
   A released asset that is a link is followed: its line has the path that it leads
   to, and two assets may share one line.  Only links met in the Console are refused.
   */
  lemma LinkedAssetIsFollowed(hash: Bytes -> string, data: Bytes, lines: seq<Line>)
    requires var files := map["a.whl" := Symlink(Some("b.whl")), "b.whl" := Regular(data)];
      IsInventory(hash, files,
                  Covered([Asset("a", "a.whl"), Asset("b", "b.whl"), Asset(INVENTORY_NAME, "sums")], [], files), lines)
    ensures var files := map["a.whl" := Symlink(Some("b.whl")), "b.whl" := Regular(data)];
      var assets := [Asset("a", "a.whl"), Asset("b", "b.whl"), Asset(INVENTORY_NAME, "sums")];
      CanInventory(assets, [], files) && !CanInventory(assets, ["a.whl"], files)
    ensures lines == [Line(hash(data), "b.whl")]
  {
    var files: Files := map["a.whl" := Symlink(Some("b.whl")), "b.whl" := Regular(data)];
    var assets := [Asset("a", "a.whl"), Asset("b", "b.whl"), Asset(INVENTORY_NAME, "sums")];
    RealIsNoLink(files, "b.whl", {} + {"a.whl"});
    assert Follow(files, "a.whl", {}) == Follow(files, "b.whl", {} + {"a.whl"});
    assert Real(files, "b.whl") == Some("b.whl") && Real(files, "sums") == Some("sums");
    assert assets[0].name == "a" && assets[1].name == "b";
    assert IsOnlyInventory(assets, 2);
    OneCovered(assets, files);
    var one := [Line(hash(data), "b.whl")];
    assert LinePaths(one) == ["b.whl"];
    InventoryIsUnique(hash, files, {"b.whl"}, lines, one);
  }

  lemma OneCovered(assets: seq<Asset>, files: Files)
    requires assets == [Asset("a", "a.whl"), Asset("b", "b.whl"), Asset(INVENTORY_NAME, "sums")]
    requires Real(files, "a.whl") == Real(files, "b.whl") == Some("b.whl")
    ensures Covered(assets, [], files) == {"b.whl"}
  {
    hide Real;
    assert assets[0].path == "a.whl" && assets[0].name != INVENTORY_NAME;
  }
}
