/**
 Writing an environment tree (src/spl/embedded.py:1478-1509): directories from the
 top, then files that must not exist yet, then read-only modes from the bottom.
 The file system is a map from paths to entries; its own comparison of names may
 ignore case, as long as it keeps apart what `casefold` keeps apart.
 */
module EnvironmentTree {
  import opened Common
  import opened EnvironmentInventory

  datatype Entry = Folder(mode: nat) | Plain(data: Bytes, mode: nat)

  type FileSystem = map<Path, Entry>

  const NEW_FOLDER: nat := 0x1c0   // 0o700
  const NEW_FILE: nat := 0x180     // 0o600
  const READ_ONLY: nat := 0x16d    // 0o555

  /** The owner may create entries. */
  predicate Writable(mode: nat) { mode / 0x80 % 2 == 1 }

  ghost predicate KeepsApart(look: string -> string, fold: string -> string) {
    forall a, b | look(a) == look(b) :: fold(a) == fold(b)
  }

  lemma ApartLooksApart(look: string -> string, fold: string -> string, p: Path, q: Path)
    requires KeepsApart(look, fold) && Identity(fold, p) != Identity(fold, q)
    ensures Identity(look, p) != Identity(look, q)
  {
    if |p| == |q| {
      var k :| 0 <= k < |p| && Identity(fold, p)[k] != Identity(fold, q)[k];
      assert look(p[k]) != look(q[k]);
      assert Identity(look, p)[k] != Identity(look, q)[k];
    } else {
      assert |Identity(look, p)| != |Identity(look, q)|;
    }
  }

  /** The file system already has an entry that it cannot tell from `p`. */
  predicate Taken(look: string -> string, fs: FileSystem, p: Path) {
    exists q | q in fs :: Identity(look, q) == Identity(look, p)
  }

  function Parent(p: Path): Path
    requires p != []
  {
    p[..|p| - 1]
  }

  /** Create an entry; fails if there is one already or its directory is missing or read-only. */
  function Create(look: string -> string, fs: FileSystem, p: Path, e: Entry): Result<FileSystem> {
    if Taken(look, fs, p) then Err("exists")
    else if p == [] || Parent(p) !in fs || !fs[Parent(p)].Folder? then Err("no directory")
    else if !Writable(fs[Parent(p)].mode) then Err("denied")
    else Ok(fs[p := e])
  }

  function EntryAt(files: seq<Item>, p: Path): (e: Entry)
    requires p in Paths(files)
    ensures e.Plain? && exists i :: 0 <= i < |files| && files[i].path == p && e == Plain(files[i].data, files[i].mode)
  {
    var last := files[|files| - 1];
    if last.path == p then Plain(last.data, last.mode)
    else
      assert p in Paths(files[..|files| - 1]) by {
        var i :| 0 <= i < |files| && files[i].path == p;
        assert files[..|files| - 1][i].path == p;
      }
      EntryAt(files[..|files| - 1], p)
  }

  lemma {:induction false} EntryAtItem(files: seq<Item>, i: nat)
    requires IsInventory(files) && i < |files|
    ensures files[i].path in Paths(files) && EntryAt(files, files[i].path) == Plain(files[i].data, files[i].mode)
  {
    if i < |files| - 1 {
      EntryAtItem(files[..|files| - 1], i);
      assert files[i].path != files[|files| - 1].path;
    }
  }

  /** The finished tree: the files with their bytes and modes, and read-only directories. */
  function Expected(files: seq<Item>): FileSystem {
    map p | p in {[]} + Parents(files) + Paths(files) :: if p in Paths(files) then EntryAt(files, p)
    else Folder(READ_ONLY)
  }

  // -------------------------------------------------------------------- what is safe

  lemma SafeIsInventory(fold: string -> string, files: seq<Item>)
    requires Safe(fold, files)
    ensures IsInventory(files)
  {
    forall i, j | 0 <= i < j < |files| ensures files[i].path != files[j].path {
      assert Identity(fold, files[i].path) != Identity(fold, files[j].path);
    }
  }

  /** The directory above a directory or file is the root or a directory of the inventory. */
  lemma ParentIsParent(files: seq<Item>, p: Path)
    requires p != [] && (p in Parents(files) || p in Paths(files))
    ensures Parent(p) == [] || Parent(p) in Parents(files)
  {
    if p in Parents(files) {
      var i, k :| 0 <= i < |files| && 0 < k < |files[i].path| && files[i].path[..k] == p;
      assert files[i].path[..k][..k - 1] == files[i].path[..k - 1];
      if k > 1 { assert files[i].path[..k - 1] in Parents(files); }
    } else {
      var i :| 0 <= i < |files| && files[i].path == p;
      if |p| > 1 { assert files[i].path[..|p| - 1] in Parents(files); }
    }
  }

  lemma NoFileIsParent(fold: string -> string, files: seq<Item>)
    requires Safe(fold, files)
    ensures Parents(files) !! Paths(files) && [] !in Parents(files)
  {
    forall d | d in Parents(files) ensures d !in Paths(files) && d != [] {
      var i, k :| 0 <= i < |files| && 0 < k < |files[i].path| && files[i].path[..k] == d;
      assert NoFileAbove(files, files[i].path);
    }
  }

  /** A new directory meets no other directory and not the root. */
  lemma DirectoryIsFree(look: string -> string, fold: string -> string, files: seq<Item>, fs: FileSystem, d: Path)
    requires KeepsApart(look, fold) && Safe(fold, files) && d in Parents(files)
    requires fs.Keys <= {[]} + Parents(files) - {d}
    ensures !Taken(look, fs, d)
  {
    NoFileIsParent(fold, files);
    forall q | q in fs ensures Identity(look, q) != Identity(look, d) {
      if q == [] { assert |Identity(fold, q)| != |Identity(fold, d)|; }
      else { assert q in Parents(files) && q != d; }
      ApartLooksApart(look, fold, q, d);
    }
  }

  /** A new file meets no directory, no file before it and not the root. */
  lemma FileIsFree(look: string -> string, fold: string -> string, files: seq<Item>, fs: FileSystem, i: nat)
    requires KeepsApart(look, fold) && Safe(fold, files) && i < |files| && files[i].path != []
    requires fs.Keys == {[]} + Parents(files) + Paths(files[..i])
    ensures !Taken(look, fs, files[i].path)
  {
    var p := files[i].path;
    assert Identity(fold, p) in Identities(fold, files);
    forall q | q in fs ensures Identity(look, q) != Identity(look, p) {
      if q == [] { assert |Identity(fold, q)| != |Identity(fold, p)|; }
      else if q in Paths(files[..i]) { EarlierFileDiffers(fold, files, i, q); }
      ApartLooksApart(look, fold, q, p);
    }
  }

  lemma EarlierFileDiffers(fold: string -> string, files: seq<Item>, i: nat, q: Path)
    requires DistinctIdentities(fold, files) && i < |files| && q in Paths(files[..i])
    ensures Identity(fold, q) != Identity(fold, files[i].path)
  {
    var j :| 0 <= j < i && files[..i][j].path == q;
    assert files[j].path == q;
  }

  // ------------------------------------------------------------------------- writing

  predicate EmptyFolder(fs: FileSystem) { fs.Keys == {[]} && fs[[]].Folder? }

  /** A directory of the least depth: its parent is made before it. */
  predicate Shallowest(rest: set<Path>, d: Path) { d in rest && forall e | e in rest :: |d| <= |e| }

  lemma {:induction false} SomeShallowest(rest: set<Path>)
    requires rest != {}
    ensures exists d :: Shallowest(rest, d)
  {
    var d :| d in rest;
    if rest == {d} { assert Shallowest(rest, d); }
    else {
      SomeShallowest(rest - {d});
      var e :| Shallowest(rest - {d}, e);
      var m := if |d| < |e| then d else e;
      forall f | f in rest ensures |m| <= |f| { if f != d { assert f in rest - {d}; } }
      assert Shallowest(rest, m);
    }
  }

  /** The root, and new directories. */
  predicate OnlyFolders(fs: FileSystem, made: set<Path>) {
    fs.Keys == {[]} + made && forall d | d in fs :: fs[d].Folder? && Writable(fs[d].mode)
  }

  lemma OneMoreDirectory(look: string -> string, fold: string -> string, files: seq<Item>, fs: FileSystem,
                         rest: set<Path>, d: Path)
    requires KeepsApart(look, fold) && Safe(fold, files) && rest <= Parents(files) && Shallowest(rest, d)
    requires OnlyFolders(fs, Parents(files) - rest)
    ensures Create(look, fs, d, Folder(NEW_FOLDER)) == Ok(fs[d := Folder(NEW_FOLDER)])
    ensures OnlyFolders(fs[d := Folder(NEW_FOLDER)], Parents(files) - (rest - {d}))
  {
    hide Safe, Parents, KeepsApart, Identity, Taken;
    NoFileIsParent(fold, files);
    ParentIsParent(files, d);
    DirectoryIsFree(look, fold, files, fs, d);
    assert Parent(d) !in rest;
    assert Parents(files) - (rest - {d}) == Parents(files) - rest + {d};
  }

  lemma ReadOnlyRoot(look: string -> string, fs: FileSystem, d: Path, e: Entry)
    requires EmptyFolder(fs) && !Writable(fs[[]].mode)
    ensures Create(look, fs, d, e).Err?
  {
  }

  method MakeDirectories(look: string -> string, ghost fold: string -> string, files: seq<Item>, directories: set<Path>,
                         fs0: FileSystem)
    returns (r: Result<FileSystem>)
    requires KeepsApart(look, fold) && Safe(fold, files) && directories == Parents(files)
    requires EmptyFolder(fs0)
    ensures r.Ok? <==> directories == {} || Writable(fs0[[]].mode)
    ensures r.Ok? && directories != {} ==> OnlyFolders(r.value, directories)
    ensures r.Ok? && directories == {} ==> r.value == fs0
  {
    hide Safe, Parents, KeepsApart, Create, Shallowest;
    var fs, rest := fs0, directories;
    while rest != {}
      invariant rest <= directories && (directories == {} ==> fs == fs0)
      invariant if Writable(fs0[[]].mode) then OnlyFolders(fs, directories - rest) else rest == directories && fs == fs0
      decreases |rest|
    {
      SomeShallowest(rest);
      var d :| Shallowest(rest, d);
      if Writable(fs0[[]].mode) { OneMoreDirectory(look, fold, files, fs, rest, d); }
      else { ReadOnlyRoot(look, fs, d, Folder(NEW_FOLDER)); }
      var made := Create(look, fs, d, Folder(NEW_FOLDER));
      if made.Err? { return made; }
      IsMember(rest, d);
      fs, rest := made.value, rest - {d};
    }
    assert directories - rest == directories;
    return Ok(fs);
  }

  lemma IsMember(rest: set<Path>, d: Path)
    requires Shallowest(rest, d)
    ensures d in rest
  {
  }

  /** Directories and the first `i` files. */
  predicate WithFiles(fs: FileSystem, files: seq<Item>, i: nat)
    requires i <= |files|
  {
    && fs.Keys == {[]} + Parents(files) + Paths(files[..i])
    && (forall d | d in {[]} + Parents(files) :: d in fs && fs[d].Folder? && Writable(fs[d].mode))
    && (forall j | 0 <= j < i :: files[j].path in fs && fs[files[j].path] == Plain(files[j].data, files[j].mode))
  }

  lemma PathsGrow(files: seq<Item>, i: nat)
    requires i < |files|
    ensures Paths(files[..i + 1]) == Paths(files[..i]) + {files[i].path}
  {
    var more, less := files[..i + 1], files[..i];
    assert more[i] == files[i];
    forall p | p in Paths(less) ensures p in Paths(more) {
      var j :| 0 <= j < i && less[j].path == p;
      assert more[j].path == p;
    }
    forall p | p in Paths(more) ensures p in Paths(less) + {files[i].path} {
      var j :| 0 <= j < i + 1 && more[j].path == p;
      if j < i { assert less[j].path == p; }
    }
  }

  lemma OneMoreFile(look: string -> string, fold: string -> string, files: seq<Item>, fs: FileSystem, i: nat)
    requires KeepsApart(look, fold) && Safe(fold, files) && i < |files| && files[i].path != []
    requires WithFiles(fs, files, i)
    ensures Create(look, fs, files[i].path, Plain(files[i].data, NEW_FILE)).Ok?
    ensures WithFiles(fs[files[i].path := Plain(files[i].data, files[i].mode)], files, i + 1)
  {
    hide Safe, Parents, KeepsApart, Identity, Taken;
    var p := files[i].path;
    FileIsFree(look, fold, files, fs, i);
    ParentIsParent(files, p);
    NoFileIsParent(fold, files);
    SafeIsInventory(fold, files);
    PathsGrow(files, i);
  }

  /** The root is the one path that the validation lets through although it is there already. */
  lemma RootIsTaken(look: string -> string, fs: FileSystem, e: Entry)
    requires [] in fs
    ensures Create(look, fs, [], e).Err?
  {
    assert Identity(look, []) == Identity(look, []);
  }

  /** The directories are there; the root may still be read-only if it needs none. */
  predicate FoldersMade(fs: FileSystem, files: seq<Item>) {
    && fs.Keys == {[]} + Parents(files)
    && (forall d | d in fs :: fs[d].Folder? && (Parents(files) != {} ==> Writable(fs[d].mode)))
  }

  lemma MadeIsReady(fs: FileSystem, files: seq<Item>)
    requires FoldersMade(fs, files) && Writable(fs[[]].mode)
    ensures WithFiles(fs, files, 0)
  {
    assert Paths(files[..0]) == {};
  }

  lemma FirstFileDenied(look: string -> string, fs: FileSystem, files: seq<Item>, e: Entry)
    requires FoldersMade(fs, files) && !Writable(fs[[]].mode) && files != []
    ensures Create(look, fs, files[0].path, e).Err?
  {
  }

  method WriteFiles(look: string -> string, ghost fold: string -> string, files: seq<Item>, fs0: FileSystem)
    returns (r: Result<FileSystem>)
    requires KeepsApart(look, fold) && Safe(fold, files) && files != [] && FoldersMade(fs0, files) && [] in fs0
    ensures r.Ok? <==> [] !in Paths(files) && Writable(fs0[[]].mode)
    ensures r.Ok? ==> WithFiles(r.value, files, |files|)
  {
    hide Safe, Parents, KeepsApart, WithFiles, Create, FoldersMade;
    var fs := fs0;
    if Writable(fs0[[]].mode) { MadeIsReady(fs0, files); }
    for i := 0 to |files|
      invariant if Writable(fs0[[]].mode) then WithFiles(fs, files, i) else i == 0 && fs == fs0
      invariant forall j | 0 <= j < i :: files[j].path != []
    {
      var p := files[i].path;
      var e := Plain(files[i].data, NEW_FILE);
      if !Writable(fs0[[]].mode) { FirstFileDenied(look, fs, files, e); }
      else if p == [] { HasRoot(fs, files, i); RootIsTaken(look, fs, e); }
      else { OneMoreFile(look, fold, files, fs, i); }
      var made := Create(look, fs, p, e);
      if made.Err? { return made; }
      CreateAdds(look, fs, p, e, Plain(files[i].data, files[i].mode));
      fs := made.value[p := Plain(files[i].data, files[i].mode)];
    }
    return Ok(fs);
  }

  lemma HasRoot(fs: FileSystem, files: seq<Item>, i: nat)
    requires i <= |files| && WithFiles(fs, files, i)
    ensures [] in fs
  {
    assert [] in {[]} + Parents(files);
  }

  lemma CreateAdds(look: string -> string, fs: FileSystem, p: Path, e: Entry, f: Entry)
    requires Create(look, fs, p, e).Ok?
    ensures Create(look, fs, p, e).value == fs[p := e]
    ensures fs[p := e][p := f] == fs[p := f]
  {
  }

  /** Make the directories read-only, then the root. */
  method Seal(fs0: FileSystem, directories: set<Path>) returns (fs: FileSystem)
    requires directories <= fs0.Keys && [] in fs0
    ensures fs == map p | p in fs0 :: if p in directories + {[]} then Folder(READ_ONLY) else fs0[p]
  {
    fs := fs0;
    var rest := directories;
    while rest != {}
      invariant rest <= directories
      invariant fs == map p | p in fs0 :: if p in directories - rest then Folder(READ_ONLY) else fs0[p]
      decreases |rest|
    {
      var d :| d in rest;
      fs, rest := fs[d := Folder(READ_ONLY)], rest - {d};
    }
    fs := fs[[] := Folder(READ_ONLY)];
  }

  lemma SealedIsExpected(fold: string -> string, files: seq<Item>, fs: FileSystem, sealed: FileSystem)
    requires Safe(fold, files) && WithFiles(fs, files, |files|) && [] !in Paths(files)
    requires sealed == map p | p in fs :: if p in Parents(files) + {[]} then Folder(READ_ONLY) else fs[p]
    ensures sealed == Expected(files)
  {
    hide Safe, Parents;
    assert files[..|files|] == files;
    NoFileIsParent(fold, files);
    SafeIsInventory(fold, files);
    forall p | p in Paths(files) ensures fs[p] == EntryAt(files, p) {
      var i :| 0 <= i < |files| && files[i].path == p;
      EntryAtItem(files, i);
    }
  }

  lemma FoldersAreMade(fold: string -> string, fs: FileSystem, files: seq<Item>, fs0: FileSystem)
    requires Safe(fold, files) && EmptyFolder(fs0)
    requires if Parents(files) == {} then fs == fs0 else OnlyFolders(fs, Parents(files)) && Writable(fs0[[]].mode)
    ensures files != [] && FoldersMade(fs, files) && [] in fs && (Writable(fs[[]].mode) <==> Writable(fs0[[]].mode))
  {
    hide Parents;
  }

  lemma FilledHas(fs: FileSystem, files: seq<Item>)
    requires WithFiles(fs, files, |files|)
    ensures Parents(files) <= fs.Keys && [] in fs
  {
    assert [] in {[]} + Parents(files);
  }

  /**
   Write an inventory into an empty directory.  On any file system that keeps apart
   what `casefold` keeps apart, this gives exactly the expected tree, or fails: and
   it fails only if the directory is not fit, the validation refuses the
   inventory, or the inventory has a file at the root itself.
   */
  method WriteEnvironmentTree(look: string -> string, fold: string -> string, files: seq<Item>, fs0: FileSystem)
    returns (r: Result<FileSystem>)
    requires KeepsApart(look, fold)
    ensures r.Ok? <==> EmptyFolder(fs0) && Safe(fold, files) && [] !in Paths(files) && Writable(fs0[[]].mode)
    ensures r.Ok? ==> r.value == Expected(files)
  {
    hide Safe, Parents, KeepsApart, WithFiles;
    if !EmptyFolder(fs0) { return Err("embedded_environment_build_failed"); }
    var valid := ValidateExpectedFiles(fold, files);
    if valid.Err? { return Err(valid.code); }
    var directories := valid.value;
    var folders := MakeDirectories(look, fold, files, directories, fs0);
    if folders.Err? { return folders; }
    FoldersAreMade(fold, folders.value, files, fs0);
    var filled := WriteFiles(look, fold, files, folders.value);
    if filled.Err? { return filled; }
    FilledHas(filled.value, files);
    var sealed := Seal(filled.value, directories);
    SealedIsExpected(fold, files, filled.value, sealed);
    return Ok(sealed);
  }

  /** The validation does not refuse a file at the root itself, which can never be written. */
  lemma RootFileIsAccepted(fold: string -> string, data: Bytes, mode: nat)
    requires |data| <= MAX_ENVIRONMENT_BYTES
    ensures var files := [Item([], data, mode)];
      Safe(fold, files) && [] in Paths(files) && Parents(files) == {}
  {
    var files := [Item([], data, mode)];
    assert files[0].path in Paths(files);
    assert files[..0] == [] && TotalSize(files) == |data|;
  }
}
