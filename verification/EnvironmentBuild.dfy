/**
 Building an environment (src/spl/embedded.py:2160-2241): the inventory is written
 into a new directory, which is then checked against the same inventory.  A tree
 on disk shows a file system map; every map in which all parents are directories
 is shown by some tree.
 */
module EnvironmentBuild {
  import opened Common
  import opened EnvironmentInventory
  import opened EnvironmentTree
  import opened EnvironmentVerify
  import opened EnvironmentExact

  // ---------------------------------------------------- trees that show a file system

  ghost predicate TreeShaped(fs: FileSystem) {
    && [] in fs && fs[[]].Folder?
    && forall p | p in fs && p != [] :: Parent(p) in fs && fs[Parent(p)].Folder?
  }

  ghost predicate Shown(fs: FileSystem, q: Path, t: Option<Tree>) {
    if q in fs then AsEntry(t) == Some(fs[q]) else t == None
  }

  /** A walk over the tree meets what the map says, and nothing else. */
  ghost predicate Shows(t: Tree, fs: FileSystem) {
    && t.Directory? && UniqueNames(t.entries) && [] in fs && fs[[]] == Folder(t.mode)
    && forall q | q != [] :: Shown(fs, q, Below(t.entries, q))
  }

  lemma {:induction false} PrefixIsFolder(fs: FileSystem, p: Path, k: nat)
    requires TreeShaped(fs) && p in fs && k < |p|
    ensures p[..k] in fs && fs[p[..k]].Folder?
  {
    if k < |p| - 1 {
      PrefixIsFolder(fs, Parent(p), k);
      assert Parent(p)[..k] == p[..k];
    }
  }

  function NamesAt(fs: FileSystem, at: Path): set<string> {
    set p | p in fs && |p| == |at| + 1 && p[..|at|] == at :: p[|at|]
  }

  lemma NamedIsThere(fs: FileSystem, at: Path, n: string)
    ensures n in NamesAt(fs, at) <==> at + [n] in fs
  {
    if at + [n] in fs { assert (at + [n])[..|at|] == at && (at + [n])[|at|] == n; }
    if n in NamesAt(fs, at) {
      var p :| p in fs && |p| == |at| + 1 && p[..|at|] == at && p[|at|] == n;
      assert p == at + [n];
    }
  }

  /** The first name on the way to an entry is there, and a directory if the way goes on. */
  lemma FirstIsThere(fs: FileSystem, at: Path, q: Path)
    requires TreeShaped(fs) && q != [] && at + q in fs
    ensures q[0] in NamesAt(fs, at) && at + [q[0]] in fs && (|q| > 1 ==> fs[at + [q[0]]].Folder?)
  {
    hide TreeShaped, NamesAt;
    assert (at + q)[..|at| + 1] == at + [q[0]];
    if |q| > 1 { PrefixIsFolder(fs, at + q, |at| + 1); } else { assert q == [q[0]]; }
    NamedIsThere(fs, at, q[0]);
  }

  function Lower(fs: FileSystem, at: Path): set<Path> { set p | p in fs && at < p }

  lemma ChildIsLower(fs: FileSystem, at: Path, n: string)
    requires at + [n] in fs
    ensures |Lower(fs, at + [n])| < |Lower(fs, at)|
  {
    var c := at + [n];
    forall p | p in Lower(fs, c) ensures p in Lower(fs, at) {
      assert at <= c && c <= p && |at| < |p|;
      assert forall i | 0 <= i < |at| :: at[i] == c[i] == p[i];
    }
    assert c in Lower(fs, at) && c !in Lower(fs, c);
    Fewer(Lower(fs, c), Lower(fs, at), c);
  }

  lemma Fewer(x: set<Path>, y: set<Path>, p: Path)
    requires x <= y && p in y && p !in x
    ensures |x| < |y|
  {
    assert y == x + (y - x);
    assert |y| == |x| + |y - x|;
  }

  /** What is to be found below the entries with these names. */
  ghost predicate ShowsNames(fs: FileSystem, at: Path, names: set<string>, entries: seq<Named>) {
    && UniqueNames(entries) && (forall i | 0 <= i < |entries| :: entries[i].name in names)
    && forall q | q != [] ::
         if q[0] in names then Shown(fs, at + q, Below(entries, q)) else Below(entries, q) == None
  }

  /** Some directory has exactly the entries with these names, and all that is below them. */
  lemma {:induction false} EntriesFor(fs: FileSystem, at: Path, names: set<string>) returns (entries: seq<Named>)
    requires TreeShaped(fs) && forall n | n in names :: at + [n] in fs
    ensures ShowsNames(fs, at, names, entries)
    decreases |Lower(fs, at)|, |names|
  {
    hide TreeShaped, ShowsNames, Lower, NamesAt;
    if names == {} {
      NothingShown(fs, at);
      return [];
    }
    var n :| n in names;
    var rest := EntriesFor(fs, at, names - {n});
    var tree: Tree;
    match fs[at + [n]] {
      case Folder(mode) =>
        var below := NamesAt(fs, at + [n]);
        forall m | m in below ensures at + [n] + [m] in fs { NamedIsThere(fs, at + [n], m); }
        ChildIsLower(fs, at, n);
        var entries := EntriesFor(fs, at + [n], below);
        tree := Directory(mode, entries);
        FolderShown(fs, at, n, mode, entries);
      case Plain(data, mode) =>
        tree := Regular(data, mode, 1);
        FileShown(fs, at, n, data, mode);
    }
    entries := rest + [Named(n, tree)];
    OneMoreShown(fs, at, names, n, rest, tree);
  }

  lemma NothingShown(fs: FileSystem, at: Path)
    ensures ShowsNames(fs, at, {}, [])
  {
  }

  /** What is below one entry. */
  function BelowOne(tree: Tree, q: Path): Option<Tree>
    requires q != []
  {
    if |q| == 1 then Some(tree) else if tree.Directory? then Below(tree.entries, q[1..]) else None
  }

  ghost predicate ShowsOne(fs: FileSystem, at: Path, n: string, tree: Tree) {
    && (tree.Directory? ==> UniqueNames(tree.entries))
    && forall q | q != [] && q[0] == n :: Shown(fs, at + q, BelowOne(tree, q))
  }

  lemma FolderShown(fs: FileSystem, at: Path, n: string, mode: nat, entries: seq<Named>)
    requires TreeShaped(fs) && at + [n] in fs && fs[at + [n]] == Folder(mode)
    requires ShowsNames(fs, at + [n], NamesAt(fs, at + [n]), entries)
    ensures ShowsOne(fs, at, n, Directory(mode, entries))
  {
    var tree := Directory(mode, entries);
    hide TreeShaped, NamesAt;
    forall q | q != [] && q[0] == n ensures Shown(fs, at + q, BelowOne(tree, q)) {
      if |q| == 1 { assert q == [n]; }
      else {
        var r := q[1..];
        assert at + q == at + [n] + r;
        if at + q in fs { FirstIsThere(fs, at + [n], r); }
      }
    }
  }

  lemma FileShown(fs: FileSystem, at: Path, n: string, data: Bytes, mode: nat)
    requires TreeShaped(fs) && at + [n] in fs && fs[at + [n]] == Plain(data, mode)
    ensures ShowsOne(fs, at, n, Regular(data, mode, 1))
  {
    var tree := Regular(data, mode, 1);
    hide TreeShaped;
    forall q | q != [] && q[0] == n ensures Shown(fs, at + q, BelowOne(tree, q)) {
      if |q| == 1 { assert q == [n]; }
      else if at + q in fs { FirstIsThere(fs, at, q); }
    }
  }

  lemma OneMoreShown(fs: FileSystem, at: Path, names: set<string>, n: string, rest: seq<Named>, tree: Tree)
    requires n in names && ShowsNames(fs, at, names - {n}, rest) && ShowsOne(fs, at, n, tree)
    ensures ShowsNames(fs, at, names, rest + [Named(n, tree)])
  {
    var entries := rest + [Named(n, tree)];
    assert entries[..|rest|] == rest;
    forall q | q != []
      ensures if q[0] in names then Shown(fs, at + q, Below(entries, q)) else Below(entries, q) == None
    {
      if q[0] == n { assert Below(entries, q) == BelowOne(tree, q); }
      else { assert Find(entries, q[0]) == Find(rest, q[0]) && Below(entries, q) == Below(rest, q); }
    }
    assert UniqueNames(entries);
  }

  /** Every file system in which all parents are directories is shown by some tree. */
  lemma SomeTreeShows(fs: FileSystem) returns (t: Tree)
    requires TreeShaped(fs)
    ensures Shows(t, fs)
  {
    var names := NamesAt(fs, []);
    forall n | n in names ensures [] + [n] in fs { NamedIsThere(fs, [], n); }
    var entries := EntriesFor(fs, [], names);
    t := Directory(fs[[]].mode, entries);
    forall q | q != [] ensures Shown(fs, q, Below(entries, q)) {
      assert [] + q == q;
      if q in fs { FirstIsThere(fs, [], q); }
    }
  }

  // ------------------------------------------------------------ what is written passes

  lemma ExpectedIsTreeShaped(fold: string -> string, files: seq<Item>)
    requires Safe(fold, files) && [] !in Paths(files)
    ensures TreeShaped(Expected(files))
  {
    hide Safe;
    NoFileIsParent(fold, files);
    forall p | p in Expected(files) && p != []
      ensures Parent(p) in Expected(files) && Expected(files)[Parent(p)].Folder?
    {
      ParentIsParent(files, p);
    }
  }

  /** A tree is exactly the inventory if and only if it shows what the writer writes of it. */
  lemma ExactShows(files: seq<Item>, t: Tree)
    requires t.Directory? && UniqueNames(t.entries) && [] !in Paths(files)
    ensures FitRoot(t) && Exact(files, t.entries) <==> Shows(t, Expected(files))
  {
    assert Expected(files)[[]] == Folder(READ_ONLY);
    forall q | q != []
      ensures ExactAt(files, q, Below(t.entries, q)) <==> Shown(Expected(files), q, Below(t.entries, q)) {}
  }

  /** For every inventory that can be written there is a tree that the check says yes to. */
  lemma SomeTreeIsExact(fold: string -> string, files: seq<Item>) returns (t: Tree)
    requires Safe(fold, files) && [] !in Paths(files)
    ensures FitRoot(t) && UniqueNames(t.entries) && Exact(files, t.entries)
  {
    ExpectedIsTreeShaped(fold, files);
    t := SomeTreeShows(Expected(files));
    ExactShows(files, t);
  }

  /** The new directory that an environment is built in. */
  const NEW_DIRECTORY: FileSystem := map[[] := Folder(NEW_FOLDER)]

  /**
   Build an environment: write its inventory into a new directory and check the
   directory against it.  `read` gives the tree on disk, and `accepts` stands for the
   marker and the health of the interpreter.  The check never fails on what was just
   written: a build fails exactly for an inventory that is refused or has a file at
   the root, or an environment that is not accepted.
   */
  method BuildEnvironment(look: string -> string, fold: string -> string, read: FileSystem -> Tree,
                          accepts: Tree -> bool, files: seq<Item>)
    returns (r: Result<Tree>)
    requires KeepsApart(look, fold) && forall fs | TreeShaped(fs) :: Shows(read(fs), fs)
    ensures r.Ok? <==> Safe(fold, files) && [] !in Paths(files) && accepts(read(Expected(files)))
    ensures r.Ok? ==> r.value == read(Expected(files)) && FitRoot(r.value) && Exact(files, r.value.entries)
  {
    hide Safe, KeepsApart, Exact, Expected, TreeShaped, Shows, UniqueNames;
    NewDirectoryFits();
    var written := WriteEnvironmentTree(look, fold, files, NEW_DIRECTORY);
    if written.Err? { return Err(written.code); }
    var t := read(written.value);
    ExpectedIsTreeShaped(fold, files);
    ShowsDirectory(t, written.value);
    ExactShows(files, t);
    var verified := VerifyEnvironmentInventory(fold, t, files);
    if verified.Err? || !verified.value || !accepts(t) { return Err("embedded_environment_build_failed"); }
    return Ok(t);
  }

  lemma ShowsDirectory(t: Tree, fs: FileSystem)
    requires Shows(t, fs)
    ensures t.Directory? && UniqueNames(t.entries)
  {
  }

  lemma NewDirectoryFits()
    ensures EmptyFolder(NEW_DIRECTORY) && Writable(NEW_DIRECTORY[[]].mode)
  {
  }
}
