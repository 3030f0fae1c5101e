/**
 What the inventory check accepts (src/spl/embedded.py:1522-1592): at every path
 the directory on disk has exactly what the inventory says, and nothing else.
 */
module EnvironmentExact {
  import opened Common
  import opened EnvironmentInventory
  import opened EnvironmentTree
  import opened EnvironmentVerify

  // ----------------------------------------------------------- names and collections

  predicate DistinctNames(entries: seq<Named>) {
    forall i, j | 0 <= i < j < |entries| :: entries[i].name != entries[j].name
  }

  lemma {:induction false} FindEntry(entries: seq<Named>, i: nat)
    requires DistinctNames(entries) && i < |entries|
    ensures Find(entries, entries[i].name) == Some(entries[i].tree)
  {
    if i < |entries| - 1 {
      assert entries[i].name != entries[|entries| - 1].name;
      FindEntry(entries[..|entries| - 1], i);
    }
  }

  lemma {:induction false} FoundIsEntry(entries: seq<Named>, name: string) returns (i: nat)
    requires Find(entries, name).Some?
    ensures i < |entries| && entries[i] == Named(name, Find(entries, name).value)
  {
    if entries[|entries| - 1].name == name { i := |entries| - 1; }
    else { i := FoundIsEntry(entries[..|entries| - 1], name); }
  }

  lemma {:induction false} CollectedFrom(at: Path, entries: seq<Named>, p: Path)
    ensures p in FilesBelow(at, entries) <==> exists i :: 0 <= i < |entries| && p in FilesOf(at, entries[i])
    ensures p in FoldersBelow(at, entries) <==> exists i :: 0 <= i < |entries| && p in FoldersOf(at, entries[i])
    decreases |entries|
  {
    hide FilesOf, FoldersOf;
    if entries != [] {
      var less := entries[..|entries| - 1];
      CollectedFrom(at, less, p);
      assert forall i | 0 <= i < |less| :: less[i] == entries[i];
    }
  }

  /** Everything collected below an entry starts with the path of the entry. */
  lemma {:induction false} CollectedStarts(at: Path, n: Named, p: Path)
    requires p in FilesOf(at, n) || p in FoldersOf(at, n)
    ensures at + [n.name] <= p
    decreases n
  {
    if n.tree.Directory? && p != at + [n.name] {
      CollectedFrom(at + [n.name], n.tree.entries, p);
      var i :| 0 <= i < |n.tree.entries|
        && (p in FilesOf(at + [n.name], n.tree.entries[i]) || p in FoldersOf(at + [n.name], n.tree.entries[i]));
      CollectedStarts(at + [n.name], n.tree.entries[i], p);
      LongerPrefix(at + [n.name], n.tree.entries[i].name, p);
    }
  }

  predicate IsFolder(t: Option<Tree>) { t.Some? && t.value.Directory? }

  predicate IsFile(t: Option<Tree>) { t.Some? && !t.value.Directory? }

  /** The walk collects exactly the paths at which the tree has something. */
  lemma {:induction false} CollectedIsBelow(at: Path, entries: seq<Named>, q: Path)
    requires UniqueNames(entries) && q != []
    ensures at + q in FilesBelow(at, entries) <==> IsFile(Below(entries, q))
    ensures at + q in FoldersBelow(at, entries) <==> IsFolder(Below(entries, q))
    decreases |q|
  {
    CollectedFrom(at, entries, at + q);
    forall i | 0 <= i < |entries| && (at + q in FilesOf(at, entries[i]) || at + q in FoldersOf(at, entries[i]))
      ensures entries[i].name == q[0]
    {
      CollectedStarts(at, entries[i], at + q);
      LongerPrefix(at, entries[i].name, at + q);
    }
    match Find(entries, q[0])
    case None => NoneCollected(at, entries, q);
    case Some(t) =>
      var i := FoundIsEntry(entries, q[0]);
      assert forall j | 0 <= j < |entries| && entries[j].name == q[0] :: j == i;
      OneCollected(at, entries[i], q);
      if t.Directory? && |q| > 1 { CollectedIsBelow(at + [q[0]], t.entries, q[1..]); }
  }

  lemma NoneCollected(at: Path, entries: seq<Named>, q: Path)
    requires q != [] && Find(entries, q[0]).None? && DistinctNames(entries)
    ensures forall i | 0 <= i < |entries| :: entries[i].name != q[0]
  {
    forall i | 0 <= i < |entries| ensures entries[i].name != q[0] { FindEntry(entries, i); }
  }

  lemma OneCollected(at: Path, n: Named, q: Path)
    requires q != [] && n.name == q[0]
    ensures n.tree.Directory? ==>
      && (at + q in FilesOf(at, n) <==> at + [q[0]] + q[1..] in FilesBelow(at + [q[0]], n.tree.entries))
      && (at + q in FoldersOf(at, n) <==> |q| == 1 || at + [q[0]] + q[1..] in FoldersBelow(at + [q[0]], n.tree.entries))
    ensures |q| == 1 && n.tree.Directory? ==> at + q !in FilesOf(at, n)
    ensures !n.tree.Directory? ==> (at + q in FilesOf(at, n) <==> |q| == 1) && at + q !in FoldersOf(at, n)
  {
    assert at + q == at + [q[0]] + q[1..];
    assert |q| == 1 <==> at + q == at + [q[0]];
    if |q| == 1 && n.tree.Directory? { NotBelowItself(at + [q[0]], n.tree.entries); }
  }

  lemma NotBelowItself(at: Path, entries: seq<Named>)
    ensures at !in FilesBelow(at, entries)
  {
    CollectedFrom(at, entries, at);
    forall i | 0 <= i < |entries| ensures at !in FilesOf(at, entries[i]) {
      if at in FilesOf(at, entries[i]) { CollectedStarts(at, entries[i], at); }
    }
  }

  // --------------------------------------------------------------------- good trees

  /** What may be at the path `p`. */
  predicate GoodAt(files: seq<Item>, p: Path, t: Tree) {
    match t
    case Directory(mode, _) => mode == READ_ONLY
    case Regular(data, mode, links) => p in Paths(files) && links == 1 && EntryAt(files, p) == Plain(data, mode)
    case Special => false
  }

  lemma {:induction false} GoodBelow(files: seq<Item>, at: Path, entries: seq<Named>, q: Path)
    requires AllGood(files, at, entries) && q != [] && Below(entries, q).Some?
    ensures GoodAt(files, at + q, Below(entries, q).value)
    decreases |q|
  {
    var i := FoundIsEntry(entries, q[0]);
    assert Good(files, at, entries[i]);
    assert at + q == at + [q[0]] + q[1..];
    if |q| == 1 { assert q == [q[0]]; }
    else { GoodBelow(files, at + [q[0]], entries[i].tree.entries, q[1..]); }
  }

  /** If every path has something good, all of the tree is good. */
  lemma {:induction false} BelowGood(files: seq<Item>, at: Path, entries: seq<Named>)
    requires UniqueNames(entries)
    requires forall q | q != [] && Below(entries, q).Some? :: GoodAt(files, at + q, Below(entries, q).value)
    ensures AllGood(files, at, entries)
    decreases entries
  {
    forall i | 0 <= i < |entries| ensures Good(files, at, entries[i]) {
      var n := entries[i];
      FindEntry(entries, i);
      assert Below(entries, [n.name]) == Some(n.tree);
      if n.tree.Directory? {
        forall q | q != [] && Below(n.tree.entries, q).Some?
          ensures GoodAt(files, at + [n.name] + q, Below(n.tree.entries, q).value)
        {
          LowerDown(entries, i, q);
          assert at + ([n.name] + q) == at + [n.name] + q;
        }
        BelowGood(files, at + [n.name], n.tree.entries);
      }
    }
  }

  lemma LowerDown(entries: seq<Named>, i: nat, q: Path)
    requires DistinctNames(entries) && i < |entries| && entries[i].tree.Directory? && q != []
    ensures Below(entries, [entries[i].name] + q) == Below(entries[i].tree.entries, q)
  {
    FindEntry(entries, i);
    assert ([entries[i].name] + q)[1..] == q;
  }

  // ------------------------------------------------------------------- no two names clash

  ghost predicate ApartOn(fold: string -> string, paths: set<Path>) {
    forall p, q | p in paths && q in paths && p != q :: Identity(fold, p) != Identity(fold, q)
  }

  lemma SafeIsApart(fold: string -> string, files: seq<Item>)
    requires Safe(fold, files)
    ensures ApartOn(fold, Parents(files) + Paths(files))
  {
    forall p, q | p in Parents(files) + Paths(files) && q in Parents(files) + Paths(files) && p != q
      ensures Identity(fold, p) != Identity(fold, q)
    {
      if p in Paths(files) { FileIdentity(fold, files, p); }
      if q in Paths(files) { FileIdentity(fold, files, q); }
      if p in Paths(files) && q in Paths(files) { FilesApart(fold, files, p, q); }
    }
  }

  lemma FileIdentity(fold: string -> string, files: seq<Item>, p: Path)
    requires p in Paths(files)
    ensures Identity(fold, p) in Identities(fold, files)
  {
    var i :| 0 <= i < |files| && files[i].path == p;
    assert Identity(fold, files[i].path) in Identities(fold, files);
  }

  lemma FilesApart(fold: string -> string, files: seq<Item>, p: Path, q: Path)
    requires DistinctIdentities(fold, files) && p in Paths(files) && q in Paths(files) && p != q
    ensures Identity(fold, p) != Identity(fold, q)
  {
    var i :| 0 <= i < |files| && files[i].path == p;
    var j :| 0 <= j < |files| && files[j].path == q;
    if i < j { assert Identity(fold, files[i].path) != Identity(fold, files[j].path); }
    else { assert j < i && Identity(fold, files[j].path) != Identity(fold, files[i].path); }
  }

  /** A tree whose paths have different identities has no clash in any directory. */
  lemma {:induction false} ApartMeansNoClash(fold: string -> string, at: Path, entries: seq<Named>, paths: set<Path>)
    requires UniqueNames(entries) && ApartOn(fold, paths)
    requires forall q | q != [] && Below(entries, q).Some? :: at + q in paths
    ensures NoClash(fold, entries)
    decreases entries
  {
    forall i, j | 0 <= i < j < |entries| ensures fold(entries[i].name) != fold(entries[j].name) {
      FindEntry(entries, i);
      FindEntry(entries, j);
      var p, q := at + [entries[i].name], at + [entries[j].name];
      assert Below(entries, [entries[i].name]).Some? && Below(entries, [entries[j].name]).Some?;
      assert p[|at|] != q[|at|];
      ChildIdentity(fold, at, entries[i].name);
      ChildIdentity(fold, at, entries[j].name);
      assert Identity(fold, p) != Identity(fold, q);
    }
    forall i | 0 <= i < |entries| && entries[i].tree.Directory? ensures NoClash(fold, entries[i].tree.entries) {
      var n := entries[i];
      forall q | q != [] && Below(n.tree.entries, q).Some? ensures at + [n.name] + q in paths {
        LowerDown(entries, i, q);
        assert at + ([n.name] + q) == at + [n.name] + q;
      }
      ApartMeansNoClash(fold, at + [n.name], n.tree.entries, paths);
    }
  }

  // ------------------------------------------------------------------------- exactness

  /** What is at a path, as an entry; a file with another link to it is not one. */
  function AsEntry(t: Option<Tree>): Option<Entry> {
    match t
    case Some(Directory(mode, _)) => Some(Folder(mode))
    case Some(Regular(data, mode, links)) => if links == 1 then Some(Plain(data, mode)) else None
    case _ => None
  }

  /** At every path there is what the finished tree has there, and nothing else. */
  ghost predicate Exact(files: seq<Item>, entries: seq<Named>) {
    [] !in Paths(files) && forall q | q != [] :: ExactAt(files, q, Below(entries, q))
  }

  predicate ExactAt(files: seq<Item>, q: Path, t: Option<Tree>) {
    if q in Expected(files) then AsEntry(t) == Some(Expected(files)[q]) else t == None
  }

  lemma AcceptedIsExact(files: seq<Item>, entries: seq<Named>)
    requires UniqueNames(entries) && AllGood(files, [], entries)
    requires FilesBelow([], entries) == Paths(files) && FoldersBelow([], entries) == Parents(files)
    ensures Exact(files, entries)
  {
    NotBelowItself([], entries);
    forall q | q != [] ensures ExactAt(files, q, Below(entries, q)) {
      assert [] + q == q;
      CollectedIsBelow([], entries, q);
      if Below(entries, q).Some? { GoodBelow(files, [], entries, q); }
    }
  }

  lemma ExactIsAccepted(fold: string -> string, files: seq<Item>, entries: seq<Named>)
    requires UniqueNames(entries) && Safe(fold, files) && Exact(files, entries)
    ensures AllGood(files, [], entries) && NoClash(fold, entries)
    ensures FilesBelow([], entries) == Paths(files) && FoldersBelow([], entries) == Parents(files)
  {
    hide Safe;
    NoFileIsParent(fold, files);
    forall q | q != [] && Below(entries, q).Some? ensures GoodAt(files, [] + q, Below(entries, q).value) {
      assert [] + q == q && ExactAt(files, q, Below(entries, q));
    }
    BelowGood(files, [], entries);
    SafeIsApart(fold, files);
    forall q | q != [] && Below(entries, q).Some? ensures [] + q in Parents(files) + Paths(files) {
      assert [] + q == q && ExactAt(files, q, Below(entries, q));
    }
    ApartMeansNoClash(fold, [], entries, Parents(files) + Paths(files));
    ExactCollects(fold, files, entries);
  }

  lemma ExactCollects(fold: string -> string, files: seq<Item>, entries: seq<Named>)
    requires UniqueNames(entries) && Safe(fold, files) && Exact(files, entries)
    ensures FilesBelow([], entries) == Paths(files) && FoldersBelow([], entries) == Parents(files)
  {
    hide Safe;
    NoFileIsParent(fold, files);
    NotBelowItself([], entries);
    forall q
      ensures (q in FilesBelow([], entries) <==> q in Paths(files))
      ensures (q in FoldersBelow([], entries) <==> q in Parents(files))
    {
      if q != [] {
        assert [] + q == q && ExactAt(files, q, Below(entries, q));
        CollectedIsBelow([], entries, q);
      } else {
        NoFolderIsRoot(entries);
      }
    }
  }

  lemma NoFolderIsRoot(entries: seq<Named>)
    ensures [] !in FoldersBelow([], entries)
  {
    CollectedFrom([], entries, []);
    forall i | 0 <= i < |entries| ensures [] !in FoldersOf([], entries[i]) {
      if [] in FoldersOf([], entries[i]) { CollectedStarts([], entries[i], []); }
    }
  }

  predicate FitRoot(t: Tree) { t.Directory? && t.mode == READ_ONLY }

  /**
   The inventory check.  On a read-only directory and an inventory that the
   validation accepts, the answer is yes exactly when the directory is the
   inventory, path by path; an inventory that it refuses is an error.
   */
  method VerifyEnvironmentInventory(fold: string -> string, t: Tree, files: seq<Item>) returns (r: Result<bool>)
    requires t.Directory? ==> UniqueNames(t.entries)
    ensures !FitRoot(t) ==> r == Ok(false)
    ensures FitRoot(t) && !Safe(fold, files) ==> r.Err?
    ensures FitRoot(t) && Safe(fold, files) ==> r == Ok(Exact(files, t.entries))
  {
    hide Safe, Exact, AllGood, NoClash, UniqueNames;
    if !t.Directory? || t.mode != READ_ONLY { return Ok(false); }
    var valid := ValidateExpectedFiles(fold, files);
    if valid.Err? { return Err(valid.code); }
    NothingOutside(fold);
    var ok, folded, actualFiles, actualFolders := Visit(fold, files, [], t.entries, {}, {}, {});
    if Exact(files, t.entries) { ExactIsAccepted(fold, files, t.entries); }
    if !ok { return Ok(false); }
    if actualFiles == Paths(files) && actualFolders == valid.value { AcceptedIsExact(files, t.entries); }
    return Ok(actualFiles == Paths(files) && actualFolders == valid.value);
  }

  lemma NothingOutside(fold: string -> string)
    ensures Outside(Identity(fold, []), {})
  {
  }
}
