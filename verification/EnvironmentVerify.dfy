/**
 The inventory check of an environment on disk (src/spl/embedded.py:1522-1592):
 it walks the actual directory and accepts it only if it is exactly the inventory.
 */
module EnvironmentVerify {
  import opened Common
  import opened EnvironmentInventory
  import opened EnvironmentTree

  /** What is on disk; `Special` is a symbolic link, a device and the like. */
  datatype Tree = Directory(mode: nat, entries: seq<Named>) | Regular(data: Bytes, mode: nat, links: nat) | Special

  datatype Named = Named(name: string, tree: Tree)

  // ----------------------------------------------------------- looking into a tree

  /** The entry with this name; a directory has at most one. */
  function Find(entries: seq<Named>, name: string): Option<Tree> {
    if entries == [] then None
    else if entries[|entries| - 1].name == name then Some(entries[|entries| - 1].tree)
    else Find(entries[..|entries| - 1], name)
  }

  /** What is at the path `q` below `entries`. */
  function Below(entries: seq<Named>, q: Path): Option<Tree>
    requires q != []
    decreases |q|
  {
    match Find(entries, q[0])
    case None => None
    case Some(t) => if |q| == 1 then Some(t) else if t.Directory? then Below(t.entries, q[1..]) else None
  }

  predicate UniqueNames(entries: seq<Named>)
    decreases entries
  {
    && (forall i, j | 0 <= i < j < |entries| :: entries[i].name != entries[j].name)
    && (forall i | 0 <= i < |entries| :: entries[i].tree.Directory? ==> UniqueNames(entries[i].tree.entries))
  }

  /** In no directory do two names fold to the same. */
  predicate NoClash(fold: string -> string, entries: seq<Named>)
    decreases entries
  {
    && (forall i, j | 0 <= i < j < |entries| :: fold(entries[i].name) != fold(entries[j].name))
    && (forall i | 0 <= i < |entries| :: entries[i].tree.Directory? ==> NoClash(fold, entries[i].tree.entries))
  }

  /** A file with its expected bytes, mode and a single link, or a read-only directory of such. */
  predicate Good(files: seq<Item>, at: Path, n: Named)
    decreases n, 0
  {
    match n.tree
    case Directory(mode, entries) => mode == READ_ONLY && AllGood(files, at + [n.name], entries)
    case Regular(data, mode, links) =>
      at + [n.name] in Paths(files) && links == 1 && EntryAt(files, at + [n.name]) == Plain(data, mode)
    case Special => false
  }

  predicate AllGood(files: seq<Item>, at: Path, entries: seq<Named>)
    decreases entries
  {
    forall i | 0 <= i < |entries| :: Good(files, at, entries[i])
  }

  /** The paths of the entries below `at` that are not directories. */
  function FilesOf(at: Path, n: Named): set<Path>
    decreases n, 0
  {
    if n.tree.Directory? then FilesBelow(at + [n.name], n.tree.entries) else {at + [n.name]}
  }

  function FilesBelow(at: Path, entries: seq<Named>): set<Path>
    decreases entries, |entries|
  {
    if entries == [] then {} else FilesBelow(at, entries[..|entries| - 1]) + FilesOf(at, entries[|entries| - 1])
  }

  function FoldersOf(at: Path, n: Named): set<Path>
    decreases n, 0
  {
    if n.tree.Directory? then {at + [n.name]} + FoldersBelow(at + [n.name], n.tree.entries) else {}
  }

  function FoldersBelow(at: Path, entries: seq<Named>): set<Path>
    decreases entries, |entries|
  {
    if entries == [] then {} else FoldersBelow(at, entries[..|entries| - 1]) + FoldersOf(at, entries[|entries| - 1])
  }

  // ------------------------------------------------------------------------- the walk

  /** An identity met outside the directory `at` never lies below it. */
  predicate Outside(at: Path, folded: set<Path>) { forall id | id in folded :: !(at < id) }

  /** Of the identities below `at`, those met so far are under these names. */
  predicate Inside(at: Path, folded: set<Path>, names: set<string>) {
    && (forall id | id in folded && at < id :: id[|at|] in names)
    && (forall n | n in names :: at + [n] in folded)
  }

  function FoldedNames(fold: string -> string, entries: seq<Named>): set<string> {
    set i | 0 <= i < |entries| :: fold(entries[i].name)
  }

  lemma FoldedNamesGrow(fold: string -> string, entries: seq<Named>, i: nat)
    requires i < |entries|
    ensures FoldedNames(fold, entries[..i + 1]) == FoldedNames(fold, entries[..i]) + {fold(entries[i].name)}
    ensures fold(entries[i].name) in FoldedNames(fold, entries[..i]) <==>
      exists j :: 0 <= j < i && fold(entries[j].name) == fold(entries[i].name)
  {
    var more, less := entries[..i + 1], entries[..i];
    assert more[i] == entries[i];
    assert forall j | 0 <= j < i :: less[j] == more[j] == entries[j];
    forall n | n in FoldedNames(fold, more) ensures n in FoldedNames(fold, less) + {fold(entries[i].name)} {
      var j :| 0 <= j < i + 1 && fold(more[j].name) == n;
      if j < i { assert fold(less[j].name) == n; }
    }
    forall n | n in FoldedNames(fold, less) ensures n in FoldedNames(fold, more) {
      var j :| 0 <= j < i && fold(less[j].name) == n;
      assert fold(more[j].name) == n;
    }
  }

  lemma LongerPrefix(at: Path, n: string, id: Path)
    ensures at + [n] <= id ==> at < id && id[|at|] == n
  {
    if at + [n] <= id {
      assert forall k | 0 <= k < |at| :: id[k] == (at + [n])[k] == at[k];
      assert id[|at|] == (at + [n])[|at|];
    }
  }

  /** A new name below `at` has not been met, and nothing met lies below it. */
  lemma NewChild(at: Path, folded: set<Path>, names: set<string>, n: string)
    requires Inside(at, folded, names) && n !in names
    ensures at + [n] !in folded && Outside(at + [n], folded + {at + [n]})
  {
    assert at < at + [n] && (at + [n])[|at|] == n;
    forall id | id in folded ensures !(at + [n] < id) {
      LongerPrefix(at, n, id);
    }
  }

  lemma ChildWalked(at: Path, before: set<Path>, after: set<Path>, names: set<string>, n: string)
    requires Inside(at, before, names) && before + {at + [n]} <= after
    requires forall id | id in after :: id in before || at + [n] <= id
    ensures Inside(at, after, names + {n})
  {
    forall id | id in after && at < id ensures id[|at|] in names + {n} {
      LongerPrefix(at, n, id);
    }
  }

  lemma ChildIdentity(fold: string -> string, at: Path, n: string)
    ensures Identity(fold, at + [n]) == Identity(fold, at) + [fold(n)]
  {
  }

  /** What has been seen of a directory after `i` of its entries. */
  ghost predicate Seen(fold: string -> string, files: seq<Item>, at: Path, entries: seq<Named>, i: nat)
    requires i <= |entries|
  {
    && (forall j | 0 <= j < i :: Good(files, at, entries[j]))
    && (forall a, b | 0 <= a < b < i :: fold(entries[a].name) != fold(entries[b].name))
    && (forall j | 0 <= j < i :: entries[j].tree.Directory? ==> NoClash(fold, entries[j].tree.entries))
  }

  /**
   Walk the entries of a directory.  Accepted exactly when each is good and no two
   names of one directory fold to the same; then the walk has collected them all.
   */
  method Visit(fold: string -> string, files: seq<Item>, at: Path, entries: seq<Named>, folded0: set<Path>,
               files0: set<Path>, folders0: set<Path>)
    returns (ok: bool, folded: set<Path>, actualFiles: set<Path>, actualFolders: set<Path>)
    requires Outside(Identity(fold, at), folded0)
    ensures ok <==> AllGood(files, at, entries) && NoClash(fold, entries)
    ensures ok ==>
      actualFiles == files0 + FilesBelow(at, entries) && actualFolders == folders0 + FoldersBelow(at, entries)
    ensures ok ==> folded0 <= folded && forall id | id in folded :: id in folded0 || Identity(fold, at) <= id
    decreases entries
  {
    hide Good, FilesOf, FoldersOf, FilesBelow, FoldersBelow, EntryAt, Outside, Inside, FoldedNames, Identity, Seen,
         NoClash;
    ok, folded, actualFiles, actualFolders := true, folded0, files0, folders0;
    ghost var here := Identity(fold, at);
    var localFolded: set<string> := {};
    NothingSeen(fold, files, at, entries, folded0);
    for i := 0 to |entries|
      invariant localFolded == FoldedNames(fold, entries[..i]) && Inside(here, folded, localFolded)
      invariant folded0 <= folded && forall id | id in folded :: id in folded0 || here <= id
      invariant Seen(fold, files, at, entries, i)
      invariant actualFiles == files0 + FilesBelow(at, entries[..i])
      invariant actualFolders == folders0 + FoldersBelow(at, entries[..i])
    {
      var n := entries[i];
      FoldedNamesGrow(fold, entries, i);
      SeenOrRefused(fold, files, at, entries, i);
      if fold(n.name) in localFolded { return false, folded, actualFiles, actualFolders; }
      var child := at + [n.name];
      NewChild(here, folded, localFolded, fold(n.name));
      ChildIdentity(fold, at, n.name);
      CollectedGrows(at, entries, i);
      if Identity(fold, child) in folded { return false, folded, actualFiles, actualFolders; }
      ghost var before := folded;
      folded := folded + {Identity(fold, child)};
      ok, folded, actualFiles, actualFolders := VisitEntry(fold, files, at, n, folded, actualFiles, actualFolders);
      if !ok { return false, folded, actualFiles, actualFolders; }
      ChildWalked(here, before, folded, localFolded, fold(n.name));
      PrefixChain(here, fold(n.name), folded, before, folded0);
      localFolded := localFolded + {fold(n.name)};
    }
    assert entries[..|entries|] == entries;
    AllSeen(fold, files, at, entries);
  }

  method VisitEntry(fold: string -> string, files: seq<Item>, at: Path, n: Named, folded0: set<Path>, files0: set<Path>,
                    folders0: set<Path>)
    returns (ok: bool, folded: set<Path>, actualFiles: set<Path>, actualFolders: set<Path>)
    requires Outside(Identity(fold, at + [n.name]), folded0)
    ensures ok <==> Good(files, at, n) && (n.tree.Directory? ==> NoClash(fold, n.tree.entries))
    ensures ok ==> actualFiles == files0 + FilesOf(at, n) && actualFolders == folders0 + FoldersOf(at, n)
    ensures ok ==> folded0 <= folded && forall id | id in folded :: id in folded0 || Identity(fold, at + [n.name]) <= id
    decreases n
  {
    hide Outside, Identity, NoClash, FilesBelow, FoldersBelow;
    var child := at + [n.name];
    ok, folded, actualFiles, actualFolders := true, folded0, files0, folders0;
    match n.tree
    case Directory(mode, entries) =>
      if mode != READ_ONLY { return false, folded, actualFiles, actualFolders; }
      actualFolders := actualFolders + {child};
      ok, folded, actualFiles, actualFolders := Visit(fold, files, child, entries, folded, actualFiles, actualFolders);
    case Regular(data, mode, links) =>
      if child !in Paths(files) || links != 1 || EntryAt(files, child).mode != mode
        || EntryAt(files, child).data != data {
        return false, folded, actualFiles, actualFolders;
      }
      actualFiles := actualFiles + {child};
    case Special => return false, folded, actualFiles, actualFolders;
  }

  lemma NothingSeen(fold: string -> string, files: seq<Item>, at: Path, entries: seq<Named>, folded: set<Path>)
    requires Outside(Identity(fold, at), folded)
    ensures FoldedNames(fold, entries[..0]) == {} && Inside(Identity(fold, at), folded, {})
    ensures Seen(fold, files, at, entries, 0)
    ensures FilesBelow(at, entries[..0]) == {} && FoldersBelow(at, entries[..0]) == {}
  {
  }

  /** One more entry is seen, or the directory is refused because of it. */
  lemma SeenOrRefused(fold: string -> string, files: seq<Item>, at: Path, entries: seq<Named>, i: nat)
    requires i < |entries| && Seen(fold, files, at, entries, i)
    ensures
      var n, clash := entries[i], exists j :: 0 <= j < i && fold(entries[j].name) == fold(entries[i].name);
      var good := !clash && Good(files, at, n) && (n.tree.Directory? ==> NoClash(fold, n.tree.entries));
      (good ==> Seen(fold, files, at, entries, i + 1))
      && (!good ==> !(AllGood(files, at, entries) && NoClash(fold, entries)))
  {
    hide Good;
  }

  lemma AllSeen(fold: string -> string, files: seq<Item>, at: Path, entries: seq<Named>)
    requires Seen(fold, files, at, entries, |entries|)
    ensures AllGood(files, at, entries) && NoClash(fold, entries)
  {
    hide Good;
  }

  lemma CollectedGrows(at: Path, entries: seq<Named>, i: nat)
    requires i < |entries|
    ensures FilesBelow(at, entries[..i + 1]) == FilesBelow(at, entries[..i]) + FilesOf(at, entries[i])
    ensures FoldersBelow(at, entries[..i + 1]) == FoldersBelow(at, entries[..i]) + FoldersOf(at, entries[i])
  {
    assert entries[..i + 1][..i] == entries[..i];
  }

  lemma PrefixChain(here: Path, n: string, folded: set<Path>, before: set<Path>, folded0: set<Path>)
    requires forall id | id in folded :: id in before + {here + [n]} || here + [n] <= id
    requires forall id | id in before :: id in folded0 || here <= id
    ensures forall id | id in folded :: id in folded0 || here <= id
  {
    forall id | id in folded && id !in folded0 ensures here <= id {
      LongerPrefix(here, n, id);
      if id == here + [n] { assert here <= id; }
    }
  }
}
