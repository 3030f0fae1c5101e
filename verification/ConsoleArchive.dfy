/**
 The Console archive: the deterministic writer (tools/build_console_artifact.py:245-296, 438-446)
 and the separate release validator (tools/release_chain.py:984-1032).
 A staged file is known by the parts of its path below the stage.
 */
module ConsoleArchive {
  import opened Common
  import opened ChecksumInventory
  import T = Text

  type Path = seq<string>

  type Stage = map<Path, Bytes>

  datatype Kind = Folder | File | Special

  /** A member as it is read back: a folder has no slash at the end of its name. */
  datatype Member = Member(name: string, kind: Kind, data: Bytes)

  // ---------------------------------------------------------------------------- names

  predicate IsAlphanumeric(c: char) { 'A' <= c <= 'Z' || 'a' <= c <= 'z' || '0' <= c <= '9' }

  /** `[A-Za-z0-9][A-Za-z0-9._-]*` */
  predicate SafeSegment(s: string) {
    s != "" && IsAlphanumeric(s[0]) && forall i | 0 <= i < |s| :: IsAlphanumeric(s[i]) || s[i] in "._-"
  }

  predicate SafePath(p: Path) { forall i | 0 <= i < |p| :: SafeSegment(p[i]) }

  function Posix(p: Path): string
    requires p != []
  {
    T.Join(p, '/')
  }

  function DropEmpty(parts: seq<string>): Path {
    if parts == [] then [] else (if parts[0] == "" || parts[0] == "." then [] else [parts[0]]) + DropEmpty(parts[1..])
  }

  /** `Path(name).parts` of a relative name: empty parts and single dots vanish. */
  function NormalParts(name: string): Path { DropEmpty(T.Split(name, '/')) }

  lemma {:induction false} NothingDropped(parts: seq<string>)
    requires forall i | 0 <= i < |parts| :: parts[i] != "" && parts[i] != "."
    ensures DropEmpty(parts) == parts
  {
    if parts != [] { NothingDropped(parts[1..]); }
  }

  /** The name of a safe path reads back as the path. */
  lemma SafeNameReadsBack(p: Path)
    requires p != [] && SafePath(p)
    ensures NormalParts(Posix(p)) == p
  {
    forall i | 0 <= i < |p| ensures '/' !in p[i] && p[i] != "" && p[i] != "." && p[i] != ".." {
      assert SafeSegment(p[i]);
    }
    T.SplitJoin(p, '/');
    NothingDropped(p);
  }

  lemma SafeNameIsRelative(p: Path)
    requires p != [] && SafePath(p)
    ensures Posix(p) != "" && Posix(p)[0] != '/' && ".." !in p
  {
    assert SafeSegment(p[0]);
    assert forall i | 0 <= i < |p| :: SafeSegment(p[i]) ==> p[i] != "..";
  }

  // ------------------------------------------------------------------------ validation

  function Hashes(hash: Bytes -> string, stage: Stage): map<Path, string> { map p | p in stage :: hash(stage[p]) }

  /** A member lies below the archive's root. */
  predicate Below(root: string, name: string) {
    && !(name != "" && name[0] == '/') && ".." !in NormalParts(name) && NormalParts(name) != []
    && NormalParts(name)[0] == root
  }

  predicate MembersFit(root: string, members: seq<Member>) {
    && (forall i, j | 0 <= i < j < |members| :: members[i].name != members[j].name)
    && forall i | 0 <= i < |members| :: Below(root, members[i].name) && members[i].kind != Special
  }

  /** The hash that the last file member of each path has. */
  function Observed(hash: Bytes -> string, members: seq<Member>): map<Path, string>
    requires forall i | 0 <= i < |members| :: NormalParts(members[i].name) != []
    decreases |members|
  {
    if members == [] then map[]
    else
      var last := members[|members| - 1];
      var before := Observed(hash, members[..|members| - 1]);
      if last.kind == File then before[NormalParts(last.name)[1..] := hash(last.data)] else before
  }

  /** Every member is in place, and read in order they leave exactly the staged files. */
  predicate ArchiveAccepted(hash: Bytes -> string, root: string, members: seq<Member>, stage: Stage) {
    MembersFit(root, members) && Observed(hash, members) == Hashes(hash, stage)
  }

  /** Accept an archive whose members, read in order, leave exactly the staged files. */
  method ValidateConsoleArchive(hash: Bytes -> string, root: string, members: seq<Member>, stage: Stage)
    returns (ok: bool)
    ensures ok <==> ArchiveAccepted(hash, root, members, stage)
  {
    hide Below, NormalParts;
    var names: set<string>, observed: map<Path, string> := {}, map[];
    for i := 0 to |members|
      invariant names == set j | 0 <= j < i :: members[j].name
      invariant MembersFit(root, members[..i])
      invariant (forall j | 0 <= j < i :: NormalParts(members[j].name) != [])
      invariant observed == Observed(hash, members[..i])
    {
      var member := members[i];
      OneMoreFits(root, members, i);
      BelowHasParts(root, member.name);
      if member.name in names || !Below(root, member.name) || member.kind == Special { return false; }
      names := names + {member.name};
      assert members[..i + 1][..i] == members[..i];
      if member.kind == File { observed := observed[NormalParts(member.name)[1..] := hash(member.data)]; }
    }
    assert members[..|members|] == members;
    return observed == Hashes(hash, stage);
  }

  lemma BelowHasParts(root: string, name: string)
    ensures Below(root, name) ==> NormalParts(name) != []
  {
  }

  lemma OneMoreFits(root: string, members: seq<Member>, i: nat)
    requires i < |members| && MembersFit(root, members[..i])
    ensures var n := members[i];
      var fits := (forall j | 0 <= j < i :: members[j].name != n.name) && Below(root, n.name) && n.kind != Special;
      (MembersFit(root, members[..i + 1]) <==> fits) && (!fits ==> !MembersFit(root, members))
  {
    hide Below;
    var more, less := members[..i + 1], members[..i];
    assert more == less + [members[i]];
    assert forall j | 0 <= j < i :: less[j] == members[j] == more[j];
  }

  // ------------------------------------------------------- what an accepted archive holds

  /** Member `i` is the last file member of its path. */
  predicate IsLast(members: seq<Member>, i: nat) {
    i < |members| && members[i].kind == File
    && forall j | i < j < |members| && members[j].kind == File ::
         NormalParts(members[j].name) != NormalParts(members[i].name)
  }

  predicate Rooted(root: string, members: seq<Member>) {
    forall i | 0 <= i < |members| :: NormalParts(members[i].name) != [] && NormalParts(members[i].name)[0] == root
  }

  /** What was observed at the path of a last file member is its hash. */
  lemma {:induction false} LastIsObserved(hash: Bytes -> string, root: string, members: seq<Member>, i: nat)
    requires Rooted(root, members) && IsLast(members, i)
    ensures var p := NormalParts(members[i].name)[1..];
      p in Observed(hash, members) && Observed(hash, members)[p] == hash(members[i].data)
    decreases |members|
  {
    hide NormalParts;
    var less, last := members[..|members| - 1], members[|members| - 1];
    if i < |members| - 1 {
      assert Rooted(root, less) && IsLast(less, i);
      LastIsObserved(hash, root, less, i);
      if last.kind == File { SameRootSameRest(root, last.name, members[i].name); }
    }
  }

  lemma SameRootSameRest(root: string, x: string, y: string)
    requires NormalParts(x) != [] && NormalParts(y) != [] && NormalParts(x)[0] == NormalParts(y)[0] == root
    ensures NormalParts(x)[1..] == NormalParts(y)[1..] ==> NormalParts(x) == NormalParts(y)
  {
    hide NormalParts;
    assert NormalParts(x) == [root] + NormalParts(x)[1..] && NormalParts(y) == [root] + NormalParts(y)[1..];
  }

  /** Every path that was observed has a last file member. */
  lemma {:induction false} ObservedHasLast(hash: Bytes -> string, root: string, members: seq<Member>, p: Path)
    returns (i: nat)
    requires Rooted(root, members) && p in Observed(hash, members)
    ensures IsLast(members, i) && NormalParts(members[i].name) == [root] + p
    decreases |members|
  {
    hide NormalParts;
    var less, last := members[..|members| - 1], members[|members| - 1];
    assert NormalParts(last.name) == [root] + NormalParts(last.name)[1..];
    if last.kind == File && NormalParts(last.name)[1..] == p { i := |members| - 1; }
    else {
      assert Rooted(root, less);
      i := ObservedHasLast(hash, root, less, p);
      assert members[i] == less[i];
    }
  }

  lemma FitIsRooted(root: string, members: seq<Member>)
    requires MembersFit(root, members)
    ensures Rooted(root, members)
  {
    hide NormalParts;
  }

  /**
   In an accepted archive every staged file has a last file member, with the
   staged hash, and every path of a file member is the path of a staged file.
   */
  lemma AcceptedHoldsStage(hash: Bytes -> string, root: string, members: seq<Member>, stage: Stage, p: Path)
    returns (i: nat)
    requires ArchiveAccepted(hash, root, members, stage) && p in stage
    ensures IsLast(members, i) && NormalParts(members[i].name) == [root] + p && hash(members[i].data) == hash(stage[p])
  {
    hide NormalParts;
    FitIsRooted(root, members);
    i := ObservedHasLast(hash, root, members, p);
    LastIsObserved(hash, root, members, i);
    assert ([root] + p)[1..] == p;
  }

  /** No two file members have one path. */
  predicate OneMemberPerPath(members: seq<Member>) {
    forall i, j | 0 <= i < j < |members| && members[i].kind == File && members[j].kind == File ::
      NormalParts(members[i].name) != NormalParts(members[j].name)
  }

  /** Every file member is a staged file with the staged hash. */
  predicate HoldsOnlyStage(hash: Bytes -> string, root: string, members: seq<Member>, stage: Stage)
    requires Rooted(root, members)
  {
    forall i | 0 <= i < |members| && members[i].kind == File ::
      var p := NormalParts(members[i].name)[1..]; p in stage && hash(members[i].data) == hash(stage[p])
  }

  /** Any two file members of one path have one hash. */
  predicate OneHashPerPath(hash: Bytes -> string, members: seq<Member>) {
    forall i, j | 0 <= i < j < |members| && members[i].kind == File && members[j].kind == File
      && NormalParts(members[i].name) == NormalParts(members[j].name) ::
      hash(members[i].data) == hash(members[j].data)
  }

  /** Member `j` is a later file member of the same path. */
  predicate SamePathLater(members: seq<Member>, i: nat, j: nat)
    requires i < |members|
  {
    i < j < |members| && members[j].kind == File && NormalParts(members[j].name) == NormalParts(members[i].name)
  }

  /** The path of every file member has a last file member. */
  lemma {:induction false} FileHasLast(members: seq<Member>, i: nat) returns (k: nat)
    requires i < |members| && members[i].kind == File
    ensures i <= k && IsLast(members, k) && NormalParts(members[k].name) == NormalParts(members[i].name)
    decreases |members| - i
  {
    hide NormalParts;
    if j :| SamePathLater(members, i, j) {
      k := FileHasLast(members, j);
    } else {
      forall j | i < j < |members| && members[j].kind == File
        ensures NormalParts(members[j].name) != NormalParts(members[i].name)
      {
        assert !SamePathLater(members, i, j);
      }
      k := i;
    }
  }

  /** An accepted archive holds the staged files and nothing else exactly if members of one path agree. */
  lemma AcceptedIsExact(hash: Bytes -> string, root: string, members: seq<Member>, stage: Stage)
    requires ArchiveAccepted(hash, root, members, stage)
    ensures Rooted(root, members)
    ensures HoldsOnlyStage(hash, root, members, stage) <==> OneHashPerPath(hash, members)
  {
    hide NormalParts;
    FitIsRooted(root, members);
    if OneHashPerPath(hash, members) {
      forall i | 0 <= i < |members| && members[i].kind == File
        ensures var p := NormalParts(members[i].name)[1..]; p in stage && hash(members[i].data) == hash(stage[p])
      {
        var k := FileHasLast(members, i);
        LastIsObserved(hash, root, members, k);
        assert hash(members[i].data) == hash(members[k].data);
      }
    }
  }

  /**
   Names are compared as they are written, so an earlier member of the same path is not
   noticed, whatever it holds.
   */
  lemma EarlierMemberIsNotNoticed(hash: Bytes -> string, data: Bytes, other: Bytes)
    ensures var members := [Member("r//a", File, other), Member("r/a", File, data)];
      ArchiveAccepted(hash, "r", members, map[["a"] := data])
      && NormalParts(members[0].name) == NormalParts(members[1].name) == ["r", "a"]
  {
    TwoNamesOnePath();
    hide NormalParts;
    var members := [Member("r//a", File, other), Member("r/a", File, data)];
    var one := members[..1];
    assert one[..0] == [] && ["r", "a"][1..] == ["a"];
    assert Observed(hash, one) == map[["a"] := hash(other)];
    assert Observed(hash, members) == map[["a"] := hash(other)][["a"] := hash(data)];
  }

  lemma TwoNamesOnePath()
    ensures NormalParts("r//a") == ["r", "a"] && NormalParts("r/a") == ["r", "a"]
  {
    T.SplitNone("a", '/');
    SplitLiteral("", "a", "/a");
    SplitLiteral("r", "/a", "r//a");
    SplitLiteral("r", "a", "r/a");
    NormalTwo();
    hide T.Split, DropEmpty;
    assert ["r"] + (["" ] + ["a"]) == ["r", "", "a"] && ["r"] + ["a"] == ["r", "a"];
  }

  lemma SplitLiteral(x: string, rest: string, whole: string)
    requires '/' !in x && whole == x + ['/'] + rest
    ensures T.Split(whole, '/') == [x] + T.Split(rest, '/')
  {
    T.SplitFirst(x, '/', rest);
  }

  lemma NormalTwo()
    ensures DropEmpty(["r", "a"]) == ["r", "a"] && DropEmpty(["r", "", "a"]) == ["r", "a"]
  {
    assert ["r", "a"][1..] == ["a"] && ["a"][1..] == [] && ["r", "", "a"][1..] == ["", "a"] && ["", "a"][1..] == ["a"];
    assert DropEmpty(["a"]) == ["a"];
    assert DropEmpty(["", "a"]) == ["a"];
  }

  // -------------------------------------------------------------------------- writing

  /** No staged file is a directory of another. */
  predicate IsTree(stage: Stage) { forall p, q | p in stage && q in stage && p < q :: false }

  /** The listing of a stage: every file, in any order. */
  predicate Lists(stage: Stage, listing: seq<Path>) {
    (forall p | p in stage :: p in listing) && forall p | p in listing :: p in stage
  }

  predicate AllSafe(listing: seq<Path>) { forall i | 0 <= i < |listing| :: SafePath(listing[i]) }

  /** The directory of depth `k` above a file, by its place in the archive. */
  function FolderName(root: string, p: Path, k: nat): string
    requires 0 < k <= |p|
  {
    Posix(([root] + p)[..k])
  }

  function FileName(root: string, p: Path): string { Posix([root] + p) }

  /** A name fits the header of a ustar member: in one field, or split at a slash in two. */
  predicate FitsHeader(name: string) {
    |name| <= 100 || exists i :: 0 <= i < |name| && name[i] == '/' && i <= 155 && |name| - i - 1 <= 100
  }

  predicate AllFit(root: string, listing: seq<Path>) {
    FitsHeader(root + "/") && forall i | 0 <= i < |listing| :: FitsHeader(FileName(root, listing[i]))
  }

  /** The folders above a file have names that fit if the file has. */
  lemma FolderFits(root: string, p: Path, k: nat)
    requires 0 < k <= |p| && FitsHeader(FileName(root, p))
    ensures FitsHeader(FolderName(root, p, k) + "/")
  {
    var name, folder := FileName(root, p), FolderName(root, p, k) + "/";
    JoinPrefix([root] + p, k);
    if |name| > 100 {
      var i :| 0 <= i < |name| && name[i] == '/' && i <= 155 && |name| - i - 1 <= 100;
      if i >= |folder| { assert folder[|folder| - 1] == '/'; } else { assert folder[i] == '/'; }
    }
  }

  lemma {:induction false} JoinPrefix(parts: seq<string>, k: nat)
    requires 0 < k < |parts|
    ensures T.Join(parts[..k], '/') + "/" <= T.Join(parts, '/')
  {
    if k > 1 {
      JoinPrefix(parts[1..], k - 1);
      assert parts[..k][1..] == parts[1..][..k - 1];
    }
  }

  predicate IsFolderName(root: string, listing: seq<Path>, name: string) {
    name == root || exists i, k ::
      0 <= i < |listing| && 0 < k <= |listing[i]| && name == FolderName(root, listing[i], k)
  }

  predicate IsFileName(root: string, listing: seq<Path>, name: string) {
    exists i :: 0 <= i < |listing| && name == FileName(root, listing[i])
  }

  /** The names in an archive: folders and files, each in order. */
  ghost predicate Named(root: string, listing: seq<Path>, folders: seq<string>, files: seq<string>) {
    && Ascending(folders) && (forall name :: name in folders <==> IsFolderName(root, listing, name))
    && Ascending(files) && (forall name :: name in files <==> IsFileName(root, listing, name))
  }

  /** Add the folders above one file, walking up from it. */
  method AddFolders(root: string, p: Path, before: seq<string>) returns (folders: seq<string>)
    requires Ascending(before)
    ensures Ascending(folders) && forall name :: name in folders <==> name in before || exists k ::
      0 < k <= |p| && name == FolderName(root, p, k)
  {
    hide Ascending, Insert, FolderName;
    folders := before;
    for k := |p| downto 0
      invariant Ascending(folders)
      invariant forall name :: name in folders <==> name in before || exists j ::
        k < j <= |p| && name == FolderName(root, p, j)
    {
      InsertKeepsOrder(FolderName(root, p, k + 1), folders);
      folders := Insert(FolderName(root, p, k + 1), folders);
    }
  }

  /** The names of all members, if every path is safe. */
  method CollectNames(root: string, listing: seq<Path>) returns (ok: bool, folders: seq<string>, files: seq<string>)
    ensures ok <==> AllSafe(listing)
    ensures ok ==> Named(root, listing, folders, files)
  {
    hide Ascending, Insert, FolderName, FileName, SafePath;
    folders, files := [root], [];
    NoNamesYet(root, listing);
    for i := 0 to |listing|
      invariant AllSafe(listing[..i]) && Named(root, listing[..i], folders, files)
    {
      assert listing[..i + 1] == listing[..i] + [listing[i]];
      if !SafePath(listing[i]) { return false, folders, files; }
      ghost var folders0, files0 := folders, files;
      folders := AddFolders(root, listing[i], folders);
      InsertKeepsOrder(FileName(root, listing[i]), files);
      files := Insert(FileName(root, listing[i]), files);
      OneMoreNamed(root, listing, i, folders0, files0, folders, files);
    }
    assert listing[..|listing|] == listing;
    return true, folders, files;
  }

  lemma NoNamesYet(root: string, listing: seq<Path>)
    ensures AllSafe(listing[..0]) && Named(root, listing[..0], [root], [])
  {
  }

  lemma OneMoreNamed(root: string, listing: seq<Path>, i: nat, folders0: seq<string>, files0: seq<string>,
                     folders: seq<string>, files: seq<string>)
    requires i < |listing| && Named(root, listing[..i], folders0, files0) && Ascending(folders) && Ascending(files)
    requires forall name :: name in folders <==> name in folders0 || exists k ::
      0 < k <= |listing[i]| && name == FolderName(root, listing[i], k)
    requires forall name :: name in files <==> name == FileName(root, listing[i]) || name in files0
    ensures Named(root, listing[..i + 1], folders, files)
  {
    hide Ascending, FolderName, FileName;
    forall name ensures IsFolderName(root, listing[..i + 1], name) <==>
                        IsFolderName(root, listing[..i], name) || exists k ::
                          0 < k <= |listing[i]| && name == FolderName(root, listing[i], k)
    {
      MoreFolderNames(root, listing, i, name);
    }
    forall name
      ensures IsFileName(root, listing[..i + 1], name) <==>
        IsFileName(root, listing[..i], name) || name == FileName(root, listing[i])
    {
      MoreFileNames(root, listing, i, name);
    }
  }

  lemma MoreFolderNames(root: string, listing: seq<Path>, i: nat, name: string)
    requires i < |listing|
    ensures IsFolderName(root, listing[..i + 1], name) <==>
      IsFolderName(root, listing[..i], name) || exists k ::
        0 < k <= |listing[i]| && name == FolderName(root, listing[i], k)
  {
    hide FolderName;
    var more, less := listing[..i + 1], listing[..i];
    if name != root && IsFolderName(root, less, name) {
      var j, k :| 0 <= j < |less| && 0 < k <= |less[j]| && name == FolderName(root, less[j], k);
      assert name == FolderName(root, more[j], k);
    }
    if k :| 0 < k <= |listing[i]| && name == FolderName(root, listing[i], k) {
      assert name == FolderName(root, more[i], k);
    }
    if name != root && IsFolderName(root, more, name) {
      var j, k :| 0 <= j < |more| && 0 < k <= |more[j]| && name == FolderName(root, more[j], k);
      if j < i { assert name == FolderName(root, less[j], k); } else { assert name == FolderName(root, listing[i], k); }
    }
  }

  lemma MoreFileNames(root: string, listing: seq<Path>, i: nat, name: string)
    requires i < |listing|
    ensures IsFileName(root, listing[..i + 1], name) <==>
      IsFileName(root, listing[..i], name) || name == FileName(root, listing[i])
  {
    hide FileName;
    var more, less := listing[..i + 1], listing[..i];
    assert more[i] == listing[i];
    if IsFileName(root, less, name) {
      var j :| 0 <= j < i && name == FileName(root, less[j]);
      assert name == FileName(root, more[j]);
    }
    if IsFileName(root, more, name) {
      var j :| 0 <= j <= i && name == FileName(root, more[j]);
      if j < i { assert name == FileName(root, less[j]); }
    }
  }

  /** The members of an archive: folders, then files with their bytes. */
  ghost predicate IsArchive(root: string, stage: Stage, listing: seq<Path>, members: seq<Member>) {
    exists folders, files :: Named(root, listing, folders, files) && IsWritten(root, stage, folders, files, members)
  }

  ghost predicate IsWritten(root: string, stage: Stage, folders: seq<string>, files: seq<string>,
                            members: seq<Member>) {
    && |members| == |folders| + |files|
    && (forall i | 0 <= i < |folders| :: members[i] == Member(folders[i], Folder, []))
    && (forall i | 0 <= i < |files| :: IsFileMember(root, stage, files[i], members[|folders| + i]))
  }

  ghost predicate IsFileMember(root: string, stage: Stage, name: string, m: Member) {
    m.name == name && m.kind == File && exists p :: p in stage && FileName(root, p) == name && m.data == stage[p]
  }

  /** Write an archive; refused exactly if a path is unsafe or a file's name does not fit. */
  method WriteDeterministicArchive(root: string, stage: Stage, listing: seq<Path>) returns (r: Result<seq<Member>>)
    requires SafeSegment(root) && Lists(stage, listing)
    ensures r.Ok? <==> AllSafe(listing) && AllFit(root, listing)
    ensures r.Ok? ==> IsArchive(root, stage, listing, r.value)
  {
    hide Ascending, FileName, FolderName, NormalParts, SafePath, FitsHeader;
    var ok, folders, files := CollectNames(root, listing);
    if !ok { return Err("unsafe path"); }
    var members := [];
    for i := 0 to |folders|
      invariant |members| == i
      invariant forall j | 0 <= j < i :: members[j] == Member(folders[j], Folder, []) && FitsHeader(folders[j] + "/")
    {
      if !FitsHeader(folders[i] + "/") {
        assert folders[i] in folders;
        FolderTooLong(root, listing, folders[i]);
        return Err("name is too long");
      }
      members := members + [Member(folders[i], Folder, [])];
    }
    for i := 0 to |files|
      invariant |members| == |folders| + i
      invariant forall j | 0 <= j < |folders| :: members[j] == Member(folders[j], Folder, [])
      invariant forall j | 0 <= j < i ::
        IsFileMember(root, stage, files[j], members[|folders| + j]) && FitsHeader(files[j])
    {
      assert files[i] in files;
      FileNameReadsBack(root, stage, listing, files[i]);
      if !FitsHeader(files[i]) { return Err("name is too long"); }
      members := members + [Member(files[i], File, stage[NormalParts(files[i])[1..]])];
    }
    NamesFit(root, listing, folders, files);
    assert IsWritten(root, stage, folders, files, members);
    return Ok(members);
  }

  lemma FolderTooLong(root: string, listing: seq<Path>, name: string)
    requires IsFolderName(root, listing, name) && !FitsHeader(name + "/")
    ensures !AllFit(root, listing)
  {
    hide FileName, FolderName, FitsHeader;
    if name != root && AllFit(root, listing) {
      var i, k :| 0 <= i < |listing| && 0 < k <= |listing[i]| && name == FolderName(root, listing[i], k);
      FolderFits(root, listing[i], k);
    }
  }

  lemma NamesFit(root: string, listing: seq<Path>, folders: seq<string>, files: seq<string>)
    requires Named(root, listing, folders, files)
    requires (forall name | name in folders :: FitsHeader(name + "/"))
    requires forall name | name in files :: FitsHeader(name)
    ensures AllFit(root, listing)
  {
    hide FileName, FolderName, FitsHeader, Ascending;
    assert root in folders;
    forall i | 0 <= i < |listing|
      ensures FitsHeader(FileName(root, listing[i]))
    {
      assert FileName(root, listing[i]) in files;
    }
  }

  /** The name of a file member reads back as the place of a staged file. */
  lemma FileNameReadsBack(root: string, stage: Stage, listing: seq<Path>, name: string)
    requires SafeSegment(root) && Lists(stage, listing) && AllSafe(listing) && IsFileName(root, listing, name)
    ensures NormalParts(name) != [] && NormalParts(name)[1..] in stage && FileName(root, NormalParts(name)[1..]) == name
  {
    var i :| 0 <= i < |listing| && name == FileName(root, listing[i]);
    assert listing[i] in listing;
    PlaceReadsBack(root, listing[i], |listing[i]| + 1);
  }

  /** Every place in the archive reads back from its name. */
  lemma PlaceReadsBack(root: string, p: Path, k: nat)
    requires SafeSegment(root) && SafePath(p) && 0 < k <= |p| + 1
    ensures var place := ([root] + p)[..k];
      NormalParts(Posix(place)) == place && place[0] == root && ".." !in place && Posix(place) != ""
      && Posix(place)[0] != '/'
    ensures k == |p| + 1 ==> ([root] + p)[..k] == [root] + p && ([root] + p)[..k][1..] == p
  {
    var place := ([root] + p)[..k];
    forall i | 0 <= i < |place| ensures SafeSegment(place[i]) { if i > 0 { assert place[i] == p[i - 1]; } }
    SafeNameReadsBack(place);
    SafeNameIsRelative(place);
  }

  // --------------------------------------------- what the writer writes, the validator accepts

  /** What a name in a written archive stands for. */
  lemma NameStandsFor(root: string, stage: Stage, listing: seq<Path>, folders: seq<string>, files: seq<string>,
                      members: seq<Member>, i: nat)
    requires SafeSegment(root) && IsTree(stage) && Lists(stage, listing) && AllSafe(listing) && root != ""
    requires Named(root, listing, folders, files) && IsWritten(root, stage, folders, files, members) && i < |members|
    ensures Below(root, members[i].name) && members[i].kind != Special
    ensures members[i].kind == File ==>
      NormalParts(members[i].name)[1..] in stage && members[i].data == stage[NormalParts(members[i].name)[1..]]
    ensures members[i].kind == Folder ==>
      NormalParts(members[i].name)[1..] !in stage || NormalParts(members[i].name) == [root]
  {
    hide Ascending;
    if i < |folders| {
      assert folders[i] in folders;
      FolderStandsFor(root, stage, listing, folders[i]);
    } else {
      var name := files[i - |folders|];
      assert IsFileMember(root, stage, name, members[|folders| + (i - |folders|)]);
      var p :| p in stage && FileName(root, p) == name && members[i].data == stage[p];
      assert p in listing;
      PlaceReadsBack(root, p, |p| + 1);
    }
  }

  lemma FolderStandsFor(root: string, stage: Stage, listing: seq<Path>, name: string)
    requires SafeSegment(root) && IsTree(stage) && Lists(stage, listing) && AllSafe(listing)
    requires IsFolderName(root, listing, name)
    ensures Below(root, name) && (NormalParts(name)[1..] !in stage || NormalParts(name) == [root])
  {
    if name == root {
      PlaceReadsBack(root, [], 1);
      assert ([root] + [])[..1] == [root] && Posix([root]) == root;
    } else {
      var i, k :| 0 <= i < |listing| && 0 < k <= |listing[i]| && name == FolderName(root, listing[i], k);
      var p := listing[i];
      assert p in listing && p in stage;
      PlaceReadsBack(root, p, k);
      var place := ([root] + p)[..k];
      assert place[1..] == p[..k - 1];
      assert p[..k - 1] < p;
    }
  }

  lemma NamesDiffer(root: string, stage: Stage, listing: seq<Path>, folders: seq<string>, files: seq<string>,
                    members: seq<Member>, i: nat, j: nat)
    requires SafeSegment(root) && IsTree(stage) && [] !in stage && Lists(stage, listing) && AllSafe(listing)
    requires Named(root, listing, folders, files) && IsWritten(root, stage, folders, files, members)
    requires i < j < |members|
    ensures members[i].name != members[j].name
  {
    hide Below, NormalParts, IsFolderName, IsFileName;
    if j < |folders| { LessTotal(folders[i], folders[j]); }
    else if i >= |folders| {
      assert IsFileMember(root, stage, files[i - |folders|], members[|folders| + (i - |folders|)]);
      assert IsFileMember(root, stage, files[j - |folders|], members[|folders| + (j - |folders|)]);
      LessTotal(files[i - |folders|], files[j - |folders|]);
    } else {
      assert IsFileMember(root, stage, files[j - |folders|], members[|folders| + (j - |folders|)]);
      NameStandsFor(root, stage, listing, folders, files, members, i);
      NameStandsFor(root, stage, listing, folders, files, members, j);
      if members[i].name == members[j].name { RootIsNoFile(root, stage, members[i].name); }
    }
  }

  lemma RootIsNoFile(root: string, stage: Stage, name: string)
    requires [] !in stage && NormalParts(name) == [root]
    ensures NormalParts(name)[1..] !in stage
  {
    hide NormalParts;
    assert [root][1..] == [];
  }

  /** A file member's name is the name of the path it reads back as. */
  lemma FileMemberName(root: string, stage: Stage, listing: seq<Path>, folders: seq<string>, files: seq<string>,
                       members: seq<Member>, i: nat)
    requires SafeSegment(root) && Lists(stage, listing) && AllSafe(listing) && i < |members| && members[i].kind == File
    requires IsWritten(root, stage, folders, files, members)
    ensures NormalParts(members[i].name) != [] && NormalParts(members[i].name)[0] == root
    ensures members[i].name == FileName(root, NormalParts(members[i].name)[1..])
  {
    if i >= |folders| {
      var name := files[i - |folders|];
      assert IsFileMember(root, stage, name, members[|folders| + (i - |folders|)]);
      var p :| p in stage && FileName(root, p) == name && members[i].data == stage[p];
      assert p in listing;
      PlaceReadsBack(root, p, |p| + 1);
    }
  }

  lemma WrittenFits(root: string, stage: Stage, listing: seq<Path>, folders: seq<string>, files: seq<string>,
                    members: seq<Member>)
    requires SafeSegment(root) && IsTree(stage) && [] !in stage && Lists(stage, listing) && AllSafe(listing)
    requires Named(root, listing, folders, files) && IsWritten(root, stage, folders, files, members)
    ensures MembersFit(root, members) && OneMemberPerPath(members)
  {
    hide Named, IsWritten, Below, NormalParts, Lists, AllSafe, IsTree;
    forall i, j | 0 <= i < j < |members| ensures members[i].name != members[j].name {
      NamesDiffer(root, stage, listing, folders, files, members, i, j);
    }
    forall i | 0 <= i < |members| ensures Below(root, members[i].name) && members[i].kind != Special {
      NameStandsFor(root, stage, listing, folders, files, members, i);
    }
    forall i, j | 0 <= i < j < |members| && members[i].kind == File && members[j].kind == File
      ensures NormalParts(members[i].name) != NormalParts(members[j].name)
    {
      FileMemberName(root, stage, listing, folders, files, members, i);
      FileMemberName(root, stage, listing, folders, files, members, j);
    }
  }

  /** The file member of a staged file. */
  lemma StagedFileIsWritten(root: string, stage: Stage, listing: seq<Path>, folders: seq<string>, files: seq<string>,
                            members: seq<Member>, p: Path)
    returns (i: nat)
    requires SafeSegment(root) && Lists(stage, listing) && AllSafe(listing) && p in stage
    requires Named(root, listing, folders, files) && IsWritten(root, stage, folders, files, members)
    ensures i < |members| && members[i].kind == File && NormalParts(members[i].name) == [root] + p
  {
    hide Ascending, NormalParts;
    assert p in listing;
    assert IsFileName(root, listing, FileName(root, p));
    var j :| 0 <= j < |files| && files[j] == FileName(root, p);
    i := |folders| + j;
    assert IsFileMember(root, stage, files[j], members[|folders| + j]);
    PlaceReadsBack(root, p, |p| + 1);
  }

  /**
   Whatever the writer writes of a tree of files, the separate validator accepts;
   and no two of its file members have one path.
   */
  lemma WrittenIsAccepted(hash: Bytes -> string, root: string, stage: Stage, listing: seq<Path>, members: seq<Member>)
    requires SafeSegment(root) && IsTree(stage) && [] !in stage && Lists(stage, listing) && AllSafe(listing)
    requires IsArchive(root, stage, listing, members)
    ensures ArchiveAccepted(hash, root, members, stage) && OneMemberPerPath(members)
  {
    hide Named, IsWritten, NormalParts, Lists, AllSafe, IsTree;
    var folders, files :| Named(root, listing, folders, files) && IsWritten(root, stage, folders, files, members);
    WrittenFits(root, stage, listing, folders, files, members);
    FitIsRooted(root, members);
    forall p | p in Observed(hash, members) ensures p in stage && Observed(hash, members)[p] == hash(stage[p]) {
      var i := ObservedHasLast(hash, root, members, p);
      LastIsObserved(hash, root, members, i);
      NameStandsFor(root, stage, listing, folders, files, members, i);
      assert ([root] + p)[1..] == p;
    }
    forall p | p in stage ensures p in Observed(hash, members) {
      var i := StagedFileIsWritten(root, stage, listing, folders, files, members, p);
      assert IsLast(members, i);
      LastIsObserved(hash, root, members, i);
      assert ([root] + p)[1..] == p;
    }
  }

  /** The archive does not depend on the order in which the stage was listed. */
  lemma ArchiveIsDeterministic(root: string, stage: Stage, x: seq<Path>, y: seq<Path>, membersX: seq<Member>,
                               membersY: seq<Member>)
    requires SafeSegment(root) && Lists(stage, x) && Lists(stage, y) && AllSafe(x) && AllSafe(y)
    requires IsArchive(root, stage, x, membersX) && IsArchive(root, stage, y, membersY)
    ensures membersX == membersY
  {
    hide NormalParts, Ascending, FolderName, FileName;
    var foldersX, filesX :| Named(root, x, foldersX, filesX) && IsWritten(root, stage, foldersX, filesX, membersX);
    var foldersY, filesY :| Named(root, y, foldersY, filesY) && IsWritten(root, stage, foldersY, filesY, membersY);
    forall name
      ensures IsFolderName(root, x, name) <==> IsFolderName(root, y, name)
    {
      SameNames(root, stage, x, y, name);
    }
    forall name ensures IsFileName(root, x, name) <==> IsFileName(root, y, name) { SameNames(root, stage, x, y, name); }
    OrderIsUnique(foldersX, foldersY);
    OrderIsUnique(filesX, filesY);
    forall i | 0 <= i < |membersX| ensures membersX[i] == membersY[i] {
      if i >= |foldersX| {
        SameFileMember(root, stage, x, filesX[i - |foldersX|], membersX[|foldersX| + (i - |foldersX|)],
                       membersY[|foldersX| + (i - |foldersX|)]);
      }
    }
  }

  lemma SameNames(root: string, stage: Stage, x: seq<Path>, y: seq<Path>, name: string)
    requires Lists(stage, x) && Lists(stage, y)
    ensures IsFolderName(root, x, name) <==> IsFolderName(root, y, name)
    ensures IsFileName(root, x, name) <==> IsFileName(root, y, name)
  {
    hide FolderName, FileName;
    NamesCarryOver(root, stage, x, y, name);
    NamesCarryOver(root, stage, y, x, name);
  }

  lemma NamesCarryOver(root: string, stage: Stage, x: seq<Path>, y: seq<Path>, name: string)
    requires Lists(stage, x) && Lists(stage, y)
    ensures IsFolderName(root, x, name) ==> IsFolderName(root, y, name)
    ensures IsFileName(root, x, name) ==> IsFileName(root, y, name)
  {
    hide FolderName, FileName;
    if name != root && IsFolderName(root, x, name) {
      var i, k :| 0 <= i < |x| && 0 < k <= |x[i]| && name == FolderName(root, x[i], k);
      assert x[i] in x && x[i] in y;
      var j :| 0 <= j < |y| && y[j] == x[i];
      assert name == FolderName(root, y[j], k);
    }
    if IsFileName(root, x, name) {
      var i :| 0 <= i < |x| && name == FileName(root, x[i]);
      assert x[i] in x && x[i] in y;
      var j :| 0 <= j < |y| && y[j] == x[i];
      assert name == FileName(root, y[j]);
    }
  }

  lemma SameFileMember(root: string, stage: Stage, listing: seq<Path>, name: string, m: Member, n: Member)
    requires SafeSegment(root) && Lists(stage, listing) && AllSafe(listing) && IsFileMember(root, stage, name, m)
    requires IsFileMember(root, stage, name, n)
    ensures m == n
  {
    var p :| p in stage && FileName(root, p) == name && m.data == stage[p];
    var q :| q in stage && FileName(root, q) == name && n.data == stage[q];
    assert p in listing && q in listing;
    PlaceReadsBack(root, p, |p| + 1);
    PlaceReadsBack(root, q, |q| + 1);
  }
}
