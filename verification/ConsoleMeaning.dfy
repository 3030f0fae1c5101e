/**
 What the checks of a Console build mean (tools/build_console_artifact.py:33-71, 90-221, 438-446,
 tools/release_chain.py:614-637, 704-725, 984-1032): which files are reviewed, when a build succeeds,
 and what an accepted integrity graph and archive say about the staged bytes.
 */
module ConsoleMeaning {
  import opened Common
  import opened ChecksumInventory
  import opened ConsoleArchive
  import opened ConsoleArtifact
  import T = Text
  import W = PathWalk

  // ------------------------------------------------------------------------ reviewed files

  const FILES: set<string> :=
    {"index.html", "app.js", "config.js", "icons.js", "mappers.js", "releaseCoherence.js", "releaseGate.js",
     "supportBundle.js", "utils.js", "styles.css"}

  const SCRIPTS: set<string> :=
    {"actions", "api", "auth", "bootstrap", "components", "controllers", "domain", "routes", "state", "ui"}

  /** A directory holds files of this suffix. */
  predicate Holds(directory: string, suffix: string) {
    || (suffix == ".js" && (directory in SCRIPTS || directory == "vendor"))
    || (suffix in {".png", ".svg"} && directory == "assets")
    || (suffix in {".ipynb", ".ps1", ".sh", ".zip"} && directory == "downloads")
    || (suffix == ".css" && directory == "styles") || (suffix == ".md" && directory == "vendor")
  }

  predicate SameLetter(c: char, d: char) {
    c == d || ('A' <= c <= 'Z' && c as int - 'A' as int == d as int - 'a' as int)
  }

  /** There is more to the name than the suffix, which it ends in, in letters of either case. */
  predicate EndsInSuffix(name: string, suffix: string) {
    |name| > |suffix| && forall i | 0 <= i < |suffix| :: SameLetter(name[|name| - |suffix| + i], suffix[i])
  }

  /** A letter, a digit, a dot, a dash or an underscore. */
  predicate IsCharacter(c: char) {
    var k := c as int;
    48 <= k <= 57 || 65 <= k <= 90 || 97 <= k <= 122 || k == 45 || k == 46 || k == 95
  }

  /** A part of a path: such characters, with a letter or digit first. */
  predicate IsSegment(s: string) {
    |s| > 0 && (forall i | 0 <= i < |s| :: IsCharacter(s[i])) && s[0] != '.' && s[0] != '-' && s[0] != '_'
  }

  lemma CharacterMeans(c: char)
    ensures IsCharacter(c) <==> IsAlphanumeric(c) || c in "._-"
    ensures IsAlphanumeric(c) <==> IsCharacter(c) && c != '.' && c != '-' && c != '_'
  {
  }

  lemma SegmentMeans(s: string)
    ensures SafeSegment(s) <==> IsSegment(s)
  {
    hide IsAlphanumeric, IsCharacter;
    forall c: char
      ensures IsCharacter(c) <==> IsAlphanumeric(c) || c in "._-"
      ensures IsAlphanumeric(c) <==> IsCharacter(c) && c != '.' && c != '-' && c != '_'
    {
      CharacterMeans(c);
    }
  }

  /** A reviewed file: one of ten at the top, or of a suffix that its top directory holds. */
  ghost predicate Reviewed(p: Path) {
    && p != [] && (forall i | 0 <= i < |p| :: IsSegment(p[i]))
    && ((|p| == 1 && p[0] in FILES)
        || (|p| > 1 && exists suffix :: Holds(p[0], suffix) && EndsInSuffix(p[|p| - 1], suffix)))
  }

  /** The suffixes start with their only dot. */
  lemma SuffixesHaveOneDot(directory: string, suffix: string)
    requires Holds(directory, suffix)
    ensures |suffix| > 1 && suffix[0] == '.'
    ensures forall i | 0 < i < |suffix| :: 'a' <= suffix[i] <= 'z' || suffix[i] == '1'
  {
  }

  lemma HoldsMeans(directory: string, suffix: string)
    ensures Holds(directory, suffix) <==> suffix in AllowedSuffixes(directory)
  {
  }

  lemma SuffixMeans(name: string, suffix: string)
    requires |suffix| > 1 && suffix[0] == '.'
    requires forall i | 0 < i < |suffix| :: 'a' <= suffix[i] <= 'z' || suffix[i] == '1'
    ensures Lower(Suffix(name)) == suffix <==> EndsInSuffix(name, suffix)
  {
    var k := |name| - |suffix|;
    LastDotIsUnique(name);
    if Lower(Suffix(name)) == suffix {
      assert forall i | 0 <= i < |suffix| :: Lower(Suffix(name))[i] == suffix[i];
    }
    if EndsInSuffix(name, suffix) {
      assert name[k] == '.' by { assert SameLetter(name[k + 0], suffix[0]); }
      forall j | k < j < |name| ensures name[j] != '.' {
        assert SameLetter(name[k + (j - k)], suffix[j - k]);
      }
      assert IsLastDot(name, k) && 0 < k < |name| - 1;
      assert Suffix(name) == name[k..];
      forall i | 0 <= i < |suffix| ensures Lower(name[k..])[i] == suffix[i] {
        assert SameLetter(name[k + i], suffix[i]);
      }
      assert Lower(name[k..]) == suffix;
    }
  }

  /** A path is deployed exactly if it is that of a reviewed file. */
  lemma ReviewedMeans(p: Path)
    ensures IsDeployable(p) <==> Reviewed(p)
  {
    hide Suffix, Lower, AllowedSuffixes, Holds, EndsInSuffix, SafeSegment, IsSegment;
    forall i | 0 <= i < |p| ensures SafeSegment(p[i]) <==> IsSegment(p[i]) { SegmentMeans(p[i]); }
    if |p| > 1 {
      var s := Lower(Suffix(p[|p| - 1]));
      HoldsMeans(p[0], s);
      if Holds(p[0], s) {
        SuffixesHaveOneDot(p[0], s);
        SuffixMeans(p[|p| - 1], s);
      }
      forall suffix | Holds(p[0], suffix) && EndsInSuffix(p[|p| - 1], suffix) ensures s == suffix {
        SuffixesHaveOneDot(p[0], suffix);
        SuffixMeans(p[|p| - 1], suffix);
      }
      AllowedIsPublic(p[0], s);
    }
  }

  lemma AllowedIsPublic(directory: string, suffix: string)
    ensures suffix in AllowedSuffixes(directory) ==> directory in PUBLIC_DIRECTORIES
  {
  }

  // ------------------------------------------------------------------------ when it is built

  const DIRECTORIES: set<string> := SCRIPTS + {"assets", "downloads", "styles", "vendor"}

  /** A name of at most 100 characters, or one that a slash splits in at most 155 and at most 100. */
  ghost predicate Fits(name: string) {
    |name| <= 100 || exists prefix, rest :: |prefix| <= 155 && |rest| <= 100 && name == prefix + "/" + rest
  }

  lemma FitsMeans(name: string)
    ensures FitsHeader(name) <==> Fits(name)
  {
    if |name| > 100 {
      forall i | 0 <= i < |name| && name[i] == '/' ensures name == name[..i] + "/" + name[i + 1..] {}
      if Fits(name) {
        var prefix, rest :| |prefix| <= 155 && |rest| <= 100 && name == prefix + "/" + rest;
        assert name[|prefix|] == '/';
      }
    }
  }

  /** A public directory holds reviewed files only, all files and directories are there, and the names fit. */
  ghost predicate IsBuildable(root: string, tree: Stage) {
    && (forall p | p in tree && p != [] && p[0] in DIRECTORIES :: Reviewed(p))
    && (forall f | f in FILES :: [f] in tree)
    && (forall d | d in DIRECTORIES :: exists p :: p in tree && |p| > 1 && p[0] == d)
    && (forall p | p in tree && Reviewed(p) :: Fits(T.Join([root] + p, '/')))
    && Fits(T.Join([root, "build.json"], '/')) && Fits(T.Join([root, "static-integrity.json"], '/'))
  }

  /** A build succeeds exactly for a buildable tree. */
  lemma BuildableMeans(root: string, tree: Stage)
    ensures IsBuildable(root, tree) <==>
      && OnlyDeployable(tree) && HasEveryFile(Deployed(tree)) && HasEveryDirectory(Deployed(tree))
      && NamesFitArchive(root, Deployed(tree))
  {
    hide IsDeployable, Reviewed, FitsHeader, Fits;
    forall p ensures IsDeployable(p) <==> Reviewed(p) { ReviewedMeans(p); }
    forall name ensures FitsHeader(name) <==> Fits(name) { FitsMeans(name); }
    forall f | f in FILES ensures Reviewed([f]) { FileIsReviewed(f); }
    assert DIRECTORIES == PUBLIC_DIRECTORIES && FILES == PUBLIC_FILES;
    assert [root] + [BUILD] == [root, "build.json"] && [root] + [INTEGRITY] == [root, "static-integrity.json"];
    NamesMean(root, tree);
  }

  lemma NamesMean(root: string, tree: Stage)
    ensures NamesFitArchive(root, Deployed(tree)) <==>
      && (forall p | p in tree && IsDeployable(p) :: FitsHeader(T.Join([root] + p, '/')))
      && FitsHeader(T.Join([root] + [BUILD], '/')) && FitsHeader(T.Join([root] + [INTEGRITY], '/'))
  {
    hide IsDeployable, FitsHeader;
    var all := Deployed(tree).Keys + {[BUILD], [INTEGRITY]};
    assert [BUILD] in all && [INTEGRITY] in all;
    forall p | p in tree && IsDeployable(p) ensures p in all {}
  }

  lemma FileIsReviewed(f: string)
    requires f in FILES
    ensures Reviewed([f])
  {
    SegmentsAt(f);
    hide IsSegment;
  }

  lemma SegmentsAt(f: string)
    requires f in FILES
    ensures IsSegment(f)
  {
  }

  /** The stage holds the reviewed files of the commit, with its bytes, and the two files that are made. */
  lemma StageHolds(tree: Stage, build: Bytes, graph: Bytes, p: Path)
    ensures var full := Deployed(tree)[["build.json"] := build][["static-integrity.json"] := graph];
      && (p in full <==> p == ["build.json"] || p == ["static-integrity.json"] || (p in tree && Reviewed(p)))
      && (p in full ==> full[p] == if p == ["build.json"] then build
                                   else if p == ["static-integrity.json"] then graph else tree[p])
  {
    hide IsDeployable, Reviewed;
    ReviewedMeans(p);
    assert ["build.json"] != ["static-integrity.json"] by { assert ["build.json"][0] != ["static-integrity.json"][0]; }
  }

  // ------------------------------------------------------------- what is said about the bytes

  lemma {:induction false} DroppedLeads(place: Path, parts: seq<string>)
    ensures W.Follow(place, DropEmpty(parts)) == W.Follow(place, parts)
    decreases |parts|
  {
    if parts != [] {
      var rest := DropEmpty(parts[1..]);
      if parts[0] == "" || parts[0] == "." {
        DroppedLeads(place, parts[1..]);
        assert [] + rest == rest;
      } else {
        assert ([parts[0]] + rest)[1..] == rest;
        var next := W.Go(place, parts[0]);
        if next.Some? { DroppedLeads(next.value, parts[1..]); }
      }
    }
  }

  lemma {:induction false} FollowIsResolve(before: Path, after: Path)
    requires forall i | 0 <= i < |after| :: after[i] != "" && after[i] != "."
    ensures Resolve(before + after) ==
            match Resolve(before) case None => None case Some(p) => W.Follow(p, after)
    decreases |after|
  {
    if after == [] {
      assert before + after == before;
    } else {
      var one := before + [after[0]];
      assert one[..|one| - 1] == before && before + after == one + after[1..];
      FollowIsResolve(one, after[1..]);
    }
  }

  lemma {:induction false} NothingEmpty(parts: seq<string>)
    ensures forall i | 0 <= i < |DropEmpty(parts)| :: DropEmpty(parts)[i] != "" && DropEmpty(parts)[i] != "."
  {
    if parts != [] { NothingEmpty(parts[1..]); }
  }

  /** An address resolves to where its parts lead, from the stage. */
  lemma ResolvedLeads(name: string)
    ensures Resolve(NormalParts(name)) == W.Follow([], T.Split(name, '/'))
  {
    var parts := T.Split(name, '/');
    NothingEmpty(parts);
    FollowIsResolve([], DropEmpty(parts));
    assert [] + DropEmpty(parts) == DropEmpty(parts);
    DroppedLeads([], parts);
  }

  /** An address: its parts lead, from the stage, to a staged file with this hash. */
  ghost predicate AddressFits(w: World, stage: Stage, u: string, sha256: string) {
    && |u| >= 2 && u[0] == '.' && u[1] == '/' && (|u| > 2 ==> u[2] != '.' && u[2] != '/') && w.isSha(sha256)
    && exists p :: p in stage && W.Follow([], T.Split(u[2..], '/')) == Some(p) && w.hash(stage[p]) == sha256
  }

  /** The graph is of this release, and all its addresses lead to staged files with the hashes that it has for them. */
  ghost predicate DescribesStage(w: World, g: Integrity, releaseId: string, stage: Stage) {
    && g.releaseId == releaseId && "./build.json" in g.assets
    && forall u | u in g.assets :: AddressFits(w, stage, u, g.assets[u])
  }

  const START: set<string> := {"./build.json", "./index.html", "./releaseGate.js", "./app.js"}

  predicate IsStyle(s: string) { |s| >= 4 && s[|s| - 4..] == ".css" }

  predicate IsPlain(s: string) { forall i | 0 <= i < |s| :: 0 <= s[i] as int <= 127 }

  /** The graph starts the Console: it has the four files to start with, its style sheets, and its own fingerprint. */
  predicate StartsConsole(w: World, g: Integrity) {
    && g.build == "./build.json" && START <= g.assets.Keys && g.stylesheets != []
    && (forall s | s in g.stylesheets :: IsStyle(s) && s in g.assets) && (forall u | u in g.assets :: IsPlain(u))
    && g.buildId == w.fingerprint(g.releaseId, g.build, g.stylesheets, g.assets)
  }

  lemma AddressMeans(w: World, stage: Stage, u: string, sha256: string)
    ensures UrlFits(w, stage, u, sha256) <==> AddressFits(w, stage, u, sha256)
  {
    hide NormalParts, Resolve;
    if |u| >= 2 { ResolvedLeads(u[2..]); }
  }

  /** A graph is accepted exactly if it describes the stage and, under schema 3, starts the Console. */
  lemma AcceptedGraphMeans(w: World, g: Integrity, releaseId: string, stage: Stage)
    ensures IntegrityAccepted(w, g) && AssetsAccepted(w, g, releaseId, stage) <==>
      (g.schema == 2 || (g.schema == 3 && StartsConsole(w, g))) && DescribesStage(w, g, releaseId, stage)
  {
    hide UrlFits, AddressFits, IntegrityAccepted;
    BootstrapMeans(g.assets);
    forall u | u in g.assets ensures UrlFits(w, stage, u, g.assets[u]) <==> AddressFits(w, stage, u, g.assets[u]) {
      AddressMeans(w, stage, u, g.assets[u]);
    }
    StartMeans(w, g);
    hide StartsConsole;
  }

  lemma StartMeans(w: World, g: Integrity)
    ensures IntegrityAccepted(w, g) <==> g.schema == 2 || (g.schema == 3 && StartsConsole(w, g))
  {
    BootstrapMeans(g.assets);
    StylesMean(g);
    AsciiMeans(g.assets);
    hide CoversBootstrap, StylesFit, AllAscii, IsStyle, IsPlain;
  }

  lemma BootstrapMeans(assets: map<string, string>)
    ensures "./" + BUILD == "./build.json" && (CoversBootstrap(assets) <==> START <= assets.Keys)
  {
    assert "./" + BUILD == "./build.json" && "./" + "index.html" == "./index.html";
    assert "./" + "releaseGate.js" == "./releaseGate.js" && "./" + "app.js" == "./app.js";
    assert BUILD in BOOTSTRAP && "index.html" in BOOTSTRAP && "releaseGate.js" in BOOTSTRAP && "app.js" in BOOTSTRAP;
  }

  lemma StylesMean(g: Integrity)
    ensures StylesFit(g) <==> forall s | s in g.stylesheets :: IsStyle(s) && s in g.assets
  {
    forall i | 0 <= i < |g.stylesheets| ensures g.stylesheets[i] in g.stylesheets {}
  }

  lemma AsciiMeans(assets: map<string, string>)
    ensures AllAscii(assets) <==> forall u | u in assets :: IsPlain(u)
  {
    forall u: string ensures IsAscii(u) <==> IsPlain(u) {}
  }

  /**
   The graph of a stage describes another one only if the files that it covers are there, with bytes of the same
   hash: a missing or changed file is noticed.
   */
  lemma ChangeIsNoticed(w: World, stage: Stage, other: Stage, g: Integrity, releaseId: string, p: Path)
    requires Covers(w, stage, g.assets) && AssetsAccepted(w, g, releaseId, other)
    requires IsAsset(stage, p) && SafePath(p)
    ensures p in other && w.hash(other[p]) == w.hash(stage[p])
  {
    hide NormalParts, Resolve, SafePath;
    AddressLeadsBack(p);
    assert UrlFits(w, other, Url(p), g.assets[Url(p)]);
  }

  // --------------------------------------------------------------------------- the archive

  /** A member lies below the archive's root: its parts lead there, and never up. */
  ghost predicate LeadsBelow(root: string, name: string) {
    && (name == "" || name[0] != '/') && ".." !in T.Split(name, '/')
    && exists p :: W.Follow([], T.Split(name, '/')) == Some([root] + p)
  }

  lemma {:induction false} DroppedHolds(parts: seq<string>, part: string)
    requires part != "" && part != "."
    ensures part in DropEmpty(parts) <==> part in parts
  {
    if parts != [] { DroppedHolds(parts[1..], part); }
  }

  lemma BelowMeans(root: string, name: string)
    ensures Below(root, name) <==> LeadsBelow(root, name)
  {
    var parts := T.Split(name, '/');
    var q := NormalParts(name);
    DroppedHolds(parts, "..");
    if ".." !in q {
      ResolvedLeads(name);
      ResolvesToItself(q);
      if q != [] && q[0] == root { assert q == [root] + q[1..]; }
    }
  }

  /** The members of an archive fit exactly if their names differ and lead below its root, and none is special. */
  lemma MembersMean(root: string, members: seq<Member>)
    ensures MembersFit(root, members) <==>
      && (forall i, j | 0 <= i < |members| && 0 <= j < |members| && i != j :: members[i].name != members[j].name)
      && (forall m | m in members :: LeadsBelow(root, m.name) && (m.kind == File || m.kind == Folder))
  {
    hide Below, LeadsBelow;
    forall i | 0 <= i < |members|
      ensures members[i] in members && (Below(root, members[i].name) <==> LeadsBelow(root, members[i].name))
    {
      BelowMeans(root, members[i].name);
    }
  }

  /** The member of a staged file. */
  function FileMember(root: string, stage: Stage, p: Path): Member
    requires p in stage
  {
    Member(T.Join([root] + p, '/'), File, stage[p])
  }

  ghost predicate IsStagedMember(root: string, stage: Stage, m: Member) {
    exists p :: p in stage && m == FileMember(root, stage, p)
  }

  /** The member of the root, or of the directory of some depth above a staged file. */
  ghost predicate IsFolderMember(root: string, stage: Stage, m: Member) {
    m.kind == Folder && m.data == []
    && (m.name == root || exists p, k :: p in stage && 0 < k <= |p| && m.name == T.Join(([root] + p)[..k], '/'))
  }

  /**
   A written archive has a member for each directory, in order, and then one for each staged file, in order and
   with its bytes; and no others.
   */
  lemma WrittenMeans(root: string, stage: Stage, listing: seq<Path>, members: seq<Member>)
    requires SafeSegment(root) && Lists(stage, listing) && AllSafe(listing) && IsArchive(root, stage, listing, members)
    ensures forall m :: m in members <==> IsFolderMember(root, stage, m) || IsStagedMember(root, stage, m)
    ensures forall i, j | 0 <= i < j < |members| ::
      (members[i].kind == members[j].kind && Less(members[i].name, members[j].name))
      || (members[i].kind == Folder && members[j].kind == File)
  {
    hide NormalParts, SafePath, SafeSegment;
    var folders, files :| Named(root, listing, folders, files) && IsWritten(root, stage, folders, files, members);
    forall m ensures IsFolderMember(root, stage, m) <==> m.kind == Folder && m.data == [] && m.name in folders {
      FolderNameMeans(root, stage, listing, m.name);
    }
    forall i | |folders| <= i < |members| ensures IsStagedMember(root, stage, members[i]) {
      assert IsFileMember(root, stage, files[i - |folders|], members[|folders| + (i - |folders|)]);
    }
    forall p | p in stage ensures FileMember(root, stage, p) in members {
      FileIsWritten(root, stage, listing, folders, files, members, p);
    }
    MembersAre(root, stage, folders, files, members);
    forall i, j | 0 <= i < j < |members|
      ensures (members[i].kind == members[j].kind && Less(members[i].name, members[j].name))
              || (members[i].kind == Folder && members[j].kind == File)
    {
      OrderedMembers(root, stage, folders, files, members, i, j);
    }
  }

  lemma FolderNameMeans(root: string, stage: Stage, listing: seq<Path>, name: string)
    requires Lists(stage, listing)
    ensures IsFolderName(root, listing, name) <==>
      name == root || exists p, k :: p in stage && 0 < k <= |p| && name == T.Join(([root] + p)[..k], '/')
  {
    hide T.Join;
    if name != root && IsFolderName(root, listing, name) {
      var i, k :| 0 <= i < |listing| && 0 < k <= |listing[i]| && name == FolderName(root, listing[i], k);
      assert listing[i] in listing;
    }
    if p, k :| p in stage && 0 < k <= |p| && name == T.Join(([root] + p)[..k], '/') {
      var i :| 0 <= i < |listing| && listing[i] == p;
      assert name == FolderName(root, listing[i], k);
    }
  }

  lemma FileIsWritten(root: string, stage: Stage, listing: seq<Path>, folders: seq<string>, files: seq<string>,
                      members: seq<Member>, p: Path)
    requires SafeSegment(root) && Lists(stage, listing) && AllSafe(listing) && p in stage
    requires Named(root, listing, folders, files) && IsWritten(root, stage, folders, files, members)
    ensures FileMember(root, stage, p) in members
  {
    hide Ascending, NormalParts, SafePath;
    assert p in listing && IsFileName(root, listing, FileName(root, p));
    var i :| 0 <= i < |files| && files[i] == FileName(root, p);
    assert IsFileMember(root, stage, files[i], members[|folders| + i]);
    var q :| q in stage && FileName(root, q) == files[i] && members[|folders| + i].data == stage[q];
    assert q in listing;
    PlaceReadsBack(root, p, |p| + 1);
    PlaceReadsBack(root, q, |q| + 1);
    assert q == p;
  }

  lemma MembersAre(root: string, stage: Stage, folders: seq<string>, files: seq<string>, members: seq<Member>)
    requires IsWritten(root, stage, folders, files, members)
    requires forall m :: IsFolderMember(root, stage, m) <==> m.kind == Folder && m.data == [] && m.name in folders
    requires forall i | |folders| <= i < |members| :: IsStagedMember(root, stage, members[i])
    requires forall p | p in stage :: FileMember(root, stage, p) in members
    ensures forall m :: m in members <==> IsFolderMember(root, stage, m) || IsStagedMember(root, stage, m)
  {
    hide IsFolderMember, FileMember, IsFileMember;
    forall m | m in members
      ensures IsFolderMember(root, stage, m) || IsStagedMember(root, stage, m)
    {
      var k :| 0 <= k < |members| && members[k] == m;
      if k < |folders| { assert folders[k] in folders; }
    }
    forall m | IsFolderMember(root, stage, m) ensures m in members {
      var k :| 0 <= k < |folders| && folders[k] == m.name;
      assert members[k] == m;
    }
  }

  lemma OrderedMembers(root: string, stage: Stage, folders: seq<string>, files: seq<string>, members: seq<Member>,
                       i: nat, j: nat)
    requires IsWritten(root, stage, folders, files, members) && Ascending(folders) && Ascending(files)
    requires i < j < |members|
    ensures (members[i].kind == members[j].kind && Less(members[i].name, members[j].name))
            || (members[i].kind == Folder && members[j].kind == File)
  {
    if i >= |folders| {
      assert IsFileMember(root, stage, files[i - |folders|], members[|folders| + (i - |folders|)]);
    }
    if j >= |folders| {
      assert IsFileMember(root, stage, files[j - |folders|], members[|folders| + (j - |folders|)]);
    }
  }
}
