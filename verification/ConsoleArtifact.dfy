/**
 The Console build (tools/build_console_artifact.py:33-71, 90-242, 438-446) against the
 release checks of its output (tools/release_chain.py:601-637, 704-725).
 Hashing, JSON text and the build fingerprint are given functions.
 */
module ConsoleArtifact {
  import opened Common
  import opened ChecksumInventory
  import opened ConsoleArchive
  import T = Text

  const JAVASCRIPT_DIRECTORIES: set<string> :=
    {"actions", "api", "auth", "bootstrap", "components", "controllers", "domain", "routes", "state", "ui"}
  const PUBLIC_DIRECTORIES: set<string> := JAVASCRIPT_DIRECTORIES + {"assets", "downloads", "styles", "vendor"}
  const PUBLIC_FILES: set<string> :=
    {"app.js", "config.js", "icons.js", "index.html", "mappers.js", "releaseCoherence.js", "releaseGate.js",
     "styles.css", "supportBundle.js", "utils.js"}
  const BUILD := "build.json"
  const INTEGRITY := "static-integrity.json"
  const STYLES := "styles.css"
  const BOOTSTRAP: set<string> := {BUILD, "index.html", "releaseGate.js", "app.js"}

  // ------------------------------------------------------------------- the allowlist

  function AllowedSuffixes(directory: string): set<string> {
    match directory
    case "assets" => {".png", ".svg"}
    case "downloads" => {".ipynb", ".ps1", ".sh", ".zip"}
    case "styles" => {".css"}
    case "vendor" => {".js", ".md"}
    case _ => if directory in JAVASCRIPT_DIRECTORIES then {".js"} else {}
  }

  function Lower(s: string): string {
    seq(|s|, i requires 0 <= i < |s| => if 'A' <= s[i] <= 'Z' then s[i] - 'A' + 'a' else s[i])
  }

  /** From the last dot on, unless it is the first or the last character. */
  function Suffix(name: string): string {
    if exists i :: 0 < i < |name| - 1 && IsLastDot(name, i) then
      LastDotIsUnique(name);
      var i :| 0 < i < |name| - 1 && IsLastDot(name, i);
      name[i..]
    else ""
  }

  predicate IsLastDot(name: string, i: nat) {
    i < |name| && name[i] == '.' && forall j | i < j < |name| :: name[j] != '.'
  }

  lemma LastDotIsUnique(name: string)
    ensures forall i, j | IsLastDot(name, i) && IsLastDot(name, j) :: i == j
  {
  }

  /** A repository path that belongs to the reviewed static files. */
  predicate IsDeployable(p: Path) {
    && p != [] && SafePath(p) && p != [BUILD] && p != [INTEGRITY]
    && if |p| == 1 then p[0] in PUBLIC_FILES
       else p[0] in PUBLIC_DIRECTORIES && Lower(Suffix(p[|p| - 1])) in AllowedSuffixes(p[0])
  }

  /** Public directories hold nothing but deployable files. */
  predicate OnlyDeployable(tree: Stage) {
    forall p | p in tree && p != [] && p[0] in PUBLIC_DIRECTORIES :: IsDeployable(p)
  }

  function Deployed(tree: Stage): Stage { map p | p in tree && IsDeployable(p) :: tree[p] }

  /** The files of a commit that are deployed, unless a public directory holds something else. */
  method DeployableBlobs(tree: Stage) returns (r: Result<Stage>)
    ensures r.Ok? <==> OnlyDeployable(tree)
    ensures r.Ok? ==> r.value == Deployed(tree)
  {
    hide IsDeployable;
    var rest, result := tree.Keys, map[];
    while rest != {}
      invariant rest <= tree.Keys
      invariant forall p | p in tree && p !in rest && p != [] && p[0] in PUBLIC_DIRECTORIES :: IsDeployable(p)
      invariant result == map p | p in tree && p !in rest && IsDeployable(p) :: tree[p]
      decreases |rest|
    {
      var p :| p in rest;
      if p != [] && p[0] in PUBLIC_DIRECTORIES && !IsDeployable(p) { return Err("non-allowlisted path"); }
      if IsDeployable(p) { result := result[p := tree[p]]; }
      rest := rest - {p};
    }
    return Ok(result);
  }

  // ---------------------------------------------------------------- the integrity graph

  datatype Integrity = Integrity(schema: int, releaseId: string, build: string, stylesheets: seq<string>,
                                 assets: map<string, string>, buildId: string)

  /** Given functions: hashing, whether a text is a hash, the fingerprint of a graph, and the JSON text of one. */
  datatype World = World(
    hash: Bytes -> string,
    isSha: string -> bool,
    fingerprint: (string, string, seq<string>, map<string, string>) -> string,
    render: Integrity -> Bytes)

  function Url(p: Path): string
    requires p != []
  {
    "./" + Posix(p)
  }

  /** The files that the graph covers: all but the graph itself. */
  predicate IsAsset(stage: Stage, p: Path) { p in stage && p != [] && p[|p| - 1] != INTEGRITY }

  /** The graph has the hash of every covered file under its address, and nothing else. */
  ghost predicate Covers(w: World, stage: Stage, assets: map<string, string>) {
    && (forall p | IsAsset(stage, p) :: Url(p) in assets && assets[Url(p)] == w.hash(stage[p]))
    && forall u | u in assets :: exists p :: IsAsset(stage, p) && Url(p) == u
  }

  lemma UrlsDiffer(p: Path, q: Path)
    requires p != [] && q != [] && SafePath(p) && SafePath(q) && Url(p) == Url(q)
    ensures p == q
  {
    assert Url(p)[2..] == Posix(p) && Url(q)[2..] == Posix(q);
    SafeNameReadsBack(p);
    SafeNameReadsBack(q);
  }

  predicate AllAssetsSafe(stage: Stage) { forall p | p in stage && IsAsset(stage, p) :: SafePath(p) }

  /** The graph with its fingerprint. */
  function GraphOf(w: World, releaseId: string, assets: map<string, string>): Integrity {
    Integrity(3, releaseId, "./" + BUILD, ["./" + STYLES], assets,
              w.fingerprint(releaseId, "./" + BUILD, ["./" + STYLES], assets))
  }

  /** The integrity graph of a staging tree. */
  method StaticIntegrity(w: World, stage: Stage, releaseId: string) returns (r: Result<Integrity>)
    requires [] !in stage
    ensures r.Ok? <==> AllAssetsSafe(stage) && [BUILD] in stage
    ensures r.Ok? ==> Covers(w, stage, r.value.assets)
    ensures r.Ok? ==> r.value == GraphOf(w, releaseId, r.value.assets)
  {
    hide SafePath, Posix;
    var assets: map<string, string> := map[];
    var rest := stage.Keys;
    while rest != {}
      invariant rest <= stage.Keys
      invariant forall p | p in stage && p !in rest && IsAsset(stage, p) :: SafePath(p)
      invariant forall p | p in stage && p !in rest && IsAsset(stage, p) ::
        Url(p) in assets && assets[Url(p)] == w.hash(stage[p])
      invariant forall u | u in assets :: exists p :: p !in rest && IsAsset(stage, p) && Url(p) == u
      decreases |rest|
    {
      var p :| p in rest;
      var done := rest - {p};
      if p[|p| - 1] != INTEGRITY {
        if !SafePath(p) { return Err("unsafe path"); }
        forall q | q in stage && q !in rest && IsAsset(stage, q)
          ensures Url(q) != Url(p)
        {
          if Url(q) == Url(p) { UrlsDiffer(p, q); }
        }
        assets := assets[Url(p) := w.hash(stage[p])];
      }
      rest := done;
    }
    BuildIsAsset(stage, assets);
    if "./" + BUILD !in assets { return Err("no build.json"); }
    return Ok(GraphOf(w, releaseId, assets));
  }

  lemma BuildIsAsset(stage: Stage, assets: map<string, string>)
    requires AllAssetsSafe(stage)
    requires forall p | IsAsset(stage, p) :: Url(p) in assets
    requires forall u | u in assets :: exists p :: IsAsset(stage, p) && Url(p) == u
    ensures "./" + BUILD in assets <==> [BUILD] in stage
  {
    assert Posix([BUILD]) == BUILD && Url([BUILD]) == "./" + BUILD;
    if [BUILD] in stage { assert IsAsset(stage, [BUILD]); }
    if "./" + BUILD in assets {
      var p :| IsAsset(stage, p) && Url(p) == "./" + BUILD;
      BuildIsSafe();
      UrlsDiffer(p, [BUILD]);
    }
  }

  lemma BuildIsSafe()
    ensures SafePath([BUILD]) && SafePath([INTEGRITY])
  {
  }

  // -------------------------------------------------------------- the release checks

  predicate IsAscii(s: string) { forall i | 0 <= i < |s| :: s[i] as int < 128 }

  predicate EndsWith(s: string, suffix: string) { |suffix| <= |s| && s[|s| - |suffix|..] == suffix }

  predicate CoversBootstrap(assets: map<string, string>) { forall f | f in BOOTSTRAP :: "./" + f in assets }

  predicate AllAscii(assets: map<string, string>) { forall u | u in assets :: IsAscii(u) }

  predicate StylesFit(g: Integrity) {
    forall i | 0 <= i < |g.stylesheets| :: EndsWith(g.stylesheets[i], ".css") && g.stylesheets[i] in g.assets
  }

  /** `validate_console_integrity`: schema 2 is history, schema 3 must cover the whole bootstrap. */
  predicate IntegrityAccepted(w: World, g: Integrity) {
    g.schema == 2 || (
      && g.schema == 3 && CoversBootstrap(g.assets) && g.build == "./" + BUILD && AllAscii(g.assets)
      && g.stylesheets != [] && StylesFit(g)
      && g.buildId == w.fingerprint(g.releaseId, g.build, g.stylesheets, g.assets))
  }

  /** Where a path with double dots leads, unless it leaves the stage. */
  function Resolve(parts: Path): Option<Path> {
    if parts == [] then Some([])
    else
      match Resolve(parts[..|parts| - 1])
      case None => None
      case Some(p) =>
        var last := parts[|parts| - 1];
        if last != ".." then Some(p + [last]) else if p == [] then None else Some(p[..|p| - 1])
  }

  lemma {:induction false} ResolvesToItself(p: Path)
    requires ".." !in p
    ensures Resolve(p) == Some(p)
  {
    if p != [] {
      assert p == p[..|p| - 1] + [p[|p| - 1]];
      ResolvesToItself(p[..|p| - 1]);
    }
  }

  /** An address of the graph leads to a staged file with the recorded hash; one that starts at the root does not. */
  predicate UrlFits(w: World, stage: Stage, u: string, sha256: string) {
    && "./" <= u && !("./." <= u) && !(".//" <= u) && w.isSha(sha256)
    && var p := Resolve(NormalParts(u[2..])); p.Some? && p.value in stage && w.hash(stage[p.value]) == sha256
  }

  /** The part of `validate_built_evidence` that compares the graph with the staged bytes. */
  predicate AssetsAccepted(w: World, g: Integrity, releaseId: string, stage: Stage) {
    g.releaseId == releaseId && "./" + BUILD in g.assets && forall u | u in g.assets ::
      UrlFits(w, stage, u, g.assets[u])
  }

  // ----------------------------------------------------------------------- the build

  /** What the builder stages before the integrity graph: the deployable files and the build identity. */
  predicate IsStaging(source: Stage, stage: Stage) {
    && (forall p | p in stage :: p == [BUILD] || p in source)
    && (forall p | p in source :: IsDeployable(p) && p in stage) && [BUILD] in stage
  }

  lemma DeployableIsSafe(p: Path)
    requires IsDeployable(p)
    ensures p != [] && SafePath(p) && p != [BUILD] && p != [INTEGRITY] && p[0] != BUILD && p[0] != INTEGRITY
  {
    hide SafePath, Suffix, Lower, AllowedSuffixes;
    assert BUILD !in PUBLIC_FILES && BUILD !in PUBLIC_DIRECTORIES && INTEGRITY !in PUBLIC_FILES
      && INTEGRITY !in PUBLIC_DIRECTORIES;
  }

  lemma StagingIsSafe(source: Stage, stage: Stage, p: Path)
    requires IsStaging(source, stage) && p in stage
    ensures p != [] && SafePath(p) && p != [INTEGRITY] && p[0] != INTEGRITY
  {
    BuildIsSafe();
    if p != [BUILD] { DeployableIsSafe(p); }
  }

  /** The staging tree with the integrity graph is still a tree of files. */
  lemma StagingIsTree(source: Stage, stage: Stage, full: Stage)
    requires IsTree(source) && IsStaging(source, stage) && full.Keys == stage.Keys + {[INTEGRITY]}
    ensures IsTree(full) && [] !in full && forall p | p in full :: SafePath(p)
  {
    hide IsDeployable;
    BuildIsSafe();
    forall p | p in full ensures p != [] && SafePath(p) { if p != [INTEGRITY] { StagingIsSafe(source, stage, p); } }
    forall p, q | p in full && q in full ensures !(p < q) {
      if p == [BUILD] || p == [INTEGRITY] { if q != p && q in source { DeployableIsSafe(q); } }
      else if q == [BUILD] || q == [INTEGRITY] { assert p != []; }
    }
  }

  lemma AddressLeadsBack(p: Path)
    requires p != [] && SafePath(p)
    ensures "./" <= Url(p) && !("./." <= Url(p)) && !(".//" <= Url(p)) && Url(p)[2..] == Posix(p)
    ensures Resolve(NormalParts(Url(p)[2..])) == Some(p)
  {
    SafeNameReadsBack(p);
    SafeNameIsRelative(p);
    ResolvesToItself(p);
    PosixStarts(p);
    assert Url(p)[2] == Posix(p)[0] != "./."[2] && Url(p)[2] != ".//"[2];
  }

  lemma PosixStarts(p: Path)
    requires p != [] && SafePath(p)
    ensures Posix(p) != "" && Posix(p)[0] != '.' && Posix(p)[0] != '/'
  {
    assert SafeSegment(p[0]);
    assert Posix(p)[0] == p[0][0];
  }

  lemma {:induction false} SafeIsAscii(p: Path)
    requires p != [] && SafePath(p)
    ensures IsAscii(Posix(p))
  {
    assert SafeSegment(p[0]);
    if |p| > 1 { SafeIsAscii(p[1..]); }
  }

  ghost predicate HashesAreShas(w: World) { forall b :: w.isSha(w.hash(b)) }

  /** A graph made of a staging tree agrees with the staged bytes, also once it is staged itself. */
  lemma GraphAgrees(w: World, source: Stage, stage: Stage, full: Stage, assets: map<string, string>, releaseId: string)
    requires IsStaging(source, stage) && HashesAreShas(w) && Covers(w, stage, assets)
    requires full.Keys == stage.Keys + {[INTEGRITY]} && forall p | p in stage :: full[p] == stage[p]
    ensures AssetsAccepted(w, GraphOf(w, releaseId, assets), releaseId, full) && forall u | u in assets :: IsAscii(u)
  {
    hide IsDeployable, UrlFits, IsAscii, HashesAreShas, SafePath, Url, IsStaging;
    BuildIsCovered(w, source, stage, assets);
    forall u | u in assets ensures UrlFits(w, full, u, assets[u]) && IsAscii(u) {
      var p :| IsAsset(stage, p) && Url(p) == u;
      AssetAgrees(w, source, stage, full, p);
    }
  }

  lemma BuildIsCovered(w: World, source: Stage, stage: Stage, assets: map<string, string>)
    requires IsStaging(source, stage) && Covers(w, stage, assets)
    ensures "./" + BUILD in assets
  {
    hide IsDeployable;
    NamedAsset(w, stage, assets, BUILD);
  }

  lemma AssetAgrees(w: World, source: Stage, stage: Stage, full: Stage, p: Path)
    requires IsStaging(source, stage) && HashesAreShas(w) && IsAsset(stage, p)
    requires full.Keys == stage.Keys + {[INTEGRITY]} && forall q | q in stage :: full[q] == stage[q]
    ensures UrlFits(w, full, Url(p), w.hash(stage[p])) && IsAscii(Url(p))
  {
    hide IsDeployable, NormalParts, Posix, SafePath, Resolve;
    StagingIsSafe(source, stage, p);
    AddressLeadsBack(p);
    SafeIsAscii(p);
  }

  lemma NamedAsset(w: World, stage: Stage, assets: map<string, string>, name: string)
    requires [name] in stage && name != INTEGRITY && Covers(w, stage, assets)
    ensures "./" + name in assets
  {
    assert IsAsset(stage, [name]) && Posix([name]) == name && Url([name]) == "./" + name;
  }

  lemma GraphIsAccepted(w: World, source: Stage, stage: Stage, assets: map<string, string>, releaseId: string)
    requires IsStaging(source, stage) && Covers(w, stage, assets) && (forall f | f in PUBLIC_FILES :: [f] in source)
    requires forall u | u in assets :: IsAscii(u)
    ensures IntegrityAccepted(w, GraphOf(w, releaseId, assets))
  {
    hide IsDeployable, IsAscii, Covers;
    assert BOOTSTRAP <= PUBLIC_FILES + {BUILD} && STYLES in PUBLIC_FILES && INTEGRITY !in PUBLIC_FILES + {BUILD};
    forall f | f in PUBLIC_FILES + {BUILD} ensures "./" + f in assets { NamedAsset(w, stage, assets, f); }
    StylesEnd();
  }

  lemma StylesEnd()
    ensures EndsWith("./" + STYLES, ".css")
  {
  }

  predicate HasEveryDirectory(source: Stage) {
    forall d | d in PUBLIC_DIRECTORIES :: exists p :: p in source && |p| > 1 && p[0] == d
  }

  /** Every file of the build has a name that fits the archive. */
  predicate NamesFitArchive(root: string, source: Stage) {
    forall p | p in source.Keys + {[BUILD], [INTEGRITY]} :: FitsHeader(FileName(root, p))
  }

  lemma StageFits(root: string, source: Stage, full: Stage, listing: seq<Path>)
    requires full.Keys == source.Keys + {[BUILD], [INTEGRITY]} && Lists(full, listing)
    ensures AllFit(root, listing) <==> NamesFitArchive(root, source)
  {
    hide FitsHeader, FileName;
    forall p | p in full ensures exists i :: 0 <= i < |listing| && listing[i] == p {}
    forall i | 0 <= i < |listing| ensures listing[i] in full { assert listing[i] in listing; }
    if NamesFitArchive(root, source) {
      assert [BUILD] in full.Keys;
      FolderFits(root, [BUILD], 1);
      RootFolder(root, [BUILD]);
    }
  }

  lemma RootFolder(root: string, p: Path)
    requires p != []
    ensures FolderName(root, p, 1) == root
  {
    assert ([root] + p)[..1] == [root];
  }

  /** The files of a stage in some order. */
  method ListStage(stage: Stage) returns (listing: seq<Path>)
    ensures Lists(stage, listing)
  {
    listing := [];
    var rest := stage.Keys;
    while rest != {}
      invariant rest <= stage.Keys && (forall p | p in stage :: p in listing || p in rest)
      invariant forall p | p in listing :: p in stage
      decreases |rest|
    {
      var p :| p in rest;
      listing, rest := listing + [p], rest - {p};
    }
  }

  /**
   Build the Console from the files of a commit.  It fails exactly if a public
   directory holds something else, a required file or directory is missing, or a
   name is too long for the archive.
   Otherwise the separate release checks accept its integrity graph, the staged
   bytes and the archive, and the archive holds exactly the staged files.
   */
  method BuildConsoleArtifact(w: World, root: string, releaseId: string, tree: Stage, build: Bytes)
    returns (r: Result<(Stage, Integrity, seq<Member>)>)
    requires IsTree(tree) && SafeSegment(root) && HashesAreShas(w)
    ensures r.Ok? <==>
      OnlyDeployable(tree) && HasEveryFile(Deployed(tree)) && HasEveryDirectory(Deployed(tree))
      && NamesFitArchive(root, Deployed(tree))
    ensures r.Ok? ==> r.value.0 == Deployed(tree)[[BUILD] := build][[INTEGRITY] := w.render(r.value.1)]
    ensures r.Ok? ==> IntegrityAccepted(w, r.value.1) && AssetsAccepted(w, r.value.1, releaseId, r.value.0)
    ensures r.Ok? ==> ArchiveAccepted(w.hash, root, r.value.2, r.value.0) && OneMemberPerPath(r.value.2)
  {
    hide OnlyDeployable, IsDeployable, IntegrityAccepted, AssetsAccepted, ArchiveAccepted, OneMemberPerPath, Covers,
         HasEveryFile, HasEveryDirectory;
    hide IsArchive, SafePath, IsStaging, IsTree, Deployed, HashesAreShas, AllAssetsSafe, GraphOf, NamesFitArchive,
         AllFit;
    var blobs := DeployableBlobs(tree);
    if blobs.Err? { return Err(blobs.code); }
    var source := blobs.value;
    if !HasEveryFile(source) { return Err("missing files"); }
    if !HasEveryDirectory(source) { return Err("missing directories"); }
    var stage := source[[BUILD] := build];
    DeployedIsStaging(tree, build);
    StagingIsTree(source, stage, stage[[INTEGRITY] := []]);
    StagingHasSafeAssets(source, stage);
    var graph := StaticIntegrity(w, stage, releaseId);
    var g := graph.value;
    var full := stage[[INTEGRITY] := w.render(g)];
    StagingIsTree(source, stage, full);
    GraphStaged(w, source, stage, full, g, releaseId);
    var listing := ListStage(full);
    ListingIsSafe(full, listing);
    var archive := WriteDeterministicArchive(root, full, listing);
    StageFits(root, source, full, listing);
    if archive.Err? { return Err(archive.code); }
    WrittenIsAccepted(w.hash, root, full, listing, archive.value);
    return Ok((full, g, archive.value));
  }

  predicate HasEveryFile(source: Stage) { forall f | f in PUBLIC_FILES :: [f] in source }

  lemma DeployedIsStaging(tree: Stage, build: Bytes)
    requires IsTree(tree)
    ensures IsTree(Deployed(tree)) && IsStaging(Deployed(tree), Deployed(tree)[[BUILD] := build])
  {
    hide IsDeployable;
  }

  lemma StagingHasSafeAssets(source: Stage, stage: Stage)
    requires IsStaging(source, stage)
    ensures AllAssetsSafe(stage) && [BUILD] in stage && [] !in stage && [INTEGRITY] !in stage
  {
    hide IsDeployable, SafePath;
    forall p | p in stage ensures p != [] && SafePath(p) && p != [INTEGRITY] { StagingIsSafe(source, stage, p); }
  }

  lemma GraphStaged(w: World, source: Stage, stage: Stage, full: Stage, g: Integrity, releaseId: string)
    requires IsStaging(source, stage) && HashesAreShas(w) && Covers(w, stage, g.assets) && HasEveryFile(source)
    requires g == GraphOf(w, releaseId, g.assets) && [INTEGRITY] !in stage && full == stage[[INTEGRITY] := w.render(g)]
    ensures IntegrityAccepted(w, g) && AssetsAccepted(w, g, releaseId, full)
  {
    hide IntegrityAccepted, AssetsAccepted, Covers, IsStaging, HashesAreShas, GraphOf;
    GraphAgrees(w, source, stage, full, g.assets, releaseId);
    GraphIsAccepted(w, source, stage, g.assets, releaseId);
  }

  lemma ListingIsSafe(stage: Stage, listing: seq<Path>)
    requires Lists(stage, listing) && forall p | p in stage :: SafePath(p)
    ensures AllSafe(listing)
  {
    hide SafePath;
    forall i | 0 <= i < |listing| ensures SafePath(listing[i]) { assert listing[i] in listing; }
  }
}
