/**
 The release evidence chain (tools/release_chain.py:66-95, 278-340, 366-438,
 441-598, 639-819, 1373-1390): a declaration matures to source, built and published
 evidence.  Each step copies the manifest it is given and fills in fields of the copy.
 */
module ReleaseEvidence {
  import opened Common
  import opened ChecksumInventory
  import T = Text

  datatype Evidence = Evidence(state: string, reason: string, generatedAt: string)

  /** `identity` stands for everything that the declaration fixes. */
  datatype Component = Component(identity: string, sourceCommit: Option<string>, path: Option<string>,
                                 sha256: Option<string>)

  datatype PythonArtifact = PythonArtifact(filename: string, path: string, url: Option<string>, sha256: Option<string>)

  datatype PublicArtifact = PublicArtifact(url: string, sha256: Option<string>)

  datatype ReleaseAsset = ReleaseAsset(asset: Asset, url: string, sha256: Option<string>)

  datatype Manifest = Manifest(
    identity: string, epoch: Option<int>, components: map<string, Component>, python: seq<PythonArtifact>,
    integrityPath: string, integritySha256: Option<string>, publicArtifacts: seq<PublicArtifact>, releaseUrl: string,
    assets: seq<ReleaseAsset>,
    manifestDigest: Option<string>, platformDigests: map<string, Option<string>>, evidence: Evidence)

  /** Given checks: the contract, the source pins, the shape of texts, and what artifacts contain. */
  datatype World = World(
    declared: Manifest -> bool,
    pinned: Manifest -> bool,
    semantics: (Manifest, Files) -> bool,
    hash: Bytes -> string,
    render: seq<Line> -> Bytes,
    isTime: string -> bool,
    isUrl: string -> bool,
    endsIn: (string, string) -> bool,
    isSha: string -> bool,
    isDigest: string -> bool)

  const COMPONENTS: set<string> := {"framework", "daemon", "server", "console"}
  const PLATFORMS: set<string> := {"linux/amd64", "linux/arm64"}

  // --------------------------------------------------------------------- projection

  function ErasedPython(python: seq<PythonArtifact>): seq<PythonArtifact> {
    seq(|python|, i requires 0 <= i < |python| => python[i].(url := None, sha256 := None))
  }

  function ErasedPublic(artifacts: seq<PublicArtifact>): seq<PublicArtifact> {
    seq(|artifacts|, i requires 0 <= i < |artifacts| => artifacts[i].(sha256 := None))
  }

  function ErasedAssets(assets: seq<ReleaseAsset>): seq<ReleaseAsset> {
    seq(|assets|, i requires 0 <= i < |assets| => assets[i].(sha256 := None))
  }

  function ErasedComponents(components: map<string, Component>): map<string, Component> {
    map name | name in components :: components[name].(sourceCommit := None, path := None, sha256 := None)
  }

  /** The manifest without its evidence. */
  function Projection(m: Manifest, declaration: Manifest): Manifest {
    m.(epoch := None, components := ErasedComponents(m.components), python := ErasedPython(m.python),
       integritySha256 := None,
       publicArtifacts := ErasedPublic(m.publicArtifacts), assets := ErasedAssets(m.assets), manifestDigest := None,
       platformDigests := (map p | p in m.platformDigests :: None), evidence := declaration.evidence)
  }

  predicate Projects(m: Manifest, declaration: Manifest) { Projection(m, declaration) == declaration }

  /** `_require_evidence_stage`: a later state proves an earlier stage too. */
  predicate Proves(m: Manifest, stage: string) {
    match stage
    case "source" => m.evidence.state in {"source", "built", "published"}
    case "built" => m.evidence.state in {"built", "published"}
    case "published" => m.evidence.state == "published"
    case _ => false
  }

  /** The hash of the file that a path leads to. */
  function ShaOf(w: World, files: Files, path: string): Option<string> {
    if IsFile(files, path) then Some(w.hash(files[Real(files, path).value].data)) else None
  }

  /** The last part of a path. */
  function BaseName(path: string): string {
    var parts := T.Split(path, '/');
    parts[|parts| - 1]
  }

  /** The path leads to a file of this name. */
  predicate LeadsTo(files: Files, path: string, name: string) {
    IsFile(files, path) && BaseName(Real(files, path).value) == name
  }

  // ----------------------------------------------------------------------- source

  function Committed(components: map<string, Component>, resolve: string -> Option<string>): map<string, Component> {
    map name | name in components :: components[name].(sourceCommit := resolve(name))
  }

  predicate AllResolve(components: map<string, Component>, resolve: string -> Option<string>) {
    forall name | name in components :: resolve(name).Some?
  }

  /** What the source step makes of a declaration. */
  function SourceOf(declaration: Manifest, resolve: string -> Option<string>, epoch: int, at: string): Manifest {
    declaration.(components := Committed(declaration.components, resolve), epoch := Some(epoch),
                 evidence := Evidence("source", "release_source_verified", at))
  }

  method FillCommits(components: map<string, Component>, resolve: string -> Option<string>)
    returns (ok: bool, filled: map<string, Component>)
    ensures ok <==> AllResolve(components, resolve)
    ensures ok ==> filled == Committed(components, resolve)
  {
    filled := components;
    var rest := components.Keys;
    while rest != {}
      invariant rest <= components.Keys && filled.Keys == components.Keys
      invariant forall name | name in components && name !in rest ::
                  resolve(name).Some? && filled[name] == components[name].(sourceCommit := resolve(name))
      invariant forall name | name in rest :: filled[name] == components[name]
      decreases |rest|
    {
      var name :| name in rest;
      if resolve(name).None? { return false, filled; }
      filled := filled[name := filled[name].(sourceCommit := resolve(name))];
      rest := rest - {name};
    }
    return true, filled;
  }

  predicate SourceAccepted(w: World, declaration: Manifest, m: Manifest) {
    w.declared(m) && Projects(m, declaration) && w.pinned(m)
  }

  /** Fill in the commits that the source references resolve to, and the source epoch. */
  method MaterializeSource(w: World, declaration: Manifest, resolve: string -> Option<string>, epoch: int, at: string)
    returns (r: Result<Manifest>)
    ensures r.Ok? <==> w.isTime(at) && AllResolve(declaration.components, resolve) && epoch > 0
                       && SourceAccepted(w, declaration, SourceOf(declaration, resolve, epoch, at))
    ensures r.Ok? ==> r.value == SourceOf(declaration, resolve, epoch, at)
  {
    hide SourceAccepted, Committed, AllResolve;
    if !w.isTime(at) { return Err("observed_at"); }
    var evidence := declaration;
    var ok, components := FillCommits(evidence.components, resolve);
    if !ok { return Err("git"); }
    evidence := evidence.(components := components);
    if epoch <= 0 { return Err("epoch"); }
    evidence := evidence.(epoch := Some(epoch));
    evidence := evidence.(evidence := Evidence("source", "release_source_verified", at));
    if !SourceAccepted(w, declaration, evidence) { return Err("declaration"); }
    return Ok(evidence);
  }

  /** Source evidence projects to its declaration exactly if the declaration holds no evidence itself. */
  lemma SourceProjects(declaration: Manifest, resolve: string -> Option<string>, epoch: int, at: string)
    ensures Projects(SourceOf(declaration, resolve, epoch, at), declaration) <==> Projects(declaration, declaration)
  {
    var m := SourceOf(declaration, resolve, epoch, at);
    assert ErasedComponents(m.components) == ErasedComponents(declaration.components);
  }

  // ------------------------------------------------------------------------- built

  function Staged(w: World, files: Files, components: map<string, Component>,
                  paths: map<string, string>): map<string, Component> {
    map name | name in components ::
      if name in paths then StagedOne(w, files, components[name], paths[name]) else components[name]
  }

  function HashedPython(w: World, files: Files, python: seq<PythonArtifact>): seq<PythonArtifact> {
    seq(|python|, i requires 0 <= i < |python| => python[i].(sha256 := ShaOf(w, files, python[i].path)))
  }

  /** Every artifact leads to a file. */
  predicate ArtifactsExist(m: Manifest, paths: map<string, string>, files: Files) {
    && (forall name | name in paths :: IsFile(files, paths[name]))
    && (forall i | 0 <= i < |m.python| :: IsFile(files, m.python[i].path)) && IsFile(files, m.integrityPath)
  }

  /** What the built step makes of source evidence. */
  function BuiltOf(w: World, m: Manifest, paths: map<string, string>, files: Files, at: string): Manifest {
    m.(components := Staged(w, files, m.components, paths), python := HashedPython(w, files, m.python),
       integritySha256 := ShaOf(w, files, m.integrityPath), evidence := Evidence("built", "release_built", at))
  }

  /** The hashes in the manifest are those of the bytes that are there. */
  predicate HashesMatch(w: World, m: Manifest, files: Files) {
    && (forall name | name in m.components :: ComponentMatches(w, m.components[name], files))
    && m.python != [] && (forall i | 0 <= i < |m.python| :: PythonMatches(w, m.python[i], files))
    && m.integritySha256.Some? && ShaOf(w, files, m.integrityPath) == m.integritySha256
  }

  predicate BuiltMatches(w: World, m: Manifest, files: Files) { HashesMatch(w, m, files) && w.semantics(m, files) }

  /** The path of a staged artifact is where it leads. */
  function StagedOne(w: World, files: Files, c: Component, path: string): Component {
    c.(path := Real(files, path), sha256 := ShaOf(w, files, path))
  }

  predicate ComponentMatches(w: World, c: Component, files: Files) {
    c.path.Some? && c.sha256.Some? && ShaOf(w, files, c.path.value) == c.sha256
  }

  predicate PythonMatches(w: World, a: PythonArtifact, files: Files) {
    a.sha256.Some? && ShaOf(w, files, a.path) == a.sha256 && LeadsTo(files, a.path, a.filename)
  }

  method StageComponents(w: World, components: map<string, Component>, paths: map<string, string>, files: Files)
    returns (ok: bool, staged: map<string, Component>)
    requires paths.Keys == components.Keys
    ensures ok <==> forall name | name in paths :: IsFile(files, paths[name])
    ensures ok ==> staged == Staged(w, files, components, paths)
  {
    hide StagedOne, IsFile, StagedSoFar, Staged;
    NothingStaged(w, files, components, paths);
    staged := components;
    var rest := paths.Keys;
    while rest != {}
      invariant rest <= paths.Keys && staged.Keys == components.Keys
      invariant forall name | name in paths && name !in rest :: IsFile(files, paths[name])
      invariant StagedSoFar(w, files, components, paths, staged, rest)
      decreases |rest|
    {
      var name :| name in rest;
      if !IsFile(files, paths[name]) { return false, staged; }
      OneMoreStaged(w, files, components, paths, staged, rest, name);
      staged := staged[name := StagedOne(w, files, staged[name], paths[name])];
      rest := rest - {name};
    }
    AllStaged(w, files, components, paths, staged);
    return true, staged;
  }

  /** All components but the rest are staged. */
  predicate StagedSoFar(w: World, files: Files, components: map<string, Component>, paths: map<string, string>,
                        staged: map<string, Component>, rest: set<string>)
    requires paths.Keys == components.Keys == staged.Keys
  {
    forall name | name in components :: staged[name] == if name in rest then components[name]
    else StagedOne(w, files, components[name], paths[name])
  }

  lemma NothingStaged(w: World, files: Files, components: map<string, Component>, paths: map<string, string>)
    requires paths.Keys == components.Keys
    ensures StagedSoFar(w, files, components, paths, components, paths.Keys)
  {
  }

  lemma OneMoreStaged(w: World, files: Files, components: map<string, Component>, paths: map<string, string>,
                      staged: map<string, Component>,
                      rest: set<string>, name: string)
    requires paths.Keys == components.Keys == staged.Keys && StagedSoFar(w, files, components, paths, staged, rest)
    requires name in rest && name in components
    ensures StagedSoFar(w, files, components, paths, staged[name := StagedOne(w, files, staged[name], paths[name])],
                        rest - {name})
  {
    hide StagedOne;
  }

  lemma AllStaged(w: World, files: Files, components: map<string, Component>, paths: map<string, string>,
                  staged: map<string, Component>)
    requires paths.Keys == components.Keys == staged.Keys && StagedSoFar(w, files, components, paths, staged, {})
    ensures staged == Staged(w, files, components, paths)
  {
    hide StagedOne;
  }

  method HashPython(w: World, python: seq<PythonArtifact>, files: Files) returns (ok: bool, hashed: seq<PythonArtifact>)
    ensures ok <==> forall i | 0 <= i < |python| :: IsFile(files, python[i].path)
    ensures ok ==> hashed == HashedPython(w, files, python)
  {
    hashed := python;
    for i := 0 to |python|
      invariant |hashed| == |python| && forall j | 0 <= j < i :: IsFile(files, python[j].path)
      invariant forall j | 0 <= j < |python| ::
        hashed[j] == if j < i then python[j].(sha256 := ShaOf(w, files, python[j].path)) else python[j]
    {
      if !IsFile(files, python[i].path) { return false, hashed; }
      hashed := hashed[i := hashed[i].(sha256 := ShaOf(w, files, hashed[i].path))];
    }
    return true, hashed;
  }

  predicate BuiltAccepted(w: World, declaration: Manifest, m: Manifest, files: Files) {
    w.declared(m) && Projects(m, declaration) && BuiltMatches(w, m, files)
  }

  /** When staged bytes can be bound to a manifest. */
  predicate Buildable(w: World, declaration: Manifest, m: Manifest, paths: map<string, string>, files: Files,
                      at: string) {
    && paths.Keys == COMPONENTS && w.isTime(at) && SourceAccepted(w, declaration, m) && Proves(m, "source")
    && ArtifactsExist(m, paths, files) && BuiltAccepted(w, declaration, BuiltOf(w, m, paths, files, at), files)
  }

  /** Bind the staged bytes of components, Python artifacts and the Console to source evidence. */
  method MaterializeBuilt(w: World, declaration: Manifest, m: Manifest, paths: map<string, string>, files: Files,
                          at: string) returns (r: Result<Manifest>)
    requires m.components.Keys == COMPONENTS
    ensures r.Ok? <==> Buildable(w, declaration, m, paths, files, at)
    ensures r.Ok? ==> r.value == BuiltOf(w, m, paths, files, at)
  {
    hide SourceAccepted, BuiltAccepted, Proves, Staged, HashedPython, IsFile, ShaOf;
    if paths.Keys != COMPONENTS { return Err("components"); }
    if !w.isTime(at) { return Err("observed_at"); }
    if !SourceAccepted(w, declaration, m) { return Err("source evidence"); }
    if !Proves(m, "source") { return Err("stage"); }
    var evidence := m;
    var ok, components := StageComponents(w, evidence.components, paths, files);
    if !ok { return Err("missing artifact"); }
    evidence := evidence.(components := components);
    var python;
    ok, python := HashPython(w, evidence.python, files);
    if !ok { return Err("missing Python artifact"); }
    evidence := evidence.(python := python);
    if !IsFile(files, evidence.integrityPath) { return Err("missing Console integrity"); }
    evidence := evidence.(integritySha256 := ShaOf(w, files, evidence.integrityPath));
    evidence := evidence.(evidence := Evidence("built", "release_built", at));
    if !BuiltAccepted(w, declaration, evidence, files) { return Err("built evidence"); }
    return Ok(evidence);
  }

  // --------------------------------------------------------------------- published

  /** What a publication supplies. */
  datatype Publication = Publication(
    pypi: map<string, (string, string)>,               // url and hash by file name
    assetPaths: map<string, string>,                   // by asset name
    publicHashes: map<string, string>,                 // by url
    manifestDigest: string,
    platformDigests: map<string, string>)

  predicate PythonFits(w: World, a: PythonArtifact, supplied: map<string, (string, string)>) {
    && a.filename in supplied && w.isUrl(supplied[a.filename].0) && w.endsIn(supplied[a.filename].0, a.filename)
    && w.isSha(supplied[a.filename].1) && a.sha256 == Some(supplied[a.filename].1)
  }

  /** The first `n` Python artifacts have names, addresses and bytes of their own, as supplied. */
  predicate PythonSoFar(w: World, python: seq<PythonArtifact>, supplied: map<string, (string, string)>, n: nat)
    requires n <= |python|
  {
    && (forall i | 0 <= i < n :: PythonFits(w, python[i], supplied))
    && (forall i, j | 0 <= i < j < n :: python[i].filename != python[j].filename)
    && (forall i, j | 0 <= i < j < n :: supplied[python[i].filename].0 != supplied[python[j].filename].0)
  }

  /** Every declared Python artifact is published once, at its own address, with the bytes that were built. */
  predicate PythonPublishable(w: World, python: seq<PythonArtifact>, supplied: map<string, (string, string)>) {
    python != [] && supplied.Keys == FileNames(python, |python|) && PythonSoFar(w, python, supplied, |python|)
  }

  function FileNames(python: seq<PythonArtifact>, n: nat): set<string>
    requires n <= |python|
  {
    set i | 0 <= i < n :: python[i].filename
  }

  function Urls(python: seq<PythonArtifact>, supplied: map<string, (string, string)>, n: nat): set<string>
    requires n <= |python|
  {
    set i | 0 <= i < n && python[i].filename in supplied :: supplied[python[i].filename].0
  }

  function WithUrls(python: seq<PythonArtifact>, supplied: map<string, (string, string)>): seq<PythonArtifact> {
    seq(|python|, i requires 0 <= i < |python| => WithUrl(python[i], supplied))
  }

  function WithUrl(a: PythonArtifact, supplied: map<string, (string, string)>): PythonArtifact {
    if a.filename in supplied then a.(url := Some(supplied[a.filename].0)) else a
  }

  method PublishPython(w: World, python: seq<PythonArtifact>, supplied: map<string, (string, string)>)
    returns (ok: bool, published: seq<PythonArtifact>)
    ensures ok <==> PythonPublishable(w, python, supplied)
    ensures ok ==> published == WithUrls(python, supplied)
  {
    hide PythonSoFar, PythonFits, Urls, FileNames, WithUrl;
    published := python;
    if python == [] || supplied.Keys != FileNames(python, |python|) { return false, published; }
    var names: set<string>, urls: set<string> := {}, {};
    NoPythonYet(w, python, supplied);
    for i := 0 to |python|
      invariant PythonSoFar(w, python, supplied, i)
      invariant names == FileNames(python, i) && urls == Urls(python, supplied, i)
      invariant |published| == |python|
      invariant forall a | 0 <= a < |python| :: published[a] == if a < i then WithUrl(python[a], supplied)
      else python[a]
    {
      OneMorePython(w, python, supplied, i);
      if python[i].filename in names || !PythonFits(w, python[i], supplied) || supplied[python[i].filename].0 in urls {
        NotThisFar(w, python, supplied, i + 1);
        return false, published;
      }
      names := names + {python[i].filename};
      urls := urls + {supplied[python[i].filename].0};
      published := published[i := WithUrl(published[i], supplied)];
    }
    return true, published;
  }

  lemma NoPythonYet(w: World, python: seq<PythonArtifact>, supplied: map<string, (string, string)>)
    ensures PythonSoFar(w, python, supplied, 0) && FileNames(python, 0) == {} && Urls(python, supplied, 0) == {}
  {
  }

  lemma OneMorePython(w: World, python: seq<PythonArtifact>, supplied: map<string, (string, string)>, i: nat)
    requires i < |python| && PythonSoFar(w, python, supplied, i)
    ensures PythonFits(w, python[i], supplied) ==> python[i].filename in supplied
    ensures FileNames(python, i + 1) == FileNames(python, i) + {python[i].filename}
    ensures python[i].filename in supplied ==>
      Urls(python, supplied, i + 1) == Urls(python, supplied, i) + {supplied[python[i].filename].0}
    ensures PythonSoFar(w, python, supplied, i + 1) <==>
      python[i].filename !in FileNames(python, i) && PythonFits(w, python[i], supplied)
      && supplied[python[i].filename].0 !in Urls(python, supplied, i)
  {
    hide PythonFits, PythonSoFar, FileNames, Urls;
    if PythonFits(w, python[i], supplied) { NameFits(w, python[i], supplied); }
    AllSupplied(w, python, supplied, i);
    NewNames(python, supplied, i);
    SoFarGrows(w, python, supplied, i);
  }

  lemma SoFarGrows(w: World, python: seq<PythonArtifact>, supplied: map<string, (string, string)>, i: nat)
    requires i < |python| && PythonSoFar(w, python, supplied, i)
    requires forall j | 0 <= j < i :: python[j].filename in supplied
    ensures PythonSoFar(w, python, supplied, i + 1) <==>
      && PythonFits(w, python[i], supplied) && python[i].filename in supplied
      && !(exists j :: 0 <= j < i && python[j].filename == python[i].filename)
      && !(exists j :: 0 <= j < i && supplied[python[j].filename].0 == supplied[python[i].filename].0)
  {
    if PythonFits(w, python[i], supplied) { NameFits(w, python[i], supplied); }
    hide PythonFits;
  }

  lemma NewNames(python: seq<PythonArtifact>, supplied: map<string, (string, string)>, i: nat)
    requires i < |python| && forall j | 0 <= j < i :: python[j].filename in supplied
    ensures python[i].filename in FileNames(python, i) <==>
      exists j :: 0 <= j < i && python[j].filename == python[i].filename
    ensures python[i].filename in supplied ==>
      (supplied[python[i].filename].0 in Urls(python, supplied, i) <==>
       exists j :: 0 <= j < i && supplied[python[j].filename].0 == supplied[python[i].filename].0)
    ensures FileNames(python, i + 1) == FileNames(python, i) + {python[i].filename}
    ensures python[i].filename in supplied ==>
      Urls(python, supplied, i + 1) == Urls(python, supplied, i) + {supplied[python[i].filename].0}
  {
  }

  lemma NameFits(w: World, a: PythonArtifact, supplied: map<string, (string, string)>)
    requires PythonFits(w, a, supplied)
    ensures a.filename in supplied
  {
  }

  lemma AllSupplied(w: World, python: seq<PythonArtifact>, supplied: map<string, (string, string)>, i: nat)
    requires i <= |python| && PythonSoFar(w, python, supplied, i)
    ensures forall j | 0 <= j < i :: python[j].filename in supplied
    ensures forall j | 0 <= j < i ::
      python[j].filename in FileNames(python, i) && supplied[python[j].filename].0 in Urls(python, supplied, i)
  {
    forall j | 0 <= j < i ensures python[j].filename in supplied { NameFits(w, python[j], supplied); }
  }

  lemma NotThisFar(w: World, python: seq<PythonArtifact>, supplied: map<string, (string, string)>, n: nat)
    requires n <= |python| && !PythonSoFar(w, python, supplied, n)
    ensures !PythonSoFar(w, python, supplied, |python|)
  {
  }

  /** The assets as the inventory sees them. */
  function AssetsOf(assets: seq<ReleaseAsset>): (r: seq<Asset>)
    ensures |r| == |assets| && forall i | 0 <= i < |r| :: r[i] == assets[i].asset
  {
    seq(|assets|, i requires 0 <= i < |assets| => assets[i].asset)
  }

  /** Every declared asset is supplied once, by a path that leads where its declared path does, to its own name. */
  predicate AssetsPublishable(assets: seq<ReleaseAsset>, supplied: map<string, string>, files: Files) {
    && assets != [] && (forall i, j | 0 <= i < j < |assets| :: assets[i].asset.name != assets[j].asset.name)
    && supplied.Keys == (set i | 0 <= i < |assets| :: assets[i].asset.name)
    && forall i | 0 <= i < |assets| :: AssetSupplied(assets[i].asset, supplied, files)
  }

  predicate AssetSupplied(a: Asset, supplied: map<string, string>, files: Files) {
    && a.name in supplied && Real(files, a.path).Some? && Real(files, supplied[a.name]) == Real(files, a.path)
    && BaseName(Real(files, a.path).value) == a.name
  }

  function HashedAssets(w: World, assets: seq<ReleaseAsset>, files: Files): seq<ReleaseAsset> {
    seq(|assets|, i requires 0 <= i < |assets| => assets[i].(sha256 := ShaOf(w, files, assets[i].asset.path)))
  }

  /** Hash the supplied files. */
  method HashAssets(w: World, assets: seq<ReleaseAsset>, supplied: map<string, string>, files: Files)
    returns (ok: bool, hashed: seq<ReleaseAsset>)
    requires forall i | 0 <= i < |assets| :: AssetSupplied(assets[i].asset, supplied, files)
    ensures ok <==> forall i | 0 <= i < |assets| :: IsFile(files, assets[i].asset.path)
    ensures ok ==> hashed == HashedAssets(w, assets, files)
  {
    hashed := assets;
    for i := 0 to |assets|
      invariant |hashed| == |assets| && forall j | 0 <= j < i :: IsFile(files, assets[j].asset.path)
      invariant forall j | 0 <= j < |assets| ::
        hashed[j] == if j < i then assets[j].(sha256 := ShaOf(w, files, assets[j].asset.path)) else assets[j]
    {
      var path := supplied[assets[i].asset.name];
      if !IsFile(files, path) { return false, hashed; }
      hashed := hashed[i := hashed[i].(sha256 := ShaOf(w, files, path))];
    }
    return true, hashed;
  }

  predicate PublicPublishable(w: World, artifacts: seq<PublicArtifact>, hashes: map<string, string>) {
    && artifacts != [] && (forall i, j | 0 <= i < j < |artifacts| :: artifacts[i].url != artifacts[j].url)
    && hashes.Keys == (set i | 0 <= i < |artifacts| :: artifacts[i].url)
    && forall u | u in hashes :: w.isSha(hashes[u])
  }

  function WithPublicHashes(artifacts: seq<PublicArtifact>, hashes: map<string, string>): seq<PublicArtifact> {
    seq(|artifacts|, i requires 0 <= i < |artifacts| =>
      if artifacts[i].url in hashes then artifacts[i].(sha256 := Some(hashes[artifacts[i].url])) else artifacts[i])
  }

  predicate DigestsPublishable(w: World, p: Publication) {
    && w.isDigest(p.manifestDigest) && p.platformDigests.Keys == PLATFORMS
    && (forall k | k in p.platformDigests :: w.isDigest(p.platformDigests[k]))
    && forall j, k | j in p.platformDigests && k in p.platformDigests && j != k ::
         p.platformDigests[j] != p.platformDigests[k]
  }

  predicate PublicationFits(w: World, m: Manifest, p: Publication, files: Files) {
    && PythonPublishable(w, m.python, p.pypi) && AssetsPublishable(m.assets, p.assetPaths, files)
    && PublicPublishable(w, m.publicArtifacts, p.publicHashes) && DigestsPublishable(w, p)
  }

  /** The manifest of a publication, before its files are hashed. */
  function BoundTo(m: Manifest, p: Publication, at: string): Manifest {
    m.(python := WithUrls(m.python, p.pypi), publicArtifacts := WithPublicHashes(m.publicArtifacts, p.publicHashes),
       manifestDigest := Some(p.manifestDigest),
       platformDigests := (map k | k in p.platformDigests :: Some(p.platformDigests[k])),
       evidence := Evidence("published", "release_published", at))
  }

  /** The manifest that a publication leaves behind. */
  function PublishedOf(w: World, m: Manifest, p: Publication, files: Files, at: string): Manifest {
    BoundTo(m, p, at).(assets := HashedAssets(w, m.assets, files))
  }

  predicate PythonPublished(w: World, python: seq<PythonArtifact>) {
    && (forall i | 0 <= i < |python| ::
          python[i].url.Some? && python[i].sha256.Some? && w.isUrl(python[i].url.value)
          && w.endsIn(python[i].url.value, python[i].filename))
    && forall i, j | 0 <= i < j < |python| :: python[i].filename != python[j].filename && python[i].url != python[j].url
  }

  predicate AssetsPublished(w: World, assets: seq<ReleaseAsset>, files: Files) {
    && assets != [] && (forall i, j | 0 <= i < j < |assets| :: assets[i].asset.name != assets[j].asset.name)
    && forall i | 0 <= i < |assets| ::
         && LeadsTo(files, assets[i].asset.path, assets[i].asset.name) && assets[i].sha256.Some?
         && ShaOf(w, files, assets[i].asset.path) == assets[i].sha256
  }

  /** The addresses that the declaration gives: of the release, of its assets, and of public artifacts. */
  predicate AddressesFit(w: World, m: Manifest) {
    && w.isUrl(m.releaseUrl)
    && (forall i | 0 <= i < |m.assets| :: w.isUrl(m.assets[i].url) && w.endsIn(m.assets[i].url, m.assets[i].asset.name))
    && (forall i, j | 0 <= i < j < |m.assets| :: m.assets[i].url != m.assets[j].url)
    && forall i | 0 <= i < |m.publicArtifacts| :: w.isUrl(m.publicArtifacts[i].url)
  }

  predicate DigestsPublished(w: World, m: Manifest) {
    && m.manifestDigest.Some? && w.isDigest(m.manifestDigest.value) && m.platformDigests.Keys == PLATFORMS
    && (forall k | k in m.platformDigests :: m.platformDigests[k].Some? && w.isDigest(m.platformDigests[k].value))
    && forall j, k | j in m.platformDigests && k in m.platformDigests && j != k ::
         m.platformDigests[j] != m.platformDigests[k]
  }

  /** The released bytes are those that the manifest says, and so are the built ones. */
  predicate PublishedMatches(w: World, m: Manifest, files: Files) {
    && Proves(m, "published") && BuiltMatches(w, m, files) && PythonPublished(w, m.python)
    && AssetsPublished(w, m.assets, files)
    && AddressesFit(w, m) && DigestsPublished(w, m)
    && PublicPublished(w, m.publicArtifacts)
  }

  predicate PublicPublished(w: World, artifacts: seq<PublicArtifact>) {
    forall i | 0 <= i < |artifacts| :: artifacts[i].sha256.Some? && w.isSha(artifacts[i].sha256.value)
  }

  predicate PublishedAccepted(w: World, declaration: Manifest, m: Manifest, files: Files) {
    w.declared(m) && Projects(m, declaration) && PublishedMatches(w, m, files)
  }

  /** What is asked of evidence and publication before any file is written. */
  predicate Publishable(w: World, declaration: Manifest, m: Manifest, p: Publication, listing: seq<string>,
                        files: Files, at: string) {
    && w.isTime(at) && BuiltAccepted(w, declaration, m, files) && Proves(m, "built") && w.pinned(m)
    && PublicationFits(w, m, p, files) && CanInventory(AssetsOf(m.assets), listing, files)
  }

  /** Bind what a publication supplies, if it fits what was built. */
  method BindPublication(w: World, m: Manifest, p: Publication, files: Files, at: string)
    returns (ok: bool, evidence: Manifest)
    ensures ok <==> PublicationFits(w, m, p, files)
    ensures ok ==> evidence == BoundTo(m, p, at)
  {
    hide PythonPublishable, AssetsPublishable, PublicPublishable, DigestsPublishable, WithUrls, WithPublicHashes;
    evidence := m;
    var python;
    ok, python := PublishPython(w, evidence.python, p.pypi);
    if !ok || !AssetsPublishable(evidence.assets, p.assetPaths, files) { return false, evidence; }
    evidence := evidence.(python := python);
    if !PublicPublishable(w, evidence.publicArtifacts, p.publicHashes) { return false, evidence; }
    evidence := evidence.(publicArtifacts := WithPublicHashes(evidence.publicArtifacts, p.publicHashes));
    if !DigestsPublishable(w, p) { return false, evidence; }
    evidence := evidence.(manifestDigest := Some(p.manifestDigest));
    evidence := evidence.(platformDigests := (map k | k in p.platformDigests :: Some(p.platformDigests[k])));
    evidence := evidence.(evidence := Evidence("published", "release_published", at));
  }

  /**
   Bind a publication to built evidence: check what is supplied against what was
   built, rebuild the checksum inventory, and hash the released files.  The
   inventory is written before the last checks, and stays if they fail.
   */
  method MaterializePublished(w: World, declaration: Manifest, m: Manifest, p: Publication, listing: seq<string>,
                              files: Files, at: string)
    returns (r: Result<Manifest>, files': Files, lines: seq<Line>, inventory: string)
    ensures Publishable(w, declaration, m, p, listing, files, at) ==>
      Inventoried(w.hash, w.render, AssetsOf(m.assets), listing, files, files', lines, inventory)
    ensures !Publishable(w, declaration, m, p, listing, files, at) ==> files' == files
    ensures r.Ok? <==>
      Publishable(w, declaration, m, p, listing, files, at)
      && PublishedAccepted(w, declaration, PublishedOf(w, m, p, files', at), files')
    ensures r.Ok? ==> r.value == PublishedOf(w, m, p, files', at)
  {
    hide BuiltAccepted, PublishedAccepted, PublicationFits, CanInventory, Inventoried, HashedAssets, WithUrls,
         WithPublicHashes, Proves,
         IsFile, AssetSupplied, LeadsTo;
    files', lines, inventory := files, [], "";
    if !w.isTime(at) || !BuiltAccepted(w, declaration, m, files) || !Proves(m, "built") || !w.pinned(m) {
      return Err("built evidence"), files', lines, inventory;
    }
    var ok, evidence := BindPublication(w, m, p, files, at);
    if !ok { return Err("publication"), files', lines, inventory; }
    var rebuilt;
    rebuilt, lines, inventory := RebuildInventory(w.hash, w.render, AssetsOf(evidence.assets), listing, files);
    if rebuilt.Err? { return Err(rebuilt.code), files', lines, inventory; }
    files' := rebuilt.value;
    AssetsAreThere(w, m, p, listing, files, files', lines, inventory);
    var assets;
    ok, assets := HashAssets(w, evidence.assets, p.assetPaths, files');
    if !ok { return Err("missing asset"), files', lines, inventory; }
    evidence := evidence.(assets := assets);
    if !PublishedAccepted(w, declaration, evidence, files') {
      return Err("published evidence"), files', lines, inventory;
    }
    return Ok(evidence), files', lines, inventory;
  }

  /** Once the inventory is rebuilt, every asset is there, where it was supplied. */
  lemma AssetsAreThere(w: World, m: Manifest, p: Publication, listing: seq<string>, files: Files, files': Files,
                       lines: seq<Line>, inventory: string)
    requires PublicationFits(w, m, p, files) && CanInventory(AssetsOf(m.assets), listing, files)
    requires Inventoried(w.hash, w.render, AssetsOf(m.assets), listing, files, files', lines, inventory)
    ensures forall i | 0 <= i < |m.assets| :: IsFile(files', m.assets[i].asset.path)
    ensures forall i | 0 <= i < |m.assets| ::
      AssetSupplied(m.assets[i].asset, p.assetPaths, files')
      && LeadsTo(files', m.assets[i].asset.path, m.assets[i].asset.name)
  {
    hide IsInventory, Covered, Real, BaseName, PythonPublishable, PublicPublishable, DigestsPublishable;
    var assets := AssetsOf(m.assets);
    var k :| 0 <= k < |assets| && IsOnlyInventory(assets, k) && Real(files, assets[k].path) == Some(inventory);
    forall i | 0 <= i < |assets|
      ensures AssetSupplied(assets[i], p.assetPaths, files') && LeadsTo(files', assets[i].path, assets[i].name)
    {
      assert AssetSupplied(m.assets[i].asset, p.assetPaths, files);
      RebuildKeepsFiles(w.hash, w.render, assets, listing, files, files', lines, inventory, assets[i].path);
      RebuildKeepsFiles(w.hash, w.render, assets, listing, files, files', lines, inventory,
                        p.assetPaths[assets[i].name]);
    }
  }

  /** The places of the built artifacts. */
  function BuiltPlaces(m: Manifest, files: Files): set<Option<string>> {
    (set name | name in m.components && m.components[name].path.Some? :: Real(files, m.components[name].path.value))
    + (set i | 0 <= i < |m.python| :: Real(files, m.python[i].path)) + {Real(files, m.integrityPath)}
  }

  /** The inventory takes the place of no built artifact, unless with bytes of the same hash. */
  predicate SparesBuilt(w: World, m: Manifest, files: Files, files': Files, inventory: string) {
    Some(inventory) in BuiltPlaces(m, files) ==> ShaOf(w, files', inventory) == ShaOf(w, files, inventory)
  }

  lemma ShaAfterwards(w: World, assets: seq<Asset>, listing: seq<string>, files: Files, files': Files, lines: seq<Line>,
                      inventory: string, path: string)
    requires Inventoried(w.hash, w.render, assets, listing, files, files', lines, inventory) && IsFile(files, path)
    ensures Real(files', path) == Real(files, path) && IsFile(files', path)
    ensures ShaOf(w, files', path) == ShaOf(w, files, path) <==>
            (Real(files, path) == Some(inventory) ==> ShaOf(w, files', inventory) == ShaOf(w, files, inventory))
  {
    RebuildKeepsFiles(w.hash, w.render, assets, listing, files, files', lines, inventory, path);
    RebuildKeepsFiles(w.hash, w.render, assets, listing, files, files', lines, inventory, inventory);
    RealIsNoLink(files, path, {});
    RealIsNoLink(files, inventory, {});
    hide Inventoried, Real;
  }

  /** The rebuild of the inventory leaves the built hashes right exactly if it spares the built artifacts. */
  lemma HashesAfterwards(w: World, m: Manifest, assets: seq<Asset>, listing: seq<string>, files: Files, files': Files,
                         lines: seq<Line>, inventory: string)
    requires Inventoried(w.hash, w.render, assets, listing, files, files', lines, inventory) && HashesMatch(w, m, files)
    ensures HashesMatch(w, m, files') <==> SparesBuilt(w, m, files, files', inventory)
  {
    hide Inventoried, Real, BaseName;
    forall name | name in m.components
      ensures ComponentMatches(w, m.components[name], files') <==>
              (Real(files, m.components[name].path.value) == Some(inventory) ==>
               ShaOf(w, files', inventory) == ShaOf(w, files, inventory))
    {
      assert ComponentMatches(w, m.components[name], files);
      ShaAfterwards(w, assets, listing, files, files', lines, inventory, m.components[name].path.value);
    }
    forall i | 0 <= i < |m.python|
      ensures PythonMatches(w, m.python[i], files') <==>
              (Real(files, m.python[i].path) == Some(inventory) ==>
               ShaOf(w, files', inventory) == ShaOf(w, files, inventory))
    {
      assert PythonMatches(w, m.python[i], files);
      ShaAfterwards(w, assets, listing, files, files', lines, inventory, m.python[i].path);
    }
    ShaAfterwards(w, assets, listing, files, files', lines, inventory, m.integrityPath);
  }

  // ------------------------------------------------------------ what each step keeps

  /** The same commits and epoch. */
  predicate SameSource(m: Manifest, n: Manifest) {
    && n.epoch == m.epoch && n.components.Keys == m.components.Keys
    && forall name | name in m.components :: n.components[name].sourceCommit == m.components[name].sourceCommit
  }

  /** The same commits, epoch, and hashes of components, Python artifacts and Console. */
  predicate SameBuilt(m: Manifest, n: Manifest) {
    && SameSource(m, n) && n.integritySha256 == m.integritySha256 && n.integrityPath == m.integrityPath
    && |n.python| == |m.python|
    && (forall name | name in m.components :: n.components[name] == m.components[name])
    && forall i | 0 <= i < |m.python| ::
         n.python[i].path == m.python[i].path && n.python[i].sha256 == m.python[i].sha256
  }

  /** The built step keeps what the source step fixed, and the declaration. */
  lemma BuiltKeepsSource(w: World, declaration: Manifest, m: Manifest, paths: map<string, string>, files: Files,
                         at: string)
    ensures SameSource(m, BuiltOf(w, m, paths, files, at))
    ensures Projects(BuiltOf(w, m, paths, files, at), declaration) <==> Projects(m, declaration)
  {
    hide Real;
    var n := BuiltOf(w, m, paths, files, at);
    assert ErasedComponents(n.components) == ErasedComponents(m.components);
    assert ErasedPython(n.python) == ErasedPython(m.python);
  }

  /**
   The published step keeps what the source and built steps fixed, and the declaration if
   it declares both platforms.
   */
  lemma PublishedKeepsBuilt(w: World, declaration: Manifest, m: Manifest, p: Publication, files: Files, at: string)
    requires p.platformDigests.Keys == PLATFORMS && Projects(m, declaration)
    ensures SameBuilt(m, PublishedOf(w, m, p, files, at))
    ensures Projects(PublishedOf(w, m, p, files, at), declaration) <==> declaration.platformDigests.Keys == PLATFORMS
  {
    hide ShaOf;
    var n := PublishedOf(w, m, p, files, at);
    assert ErasedPython(n.python) == ErasedPython(m.python);
    assert ErasedPublic(n.publicArtifacts) == ErasedPublic(m.publicArtifacts);
    assert ErasedAssets(n.assets) == ErasedAssets(m.assets);
    var none := map k | k in n.platformDigests :: None;
    assert none.Keys == PLATFORMS;
    if declaration.platformDigests.Keys == PLATFORMS {
      assert forall k | k in declaration.platformDigests :: declaration.platformDigests[k] == None;
      assert none == declaration.platformDigests;
    }
  }

  /**
   The last checks of a publication can fail only for what was not checked before:
   the declaration, its addresses and platforms, what the artifacts contain, and
   an inventory that overwrites a built artifact.
   */
  lemma PublicationSucceeds(w: World, declaration: Manifest, m: Manifest, p: Publication, listing: seq<string>,
                            files: Files, at: string,
                            files': Files, lines: seq<Line>, inventory: string)
    requires Publishable(w, declaration, m, p, listing, files, at)
    requires Inventoried(w.hash, w.render, AssetsOf(m.assets), listing, files, files', lines, inventory)
    ensures var n := PublishedOf(w, m, p, files', at);
      PublishedAccepted(w, declaration, n, files') <==>
        && w.declared(n) && declaration.platformDigests.Keys == PLATFORMS && AddressesFit(w, m)
        && w.semantics(n, files') && SparesBuilt(w, m, files, files', inventory)
  {
    hide Inventoried, CanInventory, PublicationFits, PublishedOf, SparesBuilt, HashesMatch, PythonPublished,
         AssetsPublished, PublicPublished,
         DigestsPublished, AddressesFit, LeadsTo, Projects, Proves;
    FitsPlatforms(w, m, p, files);
    PublishedKeepsBuilt(w, declaration, m, p, files', at);
    AssetsAreThere(w, m, p, listing, files, files', lines, inventory);
    HashesAfterwards(w, m, AssetsOf(m.assets), listing, files, files', lines, inventory);
    PublishedAnew(w, m, p, files, files', at);
  }

  lemma FitsPlatforms(w: World, m: Manifest, p: Publication, files: Files)
    requires PublicationFits(w, m, p, files)
    ensures p.platformDigests.Keys == PLATFORMS
  {
  }

  /** What a fitting publication supplies passes the checks of published evidence. */
  lemma PublishedAnew(w: World, m: Manifest, p: Publication, files: Files, files': Files, at: string)
    requires PublicationFits(w, m, p, files)
    requires forall i | 0 <= i < |m.assets| :: LeadsTo(files', m.assets[i].asset.path, m.assets[i].asset.name)
    ensures var n := PublishedOf(w, m, p, files', at);
      && Proves(n, "published") && PythonPublished(w, n.python) && AssetsPublished(w, n.assets, files')
      && DigestsPublished(w, n)
      && PublicPublished(w, n.publicArtifacts) && (AddressesFit(w, n) <==> AddressesFit(w, m))
      && (HashesMatch(w, n, files') <==> HashesMatch(w, m, files'))
  {
    PythonAnew(w, m.python, p.pypi);
    AssetsAnew(w, m.assets, p.assetPaths, files, files');
    PublicAnew(w, m.publicArtifacts, p.publicHashes);
    DigestsAnew(w, m, p, files', at);
    AddressesAnew(w, m, p, files', at);
    HashesAnew(w, m, p, files', at);
    hide PythonPublished, AssetsPublished, PublicPublished, DigestsPublished, AddressesFit, HashesMatch, WithUrls,
         WithPublicHashes, HashedAssets;
  }

  lemma PythonAnew(w: World, python: seq<PythonArtifact>, supplied: map<string, (string, string)>)
    requires PythonPublishable(w, python, supplied)
    ensures PythonPublished(w, WithUrls(python, supplied))
  {
    var n := WithUrls(python, supplied);
    forall i | 0 <= i < |python|
      ensures n[i].url == Some(supplied[python[i].filename].0) && n[i].sha256.Some?
      ensures n[i].filename == python[i].filename
    {
      assert PythonFits(w, python[i], supplied);
    }
  }

  lemma AssetsAnew(w: World, assets: seq<ReleaseAsset>, supplied: map<string, string>, files: Files, files': Files)
    requires AssetsPublishable(assets, supplied, files)
    requires forall i | 0 <= i < |assets| :: LeadsTo(files', assets[i].asset.path, assets[i].asset.name)
    ensures AssetsPublished(w, HashedAssets(w, assets, files'), files')
  {
    hide Real, BaseName;
  }

  lemma PublicAnew(w: World, artifacts: seq<PublicArtifact>, hashes: map<string, string>)
    requires PublicPublishable(w, artifacts, hashes)
    ensures PublicPublished(w, WithPublicHashes(artifacts, hashes))
  {
    forall i | 0 <= i < |artifacts| ensures artifacts[i].url in hashes {}
  }

  lemma DigestsAnew(w: World, m: Manifest, p: Publication, files: Files, at: string)
    requires DigestsPublishable(w, p)
    ensures DigestsPublished(w, PublishedOf(w, m, p, files, at))
  {
    hide HashedAssets, WithUrls, WithPublicHashes;
  }

  lemma AddressesAnew(w: World, m: Manifest, p: Publication, files: Files, at: string)
    ensures AddressesFit(w, PublishedOf(w, m, p, files, at)) <==> AddressesFit(w, m)
  {
    hide WithUrls, ShaOf;
    var n := PublishedOf(w, m, p, files, at);
    assert forall i | 0 <= i < |m.assets| ::
      n.assets[i].url == m.assets[i].url && n.assets[i].asset == m.assets[i].asset;
    assert forall i | 0 <= i < |m.publicArtifacts| :: n.publicArtifacts[i].url == m.publicArtifacts[i].url;
  }

  lemma HashesAnew(w: World, m: Manifest, p: Publication, files: Files, at: string)
    ensures HashesMatch(w, PublishedOf(w, m, p, files, at), files) <==> HashesMatch(w, m, files)
  {
    hide WithPublicHashes, HashedAssets, ShaOf, LeadsTo;
    var n := PublishedOf(w, m, p, files, at);
    assert forall i | 0 <= i < |m.python| ::
      PythonMatches(w, n.python[i], files) <==> PythonMatches(w, m.python[i], files);
  }

  /**
   In published evidence the inventory has the manifest's hash of every released file,
   where it leads, and no line for itself.
   */
  lemma InventoryAgrees(w: World, declaration: Manifest, m: Manifest, p: Publication, listing: seq<string>,
                        files: Files, at: string,
                        files': Files, lines: seq<Line>, inventory: string, i: nat)
    requires Publishable(w, declaration, m, p, listing, files, at) && i < |m.assets|
    requires Inventoried(w.hash, w.render, AssetsOf(m.assets), listing, files, files', lines, inventory)
    ensures inventory !in LinePaths(lines)
    ensures var n := PublishedOf(w, m, p, files', at); n.assets[i].asset.name != INVENTORY_NAME ==>
      && n.assets[i].sha256.Some? && Line(n.assets[i].sha256.value, Real(files', n.assets[i].asset.path).value) in lines
      && BaseName(Real(files', n.assets[i].asset.path).value) == n.assets[i].asset.name
  {
    hide Real, BaseName, Covered, BuiltAccepted, PythonPublishable, PublicPublishable, DigestsPublishable;
    if m.assets[i].asset.name != INVENTORY_NAME {
      LinesAgreeAfterwards(w.hash, w.render, AssetsOf(m.assets), listing, files, files', lines, inventory, i);
      AssetsAreThere(w, m, p, listing, files, files', lines, inventory);
    }
  }

  // ------------------------------------------------------------- any sequence of steps

  /** A step, and the files that it sees; for a publication, those with the inventory rebuilt. */
  datatype Step =
    | SourceStep(resolve: string -> Option<string>, epoch: int, at: string)
    | BuiltStep(paths: map<string, string>, files: Files, at: string)
    | PublishedStep(publication: Publication, files: Files, at: string)

  /** What the guards ask; the checks of the result are left out. */
  predicate Allowed(declaration: Manifest, m: Manifest, step: Step) {
    match step
    case SourceStep(resolve, epoch, _) => AllResolve(declaration.components, resolve) && epoch > 0
    case BuiltStep(paths, files, _) => Proves(m, "source") && paths.Keys == m.components.Keys
    && ArtifactsExist(m, paths, files)
    case PublishedStep(p, _, _) => Proves(m, "built") && p.platformDigests.Keys == PLATFORMS
  }

  /** The source step starts from the declaration again, whatever was there. */
  function After(w: World, declaration: Manifest, m: Manifest, step: Step): Manifest {
    match step
    case SourceStep(resolve, epoch, at) => SourceOf(declaration, resolve, epoch, at)
    case BuiltStep(paths, files, at) => BuiltOf(w, m, paths, files, at)
    case PublishedStep(p, files, at) => PublishedOf(w, m, p, files, at)
  }

  /** The manifests of a release, from its declaration on. */
  ghost predicate Run(w: World, declaration: Manifest, ms: seq<Manifest>, steps: seq<Step>) {
    && |ms| == |steps| + 1 && ms[0] == declaration
    && forall j | 0 <= j < |steps| ::
         Allowed(declaration, ms[j], steps[j]) && ms[j + 1] == After(w, declaration, ms[j], steps[j])
  }

  /** A declaration holds no evidence and names both platforms. */
  predicate Declares(declaration: Manifest) {
    Projects(declaration, declaration) && declaration.platformDigests.Keys == PLATFORMS
    && declaration.evidence.state == "declared"
  }

  /** When the code takes a step: its guards hold and its checks of the result accept. */
  ghost predicate Accepted(w: World, declaration: Manifest, m: Manifest, step: Step) {
    match step
    case SourceStep(resolve, epoch, at) =>
      w.isTime(at) && AllResolve(declaration.components, resolve) && epoch > 0
      && SourceAccepted(w, declaration, SourceOf(declaration, resolve, epoch, at))
    case BuiltStep(paths, files, at) => Buildable(w, declaration, m, paths, files, at)
    case PublishedStep(p, files', at) =>
      PublishedAccepted(w, declaration, PublishedOf(w, m, p, files', at), files')
      && exists listing, files, lines, inventory :: Publishable(w, declaration, m, p, listing, files, at)
           && Inventoried(w.hash, w.render, AssetsOf(m.assets), listing, files, files', lines, inventory)
  }

  lemma AcceptedIsAllowed(w: World, declaration: Manifest, m: Manifest, step: Step)
    requires declaration.components.Keys == COMPONENTS && Accepted(w, declaration, m, step)
    ensures Allowed(declaration, m, step)
  {
    hide Buildable, Publishable, PublishedAccepted, SourceAccepted, Inventoried, AllResolve, PublishedOf;
    match step
    case SourceStep(_, _, _) =>
    case BuiltStep(paths, files, at) => BuildableIsAllowed(w, declaration, m, paths, files, at);
    case PublishedStep(p, _, at) =>
      var listing, files :| Publishable(w, declaration, m, p, listing, files, at);
      PublishableIsAllowed(w, declaration, m, p, listing, files, at);
  }

  lemma BuildableIsAllowed(w: World, declaration: Manifest, m: Manifest, paths: map<string, string>, files: Files,
                           at: string)
    requires declaration.components.Keys == COMPONENTS && Buildable(w, declaration, m, paths, files, at)
    ensures Proves(m, "source") && paths.Keys == m.components.Keys && ArtifactsExist(m, paths, files)
  {
    hide ArtifactsExist, BuiltAccepted, Proves, Projects;
    SameComponents(m, declaration);
  }

  lemma PublishableIsAllowed(w: World, declaration: Manifest, m: Manifest, p: Publication, listing: seq<string>,
                             files: Files, at: string)
    requires Publishable(w, declaration, m, p, listing, files, at)
    ensures Proves(m, "built") && p.platformDigests.Keys == PLATFORMS
  {
    hide BuiltAccepted, Proves, CanInventory, PublicationFits;
    FitsPlatforms(w, m, p, files);
  }

  lemma SameComponents(m: Manifest, declaration: Manifest)
    requires Projects(m, declaration)
    ensures m.components.Keys == declaration.components.Keys
  {
    assert ErasedComponents(m.components).Keys == m.components.Keys;
  }

  /** Whatever the code accepts, step by step, is a run: all that follows holds of it. */
  lemma AcceptedIsRun(w: World, declaration: Manifest, ms: seq<Manifest>, steps: seq<Step>)
    requires declaration.components.Keys == COMPONENTS && |ms| == |steps| + 1 && ms[0] == declaration
    requires forall j | 0 <= j < |steps| ::
      Accepted(w, declaration, ms[j], steps[j]) && ms[j + 1] == After(w, declaration, ms[j], steps[j])
    ensures Run(w, declaration, ms, steps)
  {
    hide Accepted, Allowed, After;
    forall j | 0 <= j < |steps|
      ensures Allowed(declaration, ms[j], steps[j])
    {
      AcceptedIsAllowed(w, declaration, ms[j], steps[j]);
    }
  }

  /** Step `i` is the source step that the manifest after `j` steps comes from. */
  ghost predicate LastSource(steps: seq<Step>, j: nat, i: nat)
    requires j <= |steps|
  {
    i < j && steps[i].SourceStep? && forall k | i < k < j :: !steps[k].SourceStep?
  }

  /** Step `i` built the manifest after `j` steps. */
  ghost predicate LastBuilt(steps: seq<Step>, j: nat, i: nat)
    requires j <= |steps|
  {
    i < j && steps[i].BuiltStep? && forall k | i < k < j :: steps[k].PublishedStep?
  }

  /** Which steps a manifest comes from, and which the one before it came from. */
  lemma OneStepLater(steps: seq<Step>, j: nat)
    requires 0 < j <= |steps|
    ensures steps[j - 1].SourceStep? ==> LastSource(steps, j, j - 1)
    ensures !steps[j - 1].SourceStep? ==> forall i | LastSource(steps, j - 1, i) :: LastSource(steps, j, i)
    ensures steps[j - 1].SourceStep? ==> forall i :: !LastBuilt(steps, j, i)
    ensures steps[j - 1].BuiltStep? ==> LastBuilt(steps, j, j - 1)
    ensures steps[j - 1].PublishedStep? ==> forall i | LastBuilt(steps, j - 1, i) :: LastBuilt(steps, j, i)
  {
  }

  /** Every manifest of a run projects to the declaration, and its stage says which steps it went through. */
  lemma {:induction false} RunKeepsDeclaration(w: World, declaration: Manifest, ms: seq<Manifest>, steps: seq<Step>,
                                               j: nat)
    requires Declares(declaration) && Run(w, declaration, ms, steps) && j <= |steps|
    ensures Projects(ms[j], declaration)
    ensures Proves(ms[j], "source") <==> j > 0
    ensures Proves(ms[j], "built") <==> exists i :: LastBuilt(steps, j, i)
    ensures Proves(ms[j], "published") <==> j > 0 && steps[j - 1].PublishedStep?
    ensures j > 0 ==> exists i :: LastSource(steps, j, i)
  {
    if j > 0 {
      RunKeepsDeclaration(w, declaration, ms, steps, j - 1);
      StageAfter(w, declaration, ms[j - 1], steps[j - 1]);
      StepKeepsDeclaration(w, declaration, ms[j - 1], steps[j - 1]);
      OneStepLater(steps, j);
      StageAllows(declaration, ms[j - 1], steps[j - 1]);
      hide Run, Declares, Projects, Allowed, After, Proves, LastSource, LastBuilt;
      if steps[j - 1].PublishedStep? {
        var b :| LastBuilt(steps, j - 1, b);
        assert LastBuilt(steps, j, b);
      }
      if !steps[j - 1].SourceStep? {
        var i :| LastSource(steps, j - 1, i);
        assert LastSource(steps, j, i);
      }
    }
  }

  lemma StageAllows(declaration: Manifest, m: Manifest, step: Step)
    requires Allowed(declaration, m, step)
    ensures step.BuiltStep? ==> Proves(m, "source")
    ensures step.PublishedStep? ==> Proves(m, "source") && Proves(m, "built")
  {
  }

  lemma StageAfter(w: World, declaration: Manifest, m: Manifest, step: Step)
    ensures var n := After(w, declaration, m, step);
      && Proves(n, "source") && (Proves(n, "built") <==> !step.SourceStep?)
      && (Proves(n, "published") <==> step.PublishedStep?)
  {
  }

  lemma StepKeepsDeclaration(w: World, declaration: Manifest, m: Manifest, step: Step)
    requires Declares(declaration) && Projects(m, declaration) && Allowed(declaration, m, step)
    ensures Projects(After(w, declaration, m, step), declaration)
  {
    hide Projects, ArtifactsExist, AllResolve, SourceOf, BuiltOf, PublishedOf, Proves;
    match step
    case SourceStep(resolve, epoch, at) => SourceProjects(declaration, resolve, epoch, at);
    case BuiltStep(paths, files, at) => BuiltKeepsSource(w, declaration, m, paths, files, at);
    case PublishedStep(p, files, at) => PublishedKeepsBuilt(w, declaration, m, p, files, at);
  }

  /** Every manifest has the commits and the epoch of its source step. */
  lemma {:induction false} RunKeepsSource(w: World, declaration: Manifest, ms: seq<Manifest>, steps: seq<Step>, i: nat,
                                          j: nat)
    requires Declares(declaration) && Run(w, declaration, ms, steps) && j <= |steps| && LastSource(steps, j, i)
    ensures ms[j].epoch == Some(steps[i].epoch) && ms[j].components.Keys == declaration.components.Keys
    ensures forall name | name in declaration.components ::
      ms[j].components[name].sourceCommit == steps[i].resolve(name) && ms[j].components[name].sourceCommit.Some?
  {
    hide Projects, ArtifactsExist, BuiltOf, PublishedOf, Proves;
    if i < j - 1 {
      RunKeepsSource(w, declaration, ms, steps, i, j - 1);
      RunKeepsDeclaration(w, declaration, ms, steps, j - 1);
      match steps[j - 1]
      case BuiltStep(paths, files, at) => BuiltKeepsSource(w, declaration, ms[j - 1], paths, files, at);
      case PublishedStep(p, files, at) => PublishedKeepsBuilt(w, declaration, ms[j - 1], p, files, at);
    }
  }

  /** The built evidence is that of the artifacts of this step. */
  ghost predicate Binds(w: World, m: Manifest, step: Step)
    requires step.BuiltStep?
  {
    && m.components.Keys == step.paths.Keys
    && (forall name | name in m.components ::
          m.components[name].path == Real(step.files, step.paths[name])
          && m.components[name].sha256 == ShaOf(w, step.files, step.paths[name]))
    && (forall i | 0 <= i < |m.python| :: m.python[i].sha256 == ShaOf(w, step.files, m.python[i].path))
    && m.integritySha256 == ShaOf(w, step.files, m.integrityPath)
  }

  /** Every built or published manifest has the paths and hashes of the artifacts that its built step saw. */
  lemma {:induction false} RunKeepsBuilt(w: World, declaration: Manifest, ms: seq<Manifest>, steps: seq<Step>, i: nat,
                                         j: nat)
    requires Declares(declaration) && Run(w, declaration, ms, steps) && j <= |steps| && LastBuilt(steps, j, i)
    ensures Binds(w, ms[j], steps[i])
  {
    hide Projects, ArtifactsExist, PublishedOf, Real, ShaOf, Proves;
    if i < j - 1 {
      RunKeepsBuilt(w, declaration, ms, steps, i, j - 1);
      RunKeepsDeclaration(w, declaration, ms, steps, j - 1);
      PublishedKeepsBuilt(w, declaration, ms[j - 1], steps[j - 1].publication, steps[j - 1].files, steps[j - 1].at);
    }
  }

  predicate HoldsNoHashes(m: Manifest) {
    && m.integritySha256.None? && (forall name | name in m.components :: m.components[name].sha256.None?)
    && forall a | a in m.python :: a.sha256.None?
  }

  /** Two built steps of a release see the same artifacts, as far as hashes can tell. */
  ghost predicate SameArtifacts(w: World, declaration: Manifest, s: Step, t: Step)
    requires s.BuiltStep? && t.BuiltStep?
  {
    && (forall name | name in s.paths && name in t.paths ::
          Real(s.files, s.paths[name]) == Real(t.files, t.paths[name])
          && ShaOf(w, s.files, s.paths[name]) == ShaOf(w, t.files, t.paths[name]))
    && (forall i | 0 <= i < |declaration.python| ::
         ShaOf(w, s.files, declaration.python[i].path) == ShaOf(w, t.files, declaration.python[i].path))
    && ShaOf(w, s.files, declaration.integrityPath) == ShaOf(w, t.files, declaration.integrityPath)
  }

  /**
   Built evidence is fixed: publishing keeps it, and building again, which a built
   and even a published manifest allows, keeps it exactly if the artifacts are the
   same as those of the built step before.  Only a new source step drops it.
   */
  lemma RunChangesBuilt(w: World, declaration: Manifest, ms: seq<Manifest>, steps: seq<Step>, i: nat, j: nat)
    requires Declares(declaration) && Run(w, declaration, ms, steps) && j < |steps| && LastBuilt(steps, j, i)
    ensures steps[j].PublishedStep? ==> SameBuilt(ms[j], ms[j + 1])
    ensures steps[j].BuiltStep? ==> (SameBuilt(ms[j], ms[j + 1]) <==> SameArtifacts(w, declaration, steps[i], steps[j]))
    ensures steps[j].SourceStep? ==> HoldsNoHashes(ms[j + 1])
  {
    RunKeepsDeclaration(w, declaration, ms, steps, j);
    match steps[j]
    case SourceStep(resolve, epoch, at) => NoBuiltEvidence(declaration, resolve, epoch, at);
    case BuiltStep(paths, files, at) =>
      RunKeepsBuilt(w, declaration, ms, steps, i, j);
      BindsAnew(w, declaration, ms[j], steps[i], steps[j]);
    case PublishedStep(p, files, at) => PublishedKeepsBuilt(w, declaration, ms[j], p, files, at);
  }

  lemma NoBuiltEvidence(declaration: Manifest, resolve: string -> Option<string>, epoch: int, at: string)
    requires Projects(declaration, declaration)
    ensures HoldsNoHashes(SourceOf(declaration, resolve, epoch, at))
  {
    var m := SourceOf(declaration, resolve, epoch, at);
    assert ErasedPython(m.python) == m.python && ErasedComponents(declaration.components) == declaration.components;
    forall name | name in m.components
      ensures m.components[name].sha256.None?
    {
      assert ErasedComponents(declaration.components)[name].sha256.None?;
    }
    forall i | 0 <= i < |m.python| ensures m.python[i].sha256.None? { assert ErasedPython(m.python)[i].sha256.None?; }
  }

  lemma SameDeclared(m: Manifest, declaration: Manifest)
    requires Projects(m, declaration)
    ensures declaration.python == ErasedPython(m.python) && declaration.integrityPath == m.integrityPath
  {
  }

  lemma BindsAnew(w: World, declaration: Manifest, m: Manifest, s: Step, t: Step)
    requires Projects(m, declaration) && s.BuiltStep? && t.BuiltStep? && Binds(w, m, s)
    requires t.paths.Keys == m.components.Keys
    ensures SameBuilt(m, BuiltOf(w, m, t.paths, t.files, t.at)) <==> SameArtifacts(w, declaration, s, t)
  {
    hide Real, ShaOf, Projects;
    var n := BuiltOf(w, m, t.paths, t.files, t.at);
    SameDeclared(m, declaration);
    forall name | name in m.components
      ensures n.components[name] == m.components[name] <==>
              Real(s.files, s.paths[name]) == Real(t.files, t.paths[name])
              && ShaOf(w, s.files, s.paths[name]) == ShaOf(w, t.files, t.paths[name])
    {
    }
    forall i | 0 <= i < |m.python|
      ensures declaration.python[i].path == m.python[i].path
      ensures n.python[i].sha256 == ShaOf(w, t.files, m.python[i].path)
    {
    }
  }

  /**
   When the built step accepts a manifest that has built evidence already, true of
   the files `before`, it takes it back to the built stage.  The hashes survive
   exactly if every artifact is where it was, with bytes of the same hash.
   */
  lemma BuiltStepMayRepeat(w: World, declaration: Manifest, m: Manifest, paths: map<string, string>, before: Files,
                           files: Files, at: string)
    requires m.components.Keys == COMPONENTS && Buildable(w, declaration, m, paths, files, at)
    requires HashesMatch(w, m, before)
    ensures var n := BuiltOf(w, m, paths, files, at);
      && !Proves(n, "published") && n.manifestDigest == m.manifestDigest && n.platformDigests == m.platformDigests
      && (SameBuilt(m, n) <==> SameBytes(w, m, paths, before, files))
  {
    hide Real, ShaOf, SourceAccepted, BuiltAccepted, HashesMatch, SameBuilt, SameBytes, ArtifactsExist;
    BuiltHashesSurvive(w, m, paths, before, files, at);
  }

  /** The artifacts are where the manifest has them, with the bytes that they had before, as far as hashes can tell. */
  predicate SameBytes(w: World, m: Manifest, paths: map<string, string>, before: Files, files: Files)
    requires forall name | name in m.components :: name in paths && m.components[name].path.Some?
  {
    && (forall name | name in m.components ::
          m.components[name].path == Real(files, paths[name])
          && ShaOf(w, before, m.components[name].path.value) == ShaOf(w, files, paths[name]))
    && (forall i | 0 <= i < |m.python| :: ShaOf(w, before, m.python[i].path) == ShaOf(w, files, m.python[i].path))
    && ShaOf(w, before, m.integrityPath) == ShaOf(w, files, m.integrityPath)
  }

  lemma BuiltHashesSurvive(w: World, m: Manifest, paths: map<string, string>, before: Files, files: Files, at: string)
    requires paths.Keys == m.components.Keys && HashesMatch(w, m, before)
    ensures forall name | name in m.components :: m.components[name].path.Some?
    ensures SameBuilt(m, BuiltOf(w, m, paths, files, at)) <==> SameBytes(w, m, paths, before, files)
  {
    hide Real, ShaOf, LeadsTo;
    var n := BuiltOf(w, m, paths, files, at);
    forall name | name in m.components
      ensures m.components[name].path.Some?
      ensures n.components[name] == m.components[name] <==>
              m.components[name].path == Real(files, paths[name])
              && ShaOf(w, before, m.components[name].path.value) == ShaOf(w, files, paths[name])
    {
      assert ComponentMatches(w, m.components[name], before);
    }
    forall i | 0 <= i < |m.python|
      ensures n.python[i].sha256 == m.python[i].sha256 <==>
        ShaOf(w, before, m.python[i].path) == ShaOf(w, files, m.python[i].path)
    {
      assert PythonMatches(w, m.python[i], before);
    }
  }

  /** A release whose artifacts are all one file. */
  function OneFileRelease(state: string, sha: Option<string>): Manifest {
    var path := if sha.Some? then Some("w") else None;
    Manifest("r", if sha.Some? then Some(1) else None,
      map name | name in COMPONENTS :: Component("c", if sha.Some? then Some("commit") else None, path, sha),
      [PythonArtifact("w", "w", None, sha)], "w", sha, [], "", [], None, map[], Evidence(state, "", ""))
  }

  /** Checks that accept everything, and a hash that tells two files apart. */
  const EASY: World :=
    World(_ => true, _ => true, (_, _) => true, data => if data == [] then "empty"
    else "full", _ => [], _ => true, _ => true, (_, _) => true, _ => true, _ => true)

  lemma OneFileProjects(state: string, sha: Option<string>)
    ensures Projects(OneFileRelease(state, sha), OneFileRelease("declared", None))
  {
    var m, declaration := OneFileRelease(state, sha), OneFileRelease("declared", None);
    assert ErasedComponents(m.components) == declaration.components && ErasedPython(m.python) == declaration.python;
    assert ErasedPublic(m.publicArtifacts) == [] && ErasedAssets(m.assets) == [];
  }

  lemma OneFileMatches(state: string, data: Bytes)
    ensures var files := map["w" := Regular(data)];
      HashesMatch(EASY, OneFileRelease(state, Some(EASY.hash(data))), files)
    ensures var files := map["w" := Regular(data)];
      Real(files, "w") == Some("w") && ShaOf(EASY, files, "w") == Some(EASY.hash(data))
  {
    var m := OneFileRelease(state, Some(EASY.hash(data)));
    var files: Files := map["w" := Regular(data)];
    T.SplitNone("w", '/');
    assert BaseName("w") == "w" && Real(files, "w") == Some("w");
    hide Real, BaseName;
    assert ShaOf(EASY, files, "w") == Some(EASY.hash(data));
    assert PythonMatches(EASY, m.python[0], files);
  }

  /** The built step does accept a published manifest, and overwrites its hashes when the bytes have changed. */
  lemma RepeatedBuildOverwrites()
    ensures var m := OneFileRelease("published", Some("empty"));
      var paths := map name | name in COMPONENTS :: "w";
      var before, files := map["w" := Regular([])], map["w" := Regular([1])];
      && Proves(m, "published") && HashesMatch(EASY, m, before)
      && Buildable(EASY, OneFileRelease("declared", None), m, paths, files, "")
      && !SameBuilt(m, BuiltOf(EASY, m, paths, files, ""))
  {
    var m, declaration := OneFileRelease("published", Some("empty")), OneFileRelease("declared", None);
    var paths := map name | name in COMPONENTS :: "w";
    var files: Files := map["w" := Regular([1])];
    OneFileProjects("published", Some("empty"));
    OneFileMatches("published", []);
    OneFileMatches("built", [1]);
    BuiltKeepsSource(EASY, declaration, m, paths, files, "");
    OneFileBuilt(m, paths, files, "");
    hide Projects, HashesMatch, Real, ShaOf;
    assert SourceAccepted(EASY, declaration, m) && ArtifactsExist(m, paths, files);
    assert BuiltAccepted(EASY, declaration, BuiltOf(EASY, m, paths, files, ""), files);
  }

  /** What the built step makes of one file. */
  lemma OneFileBuilt(m: Manifest, paths: map<string, string>, files: Files, at: string)
    requires m == OneFileRelease("published", Some("empty")) && paths == map name | name in COMPONENTS :: "w"
    requires Real(files, "w") == Some("w") && ShaOf(EASY, files, "w") == Some("full")
    requires HashesMatch(EASY, OneFileRelease("built", Some("full")), files)
    ensures var n := BuiltOf(EASY, m, paths, files, at);
      HashesMatch(EASY, n, files) && !SameBuilt(m, n) && IsFile(files, "w") && n.evidence.state == "built"
  {
    var n, b := BuiltOf(EASY, m, paths, files, at), OneFileRelease("built", Some("full"));
    assert IsFile(files, "w");
    hide Real, ShaOf, BaseName, IsFile;
    assert n.components == b.components;
    assert n.python == b.python && n.integritySha256 == b.integritySha256;
  }
}
