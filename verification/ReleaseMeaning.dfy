/**
 What it means that the steps of a release are accepted
 (tools/release_chain.py:278-340, 366-438, 441-598, 639-819): which bytes the evidence
 is about, and that nothing else of the manifest changes.
 */
module ReleaseMeaning {
  import opened Common
  import opened ChecksumInventory
  import opened ReleaseEvidence
  import T = Text

  // ---------------------------------------------------------------------- where paths lead

  /** A way along links from `p` to a path that is no link, past no path twice. */
  predicate IsWay(files: Files, way: seq<string>, p: string) {
    && way != [] && way[0] == p
    && (forall i | 0 <= i < |way| - 1 :: way[i] in files && files[way[i]] == Symlink(Some(way[i + 1])))
    && (way[|way| - 1] in files ==> files[way[|way| - 1]].Regular?)
    && forall i, j | 0 <= i < j < |way| :: way[i] != way[j]
  }

  /** A path leads to the end of its way, if it has one. */
  lemma RealIsWay(files: Files, p: string)
    ensures Real(files, p).Some? <==> exists way :: IsWay(files, way, p)
    ensures forall way | IsWay(files, way, p) :: Real(files, p) == Some(way[|way| - 1])
  {
    forall way | IsWay(files, way, p) ensures Real(files, p) == Some(way[|way| - 1]) {
      WayIsFollowed(files, way, p, {});
    }
    if Real(files, p).Some? { var way := WayOf(files, p, {}); }
  }

  lemma {:induction false} WayIsFollowed(files: Files, way: seq<string>, p: string, seen: set<string>)
    requires IsWay(files, way, p) && forall i | 0 <= i < |way| :: way[i] !in seen
    ensures Follow(files, p, seen) == Some(way[|way| - 1])
    decreases |way|
  {
    if |way| > 1 {
      assert way[0] in files && files[way[0]] == Symlink(Some(way[1]));
      WayIsFollowed(files, way[1..], way[1], seen + {p});
    }
  }

  lemma {:induction false} WayOf(files: Files, p: string, seen: set<string>) returns (way: seq<string>)
    requires Follow(files, p, seen).Some?
    ensures IsWay(files, way, p) && forall i | 0 <= i < |way| - 1 :: way[i] !in seen
    ensures way[|way| - 1] !in seen || way[|way| - 1] !in files || files[way[|way| - 1]].Regular?
    decreases files.Keys - seen
  {
    if p !in files || files[p].Regular? {
      way := [p];
    } else {
      var rest := WayOf(files, files[p].target.value, seen + {p});
      way := [p] + rest;
      assert rest[|rest| - 1] != p;
    }
  }

  /** The path leads here. */
  ghost predicate EndsAt(files: Files, p: string, q: string) {
    exists way :: IsWay(files, way, p) && way[|way| - 1] == q
  }

  lemma RealIsEnd(files: Files, p: string)
    ensures forall q :: EndsAt(files, p, q) <==> Real(files, p) == Some(q)
  {
    RealIsWay(files, p);
    hide Real;
    if Real(files, p).Some? {
      var way :| IsWay(files, way, p);
      assert Real(files, p) == Some(way[|way| - 1]);
    }
  }

  /** The file that a path leads to, with its bytes. */
  ghost predicate FileAt(files: Files, p: string, q: string, data: Bytes) {
    q in files && files[q] == Regular(data) && EndsAt(files, p, q)
  }

  /** The path leads to a file. */
  ghost predicate LeadsToFile(files: Files, p: string) { exists q, data :: FileAt(files, p, q, data) }

  /** The path leads to a file of this name. */
  ghost predicate LeadsToNamed(files: Files, p: string, name: string) {
    exists q, data :: FileAt(files, p, q, data) && IsLastPart(name, q)
  }

  /** The name is all of the path, or what comes after its last slash. */
  predicate IsLastPart(name: string, path: string) {
    '/' !in name && (path == name || (|path| > |name| && path[|path| - |name| - 1..] == "/" + name))
  }

  lemma BaseNameIsLast(name: string, path: string)
    ensures IsLastPart(name, path) <==> BaseName(path) == name
  {
    var parts := T.Split(path, '/');
    T.JoinSplit(path, '/');
    LastOfJoin(parts);
    if IsLastPart(name, path) { OneLastPart(name, BaseName(path), path); }
  }

  lemma {:induction false} LastOfJoin(parts: seq<string>)
    requires parts != [] && forall i | 0 <= i < |parts| :: '/' !in parts[i]
    ensures IsLastPart(parts[|parts| - 1], T.Join(parts, '/'))
  {
    if |parts| > 1 {
      LastOfJoin(parts[1..]);
      var rest, last := T.Join(parts[1..], '/'), parts[|parts| - 1];
      var all := parts[0] + ['/'] + rest;
      assert all[|all| - |last| - 1..] == (['/'] + rest)[|rest| - |last|..];
    }
  }

  lemma OneLastPart(x: string, y: string, path: string)
    requires IsLastPart(x, path) && IsLastPart(y, path)
    ensures x == y
  {
    assert x == path[|path| - |x|..] && y == path[|path| - |y|..];
    if |x| < |y| { SlashBefore(x, y, path); }
    if |y| < |x| { SlashBefore(y, x, path); }
  }

  lemma SlashBefore(x: string, y: string, path: string)
    requires IsLastPart(x, path) && |x| < |y| <= |path| && y == path[|path| - |y|..]
    ensures y[|y| - |x| - 1] == '/'
  {
    assert path[|path| - |x| - 1] == path[|path| - |x| - 1..][0];
  }

  lemma FileIsAt(w: World, files: Files, p: string)
    ensures IsFile(files, p) ==>
      && Real(files, p).Some? && Real(files, p).value in files && files[Real(files, p).value].Regular?
      && FileAt(files, p, Real(files, p).value, files[Real(files, p).value].data)
      && ShaOf(w, files, p) == Some(w.hash(files[Real(files, p).value].data))
    ensures !IsFile(files, p) ==> ShaOf(w, files, p) == None && forall q, data :: !FileAt(files, p, q, data)
  {
    RealIsEnd(files, p);
    hide Real, EndsAt;
  }

  /** The evidence of an artifact: it leads to a file, and the hash is that of the file's bytes. */
  ghost predicate HasHashOf(w: World, files: Files, p: string, sha256: Option<string>) {
    exists q, data :: FileAt(files, p, q, data) && sha256 == Some(w.hash(data))
  }

  lemma HashIsOfFile(w: World, files: Files, p: string, sha256: Option<string>)
    ensures HasHashOf(w, files, p, sha256) <==> sha256.Some? && ShaOf(w, files, p) == sha256
  {
    hide Real, EndsAt;
    FileIsAt(w, files, p);
    RealIsEnd(files, p);
    if IsFile(files, p) {
      forall q, data | FileAt(files, p, q, data) ensures q == Real(files, p).value {}
    }
  }

  lemma FileIsLedTo(w: World, files: Files, p: string)
    ensures LeadsToFile(files, p) <==> IsFile(files, p)
  {
    hide Real, EndsAt;
    FileIsAt(w, files, p);
  }

  lemma NamedIsLedTo(w: World, files: Files, p: string, name: string)
    ensures LeadsToNamed(files, p, name) <==> LeadsTo(files, p, name)
  {
    hide Real, EndsAt, BaseName, IsLastPart;
    FileIsAt(w, files, p);
    RealIsEnd(files, p);
    if Real(files, p).Some? { BaseNameIsLast(name, Real(files, p).value); }
    forall q, data | FileAt(files, p, q, data) ensures q == Real(files, p).value && IsFile(files, p) {}
  }

  // -------------------------------------------------------------------------------- source

  /** The same manifest but for its evidence: commits, hashes, addresses of Python files, digests, epoch and state. */
  ghost predicate SameButEvidence(m: Manifest, declaration: Manifest) {
    && m.identity == declaration.identity && m.integrityPath == declaration.integrityPath
    && m.releaseUrl == declaration.releaseUrl
    && m.components.Keys == declaration.components.Keys && m.platformDigests.Keys == declaration.platformDigests.Keys
    && (forall name | name in m.components :: m.components[name].identity == declaration.components[name].identity)
    && |m.python| == |declaration.python|
    && (forall i | 0 <= i < |m.python| ::
         m.python[i].filename == declaration.python[i].filename && m.python[i].path == declaration.python[i].path)
    && |m.publicArtifacts| == |declaration.publicArtifacts|
    && (forall i | 0 <= i < |m.publicArtifacts| :: m.publicArtifacts[i].url == declaration.publicArtifacts[i].url)
    && |m.assets| == |declaration.assets|
    && (forall i | 0 <= i < |m.assets| ::
         m.assets[i].asset == declaration.assets[i].asset && m.assets[i].url == declaration.assets[i].url)
  }

  /** No evidence of any step. */
  ghost predicate HasNoEvidence(d: Manifest) {
    && d.epoch == None && d.integritySha256 == None && d.manifestDigest == None
    && (forall name | name in d.components ::
         && d.components[name].sourceCommit == None && d.components[name].path == None
         && d.components[name].sha256 == None)
    && (forall i | 0 <= i < |d.python| :: d.python[i].url == None && d.python[i].sha256 == None)
    && (forall i | 0 <= i < |d.publicArtifacts| :: d.publicArtifacts[i].sha256 == None)
    && (forall i | 0 <= i < |d.assets| :: d.assets[i].sha256 == None)
    && forall p | p in d.platformDigests :: d.platformDigests[p] == None
  }

  /** Evidence projects to a declaration exactly if it says the same and the declaration holds no evidence. */
  lemma ProjectsMeans(m: Manifest, declaration: Manifest)
    ensures Projects(m, declaration) <==> SameButEvidence(m, declaration) && HasNoEvidence(declaration)
  {
    var p := Projection(m, declaration);
    if Projects(m, declaration) {
      ErasedIsTheSame(m, declaration);
    }
    if SameButEvidence(m, declaration) && HasNoEvidence(declaration) {
      assert p.components == declaration.components && p.python == declaration.python;
      assert p.publicArtifacts == declaration.publicArtifacts && p.assets == declaration.assets;
      assert p.platformDigests == declaration.platformDigests;
    }
  }

  lemma ErasedIsTheSame(m: Manifest, declaration: Manifest)
    requires Projection(m, declaration) == declaration
    ensures SameButEvidence(m, declaration) && HasNoEvidence(declaration)
  {
    assert ErasedComponents(m.components).Keys == m.components.Keys;
    forall name | name in m.components
      ensures declaration.components[name] == m.components[name].(sourceCommit := None, path := None, sha256 := None)
    {
      assert ErasedComponents(m.components)[name] == declaration.components[name];
    }
    forall i | 0 <= i < |m.python|
      ensures declaration.python[i] == m.python[i].(url := None, sha256 := None)
    {
      assert ErasedPython(m.python)[i] == declaration.python[i];
    }
    forall i | 0 <= i < |m.publicArtifacts|
      ensures declaration.publicArtifacts[i] == m.publicArtifacts[i].(sha256 := None)
    {
      assert ErasedPublic(m.publicArtifacts)[i] == declaration.publicArtifacts[i];
    }
    forall i | 0 <= i < |m.assets| ensures declaration.assets[i] == m.assets[i].(sha256 := None) {
      assert ErasedAssets(m.assets)[i] == declaration.assets[i];
    }
  }

  /**
   Source evidence is accepted exactly for a declaration without evidence, all of whose references resolve; it is
   the declaration with a commit for each component, an epoch and its state, no more.
   */
  lemma SourceMeans(w: World, declaration: Manifest, resolve: string -> Option<string>, epoch: int, at: string)
    ensures var n := After(w, declaration, declaration, SourceStep(resolve, epoch, at));
      && (Accepted(w, declaration, declaration, SourceStep(resolve, epoch, at)) <==>
          w.isTime(at) && epoch > 0 && (forall name | name in declaration.components :: resolve(name).Some?)
          && HasNoEvidence(declaration) && w.declared(n) && w.pinned(n))
      && n.components.Keys == declaration.components.Keys
      && (forall name | name in declaration.components ::
           n.components[name] == declaration.components[name].(sourceCommit := resolve(name)))
      && n == declaration.(components := n.components, epoch := Some(epoch),
                           evidence := Evidence("source", "release_source_verified", at))
  {
    hide Projects, HasNoEvidence;
    var n := SourceOf(declaration, resolve, epoch, at);
    ProjectsMeans(n, declaration);
    hide SameButEvidence;
    SourceSaysTheSame(declaration, resolve, epoch, at);
  }

  lemma SourceSaysTheSame(declaration: Manifest, resolve: string -> Option<string>, epoch: int, at: string)
    ensures SameButEvidence(SourceOf(declaration, resolve, epoch, at), declaration)
  {
  }

  // --------------------------------------------------------------------------------- built

  /** The hashes are those of the bytes that the paths lead to, and a Python artifact leads to a file of its name. */
  ghost predicate HashesAreTrue(w: World, m: Manifest, files: Files) {
    && (forall name | name in m.components ::
         m.components[name].path.Some?
         && HasHashOf(w, files, m.components[name].path.value, m.components[name].sha256))
    && m.python != []
    && (forall i | 0 <= i < |m.python| ::
         && HasHashOf(w, files, m.python[i].path, m.python[i].sha256)
         && LeadsToNamed(files, m.python[i].path, m.python[i].filename))
    && HasHashOf(w, files, m.integrityPath, m.integritySha256)
  }

  lemma HashesMeans(w: World, m: Manifest, files: Files)
    ensures HashesMatch(w, m, files) <==> HashesAreTrue(w, m, files)
  {
    hide HasHashOf, LeadsToNamed, LeadsTo, ShaOf;
    forall name | name in m.components && m.components[name].path.Some?
      ensures ComponentMatches(w, m.components[name], files) <==>
        HasHashOf(w, files, m.components[name].path.value, m.components[name].sha256)
    {
      HashIsOfFile(w, files, m.components[name].path.value, m.components[name].sha256);
    }
    forall i | 0 <= i < |m.python|
      ensures PythonMatches(w, m.python[i], files) <==>
        HasHashOf(w, files, m.python[i].path, m.python[i].sha256)
        && LeadsToNamed(files, m.python[i].path, m.python[i].filename)
    {
      HashIsOfFile(w, files, m.python[i].path, m.python[i].sha256);
      NamedIsLedTo(w, files, m.python[i].path, m.python[i].filename);
    }
    HashIsOfFile(w, files, m.integrityPath, m.integritySha256);
  }

  /** The evidence that a step starts from: it says what the declaration does, and the source is pinned. */
  ghost predicate StartsFrom(w: World, declaration: Manifest, m: Manifest, at: string) {
    w.isTime(at) && w.declared(m) && w.pinned(m) && SameButEvidence(m, declaration) && HasNoEvidence(declaration)
  }

  /** Four components are staged, and all artifacts lead to files, Python artifacts to files of their names. */
  ghost predicate AreStaged(m: Manifest, paths: map<string, string>, files: Files) {
    && paths.Keys == {"framework", "daemon", "server", "console"}
    && (forall name | name in paths :: LeadsToFile(files, paths[name]))
    && m.python != []
    && (forall i | 0 <= i < |m.python| :: LeadsToNamed(files, m.python[i].path, m.python[i].filename))
    && LeadsToFile(files, m.integrityPath)
  }

  /** The same manifest, with the place and hash of each component and the hashes of the other artifacts. */
  ghost predicate IsBuilt(w: World, m: Manifest, paths: map<string, string>, files: Files, at: string, n: Manifest) {
    && n.components.Keys == m.components.Keys == paths.Keys
    && (forall name | name in paths ::
         && n.components[name].path.Some? && EndsAt(files, paths[name], n.components[name].path.value)
         && HasHashOf(w, files, paths[name], n.components[name].sha256)
         && n.components[name] == m.components[name].(path := n.components[name].path,
                                                      sha256 := n.components[name].sha256))
    && |n.python| == |m.python|
    && (forall i | 0 <= i < |m.python| ::
         HasHashOf(w, files, m.python[i].path, n.python[i].sha256)
         && n.python[i] == m.python[i].(sha256 := n.python[i].sha256))
    && HasHashOf(w, files, m.integrityPath, n.integritySha256)
    && n == m.(components := n.components, python := n.python, integritySha256 := n.integritySha256,
               evidence := Evidence("built", "release_built", at))
  }

  /**
   Built evidence is accepted exactly if its source evidence is in order and all artifacts are staged.  It is
   then the source evidence in which each artifact has the hash of the bytes that its path leads to.
   */
  lemma BuiltMeans(w: World, declaration: Manifest, m: Manifest, paths: map<string, string>, files: Files, at: string)
    requires declaration.components.Keys == COMPONENTS
    ensures var n := After(w, declaration, m, BuiltStep(paths, files, at));
      && (Accepted(w, declaration, m, BuiltStep(paths, files, at)) <==>
          StartsFrom(w, declaration, m, at) && m.evidence.state in {"source", "built", "published"}
          && AreStaged(m, paths, files) && w.declared(n) && w.semantics(n, files))
      && (Accepted(w, declaration, m, BuiltStep(paths, files, at)) ==> IsBuilt(w, m, paths, files, at, n))
  {
    hide Projects, SameButEvidence, HasNoEvidence, Real, HasHashOf, ShaOf, IsBuilt, AreStaged, ArtifactsExist,
         HashesMatch, Staged, HashedPython;
    var n := BuiltOf(w, m, paths, files, at);
    ProjectsMeans(m, declaration);
    BuiltKeepsSource(w, declaration, m, paths, files, at);
    if Projects(m, declaration) && paths.Keys == COMPONENTS {
      SameComponents(m, declaration);
      StagedMeans(w, m, paths, files, at);
    } else if paths.Keys != COMPONENTS {
      NotStaged(m, paths, files);
    }
  }

  lemma NotStaged(m: Manifest, paths: map<string, string>, files: Files)
    ensures AreStaged(m, paths, files) ==> paths.Keys == COMPONENTS
  {
  }

  lemma StagedMeans(w: World, m: Manifest, paths: map<string, string>, files: Files, at: string)
    requires m.components.Keys == paths.Keys == COMPONENTS
    ensures var n := BuiltOf(w, m, paths, files, at);
      && (ArtifactsExist(m, paths, files) && HashesMatch(w, n, files) <==> AreStaged(m, paths, files))
      && (AreStaged(m, paths, files) ==> IsBuilt(w, m, paths, files, at, n))
  {
    hide Real, ShaOf, LeadsTo, IsFile, HasHashOf, LeadsToFile, LeadsToNamed, EndsAt, ComponentMatches, PythonMatches,
         IsBuilt;
    var n := BuiltOf(w, m, paths, files, at);
    forall name | name in paths
      ensures LeadsToFile(files, paths[name]) <==> IsFile(files, paths[name])
      ensures IsFile(files, paths[name]) ==> ComponentMatches(w, n.components[name], files)
    {
      ComponentIsStaged(w, files, m.components[name], paths[name]);
    }
    forall i | 0 <= i < |m.python|
      ensures LeadsToNamed(files, m.python[i].path, m.python[i].filename) <==>
        IsFile(files, m.python[i].path) && PythonMatches(w, n.python[i], files)
    {
      PythonIsHashed(w, files, m.python[i]);
    }
    StagedFile(w, files, m.integrityPath);
    if ArtifactsExist(m, paths, files) { BuiltIsWritten(w, m, paths, files, at); }
  }

  lemma BuiltIsWritten(w: World, m: Manifest, paths: map<string, string>, files: Files, at: string)
    requires m.components.Keys == paths.Keys && ArtifactsExist(m, paths, files)
    ensures IsBuilt(w, m, paths, files, at, BuiltOf(w, m, paths, files, at))
  {
    hide Real, ShaOf, IsFile, HasHashOf, EndsAt, ComponentMatches, PythonMatches;
    forall name | name in paths
      ensures var n := StagedOne(w, files, m.components[name], paths[name]);
        n.path.Some? && EndsAt(files, paths[name], n.path.value) && HasHashOf(w, files, paths[name], n.sha256)
    {
      ComponentIsStaged(w, files, m.components[name], paths[name]);
    }
    forall i | 0 <= i < |m.python|
      ensures HasHashOf(w, files, m.python[i].path, ShaOf(w, files, m.python[i].path))
    {
      PythonIsHashed(w, files, m.python[i]);
    }
    StagedFile(w, files, m.integrityPath);
    HashIsOfFile(w, files, m.integrityPath, ShaOf(w, files, m.integrityPath));
  }

  lemma ComponentIsStaged(w: World, files: Files, c: Component, path: string)
    ensures var n := StagedOne(w, files, c, path);
      && (LeadsToFile(files, path) <==> IsFile(files, path))
      && (IsFile(files, path) ==>
          && ComponentMatches(w, n, files) && n.path.Some? && EndsAt(files, path, n.path.value)
          && HasHashOf(w, files, path, n.sha256))
  {
    hide Real, ShaOf, LeadsTo, IsFile, HasHashOf, LeadsToFile, EndsAt;
    StagedFile(w, files, path);
    HashIsOfFile(w, files, path, ShaOf(w, files, path));
  }

  lemma PythonIsHashed(w: World, files: Files, a: PythonArtifact)
    ensures var n := a.(sha256 := ShaOf(w, files, a.path));
      && (LeadsToNamed(files, a.path, a.filename) <==> IsFile(files, a.path) && PythonMatches(w, n, files))
      && (IsFile(files, a.path) ==> HasHashOf(w, files, a.path, n.sha256))
  {
    hide Real, ShaOf, LeadsTo, IsFile, HasHashOf, LeadsToFile, LeadsToNamed, EndsAt;
    StagedFile(w, files, a.path);
    NamedIsLedTo(w, files, a.path, a.filename);
    HashIsOfFile(w, files, a.path, ShaOf(w, files, a.path));
    NamedIsFile(files, a.path, a.filename);
  }

  lemma NamedIsFile(files: Files, p: string, name: string)
    ensures LeadsTo(files, p, name) ==> IsFile(files, p)
  {
    hide IsFile;
  }

  lemma StagedFile(w: World, files: Files, p: string)
    ensures LeadsToFile(files, p) <==> IsFile(files, p)
    ensures IsFile(files, p) <==> ShaOf(w, files, p).Some?
    ensures IsFile(files, p) ==>
      && Real(files, p).Some? && EndsAt(files, p, Real(files, p).value)
      && ShaOf(w, files, Real(files, p).value) == ShaOf(w, files, p)
  {
    FileIsLedTo(w, files, p);
    RealIsEnd(files, p);
    hide Real, EndsAt;
    RealIsNoLink(files, p, {});
    if IsFile(files, p) {
      assert IsRegular(files, Real(files, p).value);
      RealIsNoLink(files, Real(files, p).value, {});
      assert Real(files, Real(files, p).value) == Real(files, p) by { RealIsFollow(files, Real(files, p).value); }
    }
  }

  lemma RealIsFollow(files: Files, p: string)
    ensures Real(files, p) == Follow(files, p, {})
  {
  }

  // ----------------------------------------------------------------------------- inventory

  /** The file is that of a released asset other than the inventory, or a listed file of the Console. */
  ghost predicate IsCovered(assets: seq<Asset>, listing: seq<string>, files: Files, p: string) {
    || (exists i, data ::
         0 <= i < |assets| && assets[i].name != "release-artifact-bom.sha256" && FileAt(files, assets[i].path, p, data))
    || (p in listing && p in files && files[p].Regular?)
  }

  /** The one asset with the name of the inventory, and the place that it leads to. */
  ghost predicate HasInventoryAt(assets: seq<Asset>, files: Files, q: string) {
    exists k ::
      && 0 <= k < |assets| && assets[k].name == "release-artifact-bom.sha256" && EndsAt(files, assets[k].path, q)
      && forall j | 0 <= j < |assets| && j != k :: assets[j].name != "release-artifact-bom.sha256"
  }

  /** An inventory has one place, at no covered file; all other assets lead to files, and no listed path is a link. */
  ghost predicate IsListable(assets: seq<Asset>, listing: seq<string>, files: Files) {
    && (exists q :: HasInventoryAt(assets, files, q) && !IsCovered(assets, listing, files, q))
    && (forall i | 0 <= i < |assets| && assets[i].name != "release-artifact-bom.sha256" ::
         LeadsToFile(files, assets[i].path))
    && forall p | p in listing && p in files :: files[p].Regular?
  }

  lemma CoveredMeans(w: World, assets: seq<Asset>, listing: seq<string>, files: Files)
    requires forall i | 0 <= i < |assets| && assets[i].name != INVENTORY_NAME :: IsFile(files, assets[i].path)
    ensures forall p :: p in Covered(assets, listing, files) <==> IsCovered(assets, listing, files, p)
  {
    hide Real, EndsAt;
    forall i | 0 <= i < |assets| && assets[i].name != INVENTORY_NAME
      ensures Real(files, assets[i].path).Some?
      ensures forall q :: (exists data :: FileAt(files, assets[i].path, q, data)) <==>
        Real(files, assets[i].path) == Some(q)
    {
      FileIsAt(w, files, assets[i].path);
      RealIsEnd(files, assets[i].path);
    }
    forall p ensures p in AssetPaths(assets, files) <==> exists i, data ::
        0 <= i < |assets| && assets[i].name != INVENTORY_NAME && FileAt(files, assets[i].path, p, data)
    {
      if p in AssetPaths(assets, files) {
        var i :| 0 <= i < |assets| && assets[i].name != INVENTORY_NAME && Real(files, assets[i].path) == Some(p);
        var data :| FileAt(files, assets[i].path, p, data);
      }
      if i, data :| 0 <= i < |assets| && assets[i].name != INVENTORY_NAME && FileAt(files, assets[i].path, p, data) {
        assert Real(files, assets[i].path) == Some(p);
      }
    }
  }

  /** An inventory can be made exactly if it is listable. */
  lemma ListableMeans(w: World, assets: seq<Asset>, listing: seq<string>, files: Files)
    ensures CanInventory(assets, listing, files) <==> IsListable(assets, listing, files)
  {
    hide Real, EndsAt, Covered, IsCovered, FileAt, IsFile, LeadsToFile;
    forall i | 0 <= i < |assets|
      ensures LeadsToFile(files, assets[i].path) <==> IsFile(files, assets[i].path)
      ensures forall q :: EndsAt(files, assets[i].path, q) <==> Real(files, assets[i].path) == Some(q)
    {
      FileIsLedTo(w, files, assets[i].path);
      RealIsEnd(files, assets[i].path);
    }
    if forall i | 0 <= i < |assets| && assets[i].name != INVENTORY_NAME :: IsFile(files, assets[i].path) {
      CoveredMeans(w, assets, listing, files);
      if CanInventory(assets, listing, files) {
        var k :| 0 <= k < |assets| && IsOnlyInventory(assets, k);
        var q := Real(files, assets[k].path).value;
        assert EndsAt(files, assets[k].path, q) && HasInventoryAt(assets, files, q);
        assert q !in Covered(assets, listing, files);
      }
      if IsListable(assets, listing, files) {
        var q :| HasInventoryAt(assets, files, q) && !IsCovered(assets, listing, files, q);
        var k :| 0 <= k < |assets| && assets[k].name == INVENTORY_NAME && EndsAt(files, assets[k].path, q)
          && forall j | 0 <= j < |assets| && j != k :: assets[j].name != INVENTORY_NAME;
        assert IsOnlyInventory(assets, k);
      }
    }
  }

  /**
   The inventory has one line for each covered file, in order, with the hash of its bytes.  It is written to its
   place, and nothing else is.
   */
  lemma InventoryMeans(w: World, assets: seq<Asset>, listing: seq<string>, files: Files, files': Files,
                       lines: seq<Line>, inventory: string)
    requires CanInventory(assets, listing, files)
    requires Inventoried(w.hash, w.render, assets, listing, files, files', lines, inventory)
    ensures HasInventoryAt(assets, files, inventory)
    ensures forall i, j | 0 <= i < j < |lines| :: Less(lines[i].path, lines[j].path)
    ensures forall p :: IsCovered(assets, listing, files, p) <==> exists i :: 0 <= i < |lines| && lines[i].path == p
    ensures forall i | 0 <= i < |lines| ::
      && lines[i].path in files && files[lines[i].path].Regular?
      && lines[i].sha256 == w.hash(files[lines[i].path].data)
    ensures files' == files[inventory := Regular(w.render(lines))]
  {
    hide Real, EndsAt, Covered, IsCovered, FileAt, IsFile;
    CoveredMeans(w, assets, listing, files);
    var k :| 0 <= k < |assets| && IsOnlyInventory(assets, k) && Real(files, assets[k].path) == Some(inventory);
    RealIsEnd(files, assets[k].path);
    forall i, j | 0 <= i < j < |lines| ensures Less(lines[i].path, lines[j].path) {
      assert Less(LinePaths(lines)[i], LinePaths(lines)[j]);
    }
    forall p ensures p in LinePaths(lines) <==> exists i :: 0 <= i < |lines| && lines[i].path == p {
      if p in LinePaths(lines) { var i :| 0 <= i < |lines| && LinePaths(lines)[i] == p; }
      if i :| 0 <= i < |lines| && lines[i].path == p { assert LinePaths(lines)[i] == p; }
    }
  }

  // ----------------------------------------------------------------------------- published

  /** Each Python artifact is supplied once: the built bytes, at an address of its own that ends in its name. */
  predicate PythonIsSupplied(w: World, python: seq<PythonArtifact>, supplied: map<string, (string, string)>) {
    && python != [] && supplied.Keys == (set i | 0 <= i < |python| :: python[i].filename)
    && (forall i | 0 <= i < |python| ::
         var (url, sha256) := supplied[python[i].filename];
         python[i].sha256 == Some(sha256) && w.isSha(sha256) && w.isUrl(url) && w.endsIn(url, python[i].filename))
    && forall i, j | 0 <= i < |python| && 0 <= j < |python| && i != j ::
         && python[i].filename != python[j].filename
         && supplied[python[i].filename].0 != supplied[python[j].filename].0
  }

  /** Both paths lead to one place of this name. */
  ghost predicate LeadTogether(files: Files, x: string, y: string, name: string) {
    exists q :: EndsAt(files, x, q) && EndsAt(files, y, q) && IsLastPart(name, q)
  }

  /** Each asset is supplied once, by a path that leads where the declared path does, to its name. */
  ghost predicate AssetsAreSupplied(assets: seq<ReleaseAsset>, supplied: map<string, string>, files: Files) {
    && assets != [] && supplied.Keys == (set i | 0 <= i < |assets| :: assets[i].asset.name)
    && (forall i | 0 <= i < |assets| ::
         LeadTogether(files, assets[i].asset.path, supplied[assets[i].asset.name], assets[i].asset.name))
    && forall i, j | 0 <= i < |assets| && 0 <= j < |assets| && i != j :: assets[i].asset.name != assets[j].asset.name
  }

  /** Each public artifact has an address of its own, and a hash is supplied for it. */
  predicate PublicIsSupplied(w: World, artifacts: seq<PublicArtifact>, supplied: map<string, string>) {
    && artifacts != [] && supplied.Keys == (set i | 0 <= i < |artifacts| :: artifacts[i].url)
    && (forall i | 0 <= i < |artifacts| :: w.isSha(supplied[artifacts[i].url]))
    && forall i, j | 0 <= i < |artifacts| && 0 <= j < |artifacts| && i != j :: artifacts[i].url != artifacts[j].url
  }

  /** A digest for the manifest, and different ones for the two platforms. */
  predicate DigestsAreSupplied(w: World, p: Publication) {
    && w.isDigest(p.manifestDigest) && p.platformDigests.Keys == {"linux/amd64", "linux/arm64"}
    && w.isDigest(p.platformDigests["linux/amd64"]) && w.isDigest(p.platformDigests["linux/arm64"])
    && p.platformDigests["linux/amd64"] != p.platformDigests["linux/arm64"]
  }

  /** What a publication starts from: built evidence that is true of the files, and supplies that fit it. */
  ghost predicate CanPublish(w: World, declaration: Manifest, m: Manifest, p: Publication, listing: seq<string>,
                             files: Files, at: string) {
    && StartsFrom(w, declaration, m, at) && m.evidence.state in {"built", "published"}
    && HashesAreTrue(w, m, files) && w.semantics(m, files)
    && PythonIsSupplied(w, m.python, p.pypi) && AssetsAreSupplied(m.assets, p.assetPaths, files)
    && PublicIsSupplied(w, m.publicArtifacts, p.publicHashes) && DigestsAreSupplied(w, p)
    && IsListable(AssetsOf(m.assets), listing, files)
  }

  lemma PythonSupplied(w: World, python: seq<PythonArtifact>, supplied: map<string, (string, string)>)
    ensures PythonPublishable(w, python, supplied) <==> PythonIsSupplied(w, python, supplied)
  {
    var names := FileNames(python, |python|);
    assert names == set i | 0 <= i < |python| :: python[i].filename;
    if supplied.Keys == names {
      forall i | 0 <= i < |python| ensures python[i].filename in supplied {
        assert python[i].filename in names;
      }
    }
  }

  lemma AssetsSupplied(assets: seq<ReleaseAsset>, supplied: map<string, string>, files: Files)
    ensures AssetsPublishable(assets, supplied, files) <==> AssetsAreSupplied(assets, supplied, files)
  {
    hide AssetSupplied, LeadTogether;
    if supplied.Keys == set i | 0 <= i < |assets| :: assets[i].asset.name {
      forall i | 0 <= i < |assets|
        ensures assets[i].asset.name in supplied
        ensures AssetSupplied(assets[i].asset, supplied, files) <==>
          LeadTogether(files, assets[i].asset.path, supplied[assets[i].asset.name], assets[i].asset.name)
      {
        assert assets[i].asset.name in supplied.Keys;
        SuppliedLeads(assets[i].asset, supplied, files);
      }
    }
  }

  lemma SuppliedLeads(a: Asset, supplied: map<string, string>, files: Files)
    requires a.name in supplied
    ensures AssetSupplied(a, supplied, files) <==> LeadTogether(files, a.path, supplied[a.name], a.name)
  {
    hide Real, EndsAt, BaseName, IsLastPart;
    RealIsEnd(files, a.path);
    RealIsEnd(files, supplied[a.name]);
    if Real(files, a.path).Some? { BaseNameIsLast(a.name, Real(files, a.path).value); }
  }

  lemma PublicSupplied(w: World, artifacts: seq<PublicArtifact>, supplied: map<string, string>)
    ensures PublicPublishable(w, artifacts, supplied) <==> PublicIsSupplied(w, artifacts, supplied)
  {
    if supplied.Keys == set i | 0 <= i < |artifacts| :: artifacts[i].url {
      forall i | 0 <= i < |artifacts| ensures artifacts[i].url in supplied {
        assert artifacts[i].url in supplied.Keys;
      }
    }
  }

  lemma DigestsSupplied(w: World, p: Publication)
    ensures DigestsPublishable(w, p) <==> DigestsAreSupplied(w, p)
  {
  }

  /** A publication goes ahead exactly if all it needs is there and fits. */
  lemma PublishableMeans(w: World, declaration: Manifest, m: Manifest, p: Publication, listing: seq<string>,
                         files: Files, at: string)
    ensures Publishable(w, declaration, m, p, listing, files, at) <==>
      CanPublish(w, declaration, m, p, listing, files, at)
  {
    hide Projects, SameButEvidence, HasNoEvidence, HashesMatch, HashesAreTrue, PythonPublishable, PythonIsSupplied,
         AssetsPublishable, AssetsAreSupplied, PublicPublishable, PublicIsSupplied, DigestsPublishable,
         DigestsAreSupplied, CanInventory, IsListable;
    ProjectsMeans(m, declaration);
    HashesMeans(w, m, files);
    PythonSupplied(w, m.python, p.pypi);
    AssetsSupplied(m.assets, p.assetPaths, files);
    PublicSupplied(w, m.publicArtifacts, p.publicHashes);
    DigestsSupplied(w, p);
    ListableMeans(w, AssetsOf(m.assets), listing, files);
  }

  /** The addresses of the release, public artifacts and assets; an asset's is its own and ends in its name. */
  predicate AddressesAreDeclared(w: World, m: Manifest) {
    && w.isUrl(m.releaseUrl)
    && (forall i | 0 <= i < |m.publicArtifacts| :: w.isUrl(m.publicArtifacts[i].url))
    && (forall i | 0 <= i < |m.assets| :: w.isUrl(m.assets[i].url) && w.endsIn(m.assets[i].url, m.assets[i].asset.name))
    && forall i, j | 0 <= i < |m.assets| && 0 <= j < |m.assets| && i != j :: m.assets[i].url != m.assets[j].url
  }

  /** The same manifest, with all that was supplied, and the hashes of the released files. */
  ghost predicate IsPublished(w: World, m: Manifest, p: Publication, files: Files, at: string, n: Manifest) {
    && |n.python| == |m.python| && |n.publicArtifacts| == |m.publicArtifacts| && |n.assets| == |m.assets|
    && (forall i | 0 <= i < |m.python| ::
         m.python[i].filename in p.pypi
         && n.python[i] == m.python[i].(url := Some(p.pypi[m.python[i].filename].0)))
    && (forall i | 0 <= i < |m.publicArtifacts| ::
         m.publicArtifacts[i].url in p.publicHashes
         && n.publicArtifacts[i] == m.publicArtifacts[i].(sha256 := Some(p.publicHashes[m.publicArtifacts[i].url])))
    && (forall i | 0 <= i < |m.assets| ::
         HasHashOf(w, files, m.assets[i].asset.path, n.assets[i].sha256)
         && n.assets[i] == m.assets[i].(sha256 := n.assets[i].sha256))
    && n.platformDigests.Keys == p.platformDigests.Keys
    && (forall k | k in p.platformDigests :: n.platformDigests[k] == Some(p.platformDigests[k]))
    && n == m.(python := n.python, publicArtifacts := n.publicArtifacts, assets := n.assets,
               manifestDigest := Some(p.manifestDigest), platformDigests := n.platformDigests,
               evidence := Evidence("published", "release_published", at))
  }

  /**
   Published evidence is accepted exactly if the publication goes ahead, the addresses and both platforms are
   declared, and what was built is still there once the inventory is written.
   */
  lemma PublishedMeans(w: World, declaration: Manifest, m: Manifest, p: Publication, listing: seq<string>,
                       files: Files, at: string, files': Files, lines: seq<Line>, inventory: string)
    requires Inventoried(w.hash, w.render, AssetsOf(m.assets), listing, files, files', lines, inventory)
    ensures var n := PublishedOf(w, m, p, files', at);
      Publishable(w, declaration, m, p, listing, files, at) && PublishedAccepted(w, declaration, n, files') <==>
        && CanPublish(w, declaration, m, p, listing, files, at)
        && declaration.platformDigests.Keys == {"linux/amd64", "linux/arm64"} && AddressesAreDeclared(w, m)
        && w.declared(n) && w.semantics(n, files') && HashesAreTrue(w, m, files')
    ensures Publishable(w, declaration, m, p, listing, files, at) ==>
      IsPublished(w, m, p, files', at, PublishedOf(w, m, p, files', at))
  {
    hide Inventoried, Publishable, CanPublish, PublishedAccepted, PublishedOf, IsPublished, HashesAreTrue, SparesBuilt;
    PublishableMeans(w, declaration, m, p, listing, files, at);
    if Publishable(w, declaration, m, p, listing, files, at) {
      PublicationSucceeds(w, declaration, m, p, listing, files, at, files', lines, inventory);
      PublishableParts(w, declaration, m, p, listing, files, at);
      HashesAfterwards(w, m, AssetsOf(m.assets), listing, files, files', lines, inventory);
      HashesMeans(w, m, files');
      AssetsAreThere(w, m, p, listing, files, files', lines, inventory);
      PublishedIsWritten(w, m, p, files, files', at);
    }
  }

  lemma PublishableParts(w: World, declaration: Manifest, m: Manifest, p: Publication, listing: seq<string>,
                         files: Files, at: string)
    requires Publishable(w, declaration, m, p, listing, files, at)
    ensures PublicationFits(w, m, p, files) && CanInventory(AssetsOf(m.assets), listing, files)
    ensures HashesMatch(w, m, files)
  {
    hide PublicationFits, CanInventory, HashesMatch;
  }

  lemma PublishedIsWritten(w: World, m: Manifest, p: Publication, files: Files, files': Files, at: string)
    requires PublicationFits(w, m, p, files)
    requires forall i | 0 <= i < |m.assets| :: IsFile(files', m.assets[i].asset.path)
    ensures IsPublished(w, m, p, files', at, PublishedOf(w, m, p, files', at))
  {
    hide AssetsPublishable, PublicPublishable, PythonPublishable, DigestsPublishable, HasHashOf, IsFile, ShaOf;
    PublicSupplied(w, m.publicArtifacts, p.publicHashes);
    PythonSupplied(w, m.python, p.pypi);
    forall i | 0 <= i < |m.python| ensures m.python[i].filename in p.pypi {
      assert m.python[i].filename in p.pypi.Keys;
    }
    forall i | 0 <= i < |m.publicArtifacts| ensures m.publicArtifacts[i].url in p.publicHashes {
      assert m.publicArtifacts[i].url in p.publicHashes.Keys;
    }
    forall i | 0 <= i < |m.assets|
      ensures HasHashOf(w, files', m.assets[i].asset.path, ShaOf(w, files', m.assets[i].asset.path))
    {
      StagedFile(w, files', m.assets[i].asset.path);
      HashIsOfFile(w, files', m.assets[i].asset.path, ShaOf(w, files', m.assets[i].asset.path));
    }
  }
}
