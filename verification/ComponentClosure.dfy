/**
 Verification of a published bundle and of the components embedded in it, at any
 depth (src/spl/embedded.py:291-302, 571-689, 692-822, 836-888).  Hashes,
 signatures, ZIP archives and JSON are given functions of a `World`.
 */
module ComponentClosure {
  import opened Common
  import T = Text

  type Bytes = seq<bv8>

  const MAX_BUNDLE_BYTES: nat := 64 * 1024 * 1024
  const MAX_MEMBER_COUNT: nat := 4096
  const MAX_MEMBER_BYTES: nat := 64 * 1024 * 1024
  const MAX_COMPRESSION_RATIO: nat := 100
  const MAX_DEPTH: nat := 32

  datatype Schema = Legacy | CurrentProcess | Unsupported

  datatype Declared = Declared(path: string, size: int, sha256: string)

  datatype Execution = ObjectYaml(member: string) | AdapterModule(name: string, member: string) | OtherExecution

  /** An entry of the component inventory; `complete` says that it has all the keys a component needs. */
  datatype Component = Component(
    path: string, complete: bool, kind: string, identity: string, versionId: string, version: string,
    contentHash: string, bundleHash: string, manifestHash: string, bundleMember: string, manifestMember: string,
    executionRoot: string, execution: Execution)

  datatype Manifest = Manifest(
    schema: Schema, bundleFormat: string, bundleHash: string, entryType: string, entryId: string, versionId: string,
    version: string, hasContract: bool, members: seq<Declared>, components: seq<Component>)

  datatype Signature = Signature(keyId: string, algorithm: string, value: string, carriesKey: bool)

  datatype Envelope = Envelope(manifest: Manifest, manifestHash: string, bundleHash: string, signature: Signature)

  datatype Release = Release(envelope: Envelope, bundle: Bytes)

  /** A member of an archive as its directory lists it, with the bytes read from it. */
  datatype Info = Info(name: string, regular: bool, fileSize: nat, compressSize: nat, stored: bool, data: Bytes)

  datatype World = World(
    hash: Bytes -> string,
    canonical: Manifest -> Bytes,
    signed: (Bytes, string, string) -> bool,           // key, message, signature
    unzip: Bytes -> Option<seq<Info>>,
    decode: Bytes -> Option<Envelope>,
    isOrigin: string -> bool,                          // an absolute HTTPS or loopback origin
    contract: (Manifest, seq<Info>) -> bool,           // the current-process contract
    nodeRemote: Bytes -> bool,
    adapterModule: Bytes -> Option<Bytes>,             // the module made from adapter.json
    adapterAgrees: (Bytes, Manifest) -> bool,          // its dependencies are the signed ones
    fold: string -> string)

  type Keys = map<string, map<string, Bytes>>          // by origin, then by key id

  // ------------------------------------------------------------------------ origins

  function StripSlashes(s: string): string {
    if s != "" && s[|s| - 1] == '/' then StripSlashes(s[..|s| - 1]) else s
  }

  lemma {:induction false} StripTwice(s: string)
    ensures StripSlashes(StripSlashes(s)) == StripSlashes(s)
  {
    if s != "" && s[|s| - 1] == '/' { StripTwice(s[..|s| - 1]); }
  }

  // ------------------------------------------------------------------ archive members

  /** `_safe_member_name`: no backslash or NUL, and the path is normal, relative and stays inside. */
  predicate SafeMember(name: string) {
    && name != "" && '\\' !in name && '\0' !in name
    && (name == "." || forall part | part in T.Split(name, '/') :: part != "" && part != "." && part != "..")
  }

  predicate IsDigest(s: string) { |s| == 64 && forall i | 0 <= i < 64 :: '0' <= s[i] <= '9' || 'a' <= s[i] <= 'f' }

  predicate DeclaredFits(d: Declared) { SafeMember(d.path) && 0 <= d.size <= MAX_MEMBER_BYTES && IsDigest(d.sha256) }

  function TotalSize(members: seq<Declared>): int {
    if members == [] then 0 else TotalSize(members[..|members| - 1]) + members[|members| - 1].size
  }

  predicate DistinctFolds(w: World, names: seq<string>) {
    forall i, j | 0 <= i < j < |names| :: w.fold(names[i]) != w.fold(names[j])
  }

  function DeclaredNames(members: seq<Declared>): (r: seq<string>)
    ensures |r| == |members| && forall i | 0 <= i < |r| :: r[i] == members[i].path
  {
    seq(|members|, i requires 0 <= i < |members| => members[i].path)
  }

  function InfoNames(infos: seq<Info>): (r: seq<string>)
    ensures |r| == |infos| && forall i | 0 <= i < |r| :: r[i] == infos[i].name
  {
    seq(|infos|, i requires 0 <= i < |infos| => infos[i].name)
  }

  /** A closed inventory that an archive may have. */
  predicate InventoryFits(w: World, members: seq<Declared>) {
    && 0 < |members| <= MAX_MEMBER_COUNT && TotalSize(members) <= MAX_BUNDLE_BYTES
    && (forall i | 0 <= i < |members| :: DeclaredFits(members[i]))
    && DistinctFolds(w, DeclaredNames(members))
  }

  predicate InfoFits(info: Info) {
    && SafeMember(info.name) && info.regular && info.fileSize <= MAX_MEMBER_BYTES && info.stored
    && (info.compressSize == 0 ==> info.fileSize == 0)
    && (info.compressSize > 0 ==> info.fileSize <= MAX_COMPRESSION_RATIO * info.compressSize)
  }

  /** The bytes of a member are those that the inventory declares under its name. */
  predicate AsDeclared(w: World, members: seq<Declared>, info: Info) {
    exists j :: 0 <= j < |members| && members[j] == Declared(info.name, |info.data|, w.hash(info.data))
  }

  /** An archive that is its inventory, member for member. */
  predicate ArchiveExact(w: World, members: seq<Declared>, infos: seq<Info>) {
    && InventoryFits(w, members) && |infos| == |members|
    && (forall i | 0 <= i < |infos| :: InfoFits(infos[i]) && AsDeclared(w, members, infos[i]))
    && DistinctFolds(w, InfoNames(infos))
  }

  function MemberBytes(infos: seq<Info>, name: string): Option<Bytes> {
    if infos == [] then None
    else if infos[|infos| - 1].name == name then Some(infos[|infos| - 1].data)
    else MemberBytes(infos[..|infos| - 1], name)
  }

  // ----------------------------------------------------------------- sound releases

  /** Signed by a key that is trusted for this origin, over the hashes of exactly this manifest and bundle. */
  predicate Authentic(w: World, keys: Keys, origin: string, r: Release) {
    var e, m, s := r.envelope, r.envelope.manifest, r.envelope.signature;
    && m.schema != Unsupported && m.bundleFormat == "zip-store-v1"
    && w.hash(w.canonical(m)) == e.manifestHash
    && |r.bundle| <= MAX_BUNDLE_BYTES && w.hash(r.bundle) == e.bundleHash == m.bundleHash
    && !s.carriesKey && origin in keys && s.keyId in keys[origin]
    && s.algorithm == "ed25519" && s.keyId == "ed25519-sha256:" + w.hash(keys[origin][s.keyId])
    && w.signed(keys[origin][s.keyId], e.manifestHash + ":" + e.bundleHash, s.value)
  }

  function Infos(w: World, r: Release): seq<Info> {
    match w.unzip(r.bundle)
    case Some(infos) => infos
    case None => []
  }

  /** The release embedded for a component: two members of its parent's archive. */
  function Embedded(w: World, parent: Release, c: Component): Option<Release> {
    var bundle, text := MemberBytes(Infos(w, parent), c.bundleMember), MemberBytes(Infos(w, parent), c.manifestMember);
    if !SafeMember(c.bundleMember) || !SafeMember(c.manifestMember) || bundle.None? || text.None? then None
    else
      match w.decode(text.value)
      case Some(envelope) => Some(Release(envelope, bundle.value))
      case None => None
  }

  function Dotted(s: string): string { T.Join(T.Split(s, '/'), '.') }

  function YamlOf(w: World, r: Release): Bytes {
    match MemberBytes(Infos(w, r), "object.yaml")
    case Some(data) => data
    case None => []
  }

  /** The parent runs exactly the signed bytes of the component. */
  predicate RunsSigned(w: World, parent: Release, c: Component, child: Release) {
    var infos, root := Infos(w, parent), c.executionRoot;
    && SafeMember(root + "/component")
    && (forall i | 0 <= i < |Infos(w, child)| ::
          MemberBytes(infos, root + "/" + Infos(w, child)[i].name) == Some(Infos(w, child)[i].data))
    && !w.nodeRemote(YamlOf(w, child))
    && if c.kind == "object" then
         c.execution == ObjectYaml(root + "/object.yaml")
         && MemberBytes(infos, root + "/object.yaml") == Some(YamlOf(w, child))
       else
         match MemberBytes(Infos(w, child), "adapter.json")
         case None => false
         case Some(text) =>
           && w.adapterModule(text).Some?
           && (parent.envelope.manifest.schema == CurrentProcess ==> w.adapterAgrees(text, child.envelope.manifest))
           && c.execution == AdapterModule(Dotted(root) + ".adapter", root + "/adapter.py")
           && MemberBytes(infos, root + "/adapter.py") == w.adapterModule(text)
  }

  /** The embedded release is the one that the parent declares. */
  predicate AsParentDeclares(w: World, parent: Release, c: Component, child: Release) {
    var m := child.envelope.manifest;
    && child.envelope.bundleHash == c.bundleHash == c.contentHash && child.envelope.manifestHash == c.manifestHash
    && (c.kind == "object" ==> m.schema == parent.envelope.manifest.schema)
    && m.entryType == c.kind && m.entryId == c.identity && m.versionId == c.versionId && m.version == c.version
    && RunsSigned(w, parent, c, child)
  }

  predicate ComponentFits(w: World, parent: Release, c: Component) {
    c.complete && Embedded(w, parent, c).Some? && AsParentDeclares(w, parent, c, Embedded(w, parent, c).value)
  }

  function RootCount(components: seq<Component>): nat {
    if components == [] then 0
    else RootCount(components[..|components| - 1]) + if components[|components| - 1].path == "root" then 1 else 0
  }

  predicate DistinctPaths(components: seq<Component>) {
    && (forall i | 0 <= i < |components| :: components[i].path != "")
    && (forall i, j | 0 <= i < j < |components| :: components[i].path != components[j].path)
  }

  predicate ComponentsFit(w: World, r: Release) {
    var components := r.envelope.manifest.components;
    && components != [] && DistinctPaths(components) && RootCount(components) == 1
    && forall i | 0 <= i < |components| && components[i].path != "root" :: ComponentFits(w, r, components[i])
  }

  predicate ContractHolds(w: World, r: Release) {
    if r.envelope.manifest.schema == CurrentProcess then w.contract(r.envelope.manifest, Infos(w, r))
    else !r.envelope.manifest.hasContract
  }

  /** Everything about one release that does not look inside its components. */
  predicate Sound(w: World, keys: Keys, origin: string, r: Release) {
    && Authentic(w, keys, origin, r) && w.unzip(r.bundle).Some?
    && ArchiveExact(w, r.envelope.manifest.members, Infos(w, r))
    && ComponentsFit(w, r) && ContractHolds(w, r)
  }

  /** The release reached by following component indices downward; the root entry leads nowhere. */
  function At(w: World, r: Release, path: seq<nat>): Option<Release>
    decreases |path|
  {
    if path == [] then Some(r)
    else
      var components := r.envelope.manifest.components;
      if path[0] >= |components| || components[path[0]].path == "root" then None
      else
        match Embedded(w, r, components[path[0]])
        case None => None
        case Some(child) => At(w, child, path[1..])
  }

  /** Wherever one gets by going down, the release there is sound and not too deep. */
  ghost predicate Closed(w: World, keys: Keys, origin: string, r: Release, depth: nat) {
    forall path | At(w, r, path).Some? :: SoundAt(w, keys, origin, At(w, r, path).value, depth + |path|)
  }

  predicate SoundAt(w: World, keys: Keys, origin: string, r: Release, depth: nat) {
    depth <= MAX_DEPTH && Sound(w, keys, origin, r)
  }

  /** The child at component `i`, if there is one. */
  function ChildAt(w: World, r: Release, i: nat): Option<Release> { At(w, r, [i]) }

  lemma AtBelow(w: World, r: Release, i: nat, rest: seq<nat>)
    ensures At(w, r, [i] + rest) == match ChildAt(w, r, i) { case Some(child) => At(w, child, rest) case None => None }
  {
    hide Embedded;
    assert ([i] + rest)[1..] == rest && ([i] + rest)[0] == i && [i][1..] == [];
    var components := r.envelope.manifest.components;
    if i < |components| && components[i].path != "root" && Embedded(w, r, components[i]).Some? {
      assert At(w, Embedded(w, r, components[i]).value, []) == Embedded(w, r, components[i]);
    }
  }

  /** A release is closed if it is sound and all its components are closed one level down. */
  lemma ClosedUnfolds(w: World, keys: Keys, origin: string, r: Release, depth: nat)
    ensures Closed(w, keys, origin, r, depth) <==>
      SoundAt(w, keys, origin, r, depth) && forall i | ChildAt(w, r, i).Some? ::
        Closed(w, keys, origin, ChildAt(w, r, i).value, depth + 1)
  {
    hide Sound, Embedded;
    assert At(w, r, []) == Some(r);
    if Closed(w, keys, origin, r, depth) {
      forall i | ChildAt(w, r, i).Some? ensures Closed(w, keys, origin, ChildAt(w, r, i).value, depth + 1) {
        ClosedChild(w, keys, origin, r, depth, i);
      }
    }
    if SoundAt(w, keys, origin, r, depth) && forall i | ChildAt(w, r, i).Some? ::
      Closed(w, keys, origin, ChildAt(w, r, i).value, depth + 1) {
      forall path | At(w, r, path).Some? ensures SoundAt(w, keys, origin, At(w, r, path).value, depth + |path|) {
        if path != [] {
          assert path == [path[0]] + path[1..];
          AtBelow(w, r, path[0], path[1..]);
          assert Closed(w, keys, origin, ChildAt(w, r, path[0]).value, depth + 1);
          assert depth + 1 + |path[1..]| == depth + |path|;
        }
      }
    }
  }

  lemma ClosedChild(w: World, keys: Keys, origin: string, r: Release, depth: nat, i: nat)
    requires Closed(w, keys, origin, r, depth) && ChildAt(w, r, i).Some?
    ensures Closed(w, keys, origin, ChildAt(w, r, i).value, depth + 1)
  {
    hide Sound, Embedded;
    var child := ChildAt(w, r, i).value;
    forall path | At(w, child, path).Some?
      ensures SoundAt(w, keys, origin, At(w, child, path).value, depth + 1 + |path|)
    {
      AtBelow(w, r, i, path);
      assert |[i] + path| == 1 + |path|;
    }
  }

  // --------------------------------------------------------------------- verification

  method SumSizes(members: seq<Declared>) returns (total: int)
    ensures total == TotalSize(members)
  {
    total := 0;
    for i := 0 to |members|
      invariant total == TotalSize(members[..i])
    {
      assert members[..i + 1][..i] == members[..i];
      total := total + members[i].size;
    }
    assert members[..|members|] == members;
  }

  function Folds(w: World, names: seq<string>): set<string> { set i | 0 <= i < |names| :: w.fold(names[i]) }

  lemma DistinctGrows(w: World, names: seq<string>, i: nat)
    requires i < |names|
    ensures Folds(w, names[..i + 1]) == Folds(w, names[..i]) + {w.fold(names[i])}
    ensures DistinctFolds(w, names[..i + 1]) <==>
      DistinctFolds(w, names[..i]) && w.fold(names[i]) !in Folds(w, names[..i])
  {
    var more, less := names[..i + 1], names[..i];
    assert more == less + [names[i]];
    forall f | f in Folds(w, less) ensures f in Folds(w, more) {
      var j :| 0 <= j < i && w.fold(less[j]) == f;
      assert w.fold(more[j]) == f;
    }
    assert w.fold(more[i]) in Folds(w, more);
    if DistinctFolds(w, more) {
      forall a, b | 0 <= a < b < i
        ensures w.fold(less[a]) != w.fold(less[b])
      {
        assert w.fold(more[a]) != w.fold(more[b]);
      }
      forall a | 0 <= a < i ensures w.fold(less[a]) != w.fold(names[i]) { assert w.fold(more[a]) != w.fold(more[i]); }
    }
    if DistinctFolds(w, less) && w.fold(names[i]) !in Folds(w, less) {
      forall a, b | 0 <= a < b < i + 1 ensures w.fold(more[a]) != w.fold(more[b]) {
        assert w.fold(less[a]) in Folds(w, less);
        if b < i { assert w.fold(less[a]) != w.fold(less[b]); }
      }
    }
  }

  lemma DistinctStays(w: World, names: seq<string>, i: nat)
    requires i <= |names| && DistinctFolds(w, names)
    ensures DistinctFolds(w, names[..i])
  {
  }

  /** The declared inventory, if an archive may have it. */
  method ReadInventory(w: World, members: seq<Declared>) returns (ok: bool)
    ensures ok <==> InventoryFits(w, members)
  {
    hide DistinctFolds, DeclaredFits, Folds;
    if members == [] { return false; }
    var names := DeclaredNames(members);
    var declared: set<string> := {};
    NothingFolded(w, names);
    for i := 0 to |members|
      invariant declared == Folds(w, names[..i]) && DistinctFolds(w, names[..i])
      invariant forall j | 0 <= j < i :: DeclaredFits(members[j])
    {
      var d := members[i];
      DistinctGrows(w, names, i);
      if !DeclaredFits(d) { return false; }
      if w.fold(d.path) in declared {
        if DistinctFolds(w, names) { DistinctStays(w, names, i + 1); }
        return false;
      }
      declared := declared + {w.fold(d.path)};
    }
    assert names[..|members|] == names;
    var total := SumSizes(members);
    ok := |members| <= MAX_MEMBER_COUNT && total <= MAX_BUNDLE_BYTES;
  }

  lemma NothingFolded(w: World, names: seq<string>)
    ensures Folds(w, names[..0]) == {} && DistinctFolds(w, names[..0])
  {
  }

  /** The members of an archive, if it is exactly its declared inventory. */
  method ValidatedArchiveMembers(w: World, m: Manifest, bundle: Bytes) returns (r: Result<seq<Info>>)
    ensures r.Ok? <==> w.unzip(bundle).Some? && ArchiveExact(w, m.members, w.unzip(bundle).value)
    ensures r.Ok? ==> r.value == w.unzip(bundle).value
  {
    hide DistinctFolds, InventoryFits, InfoFits, Folds;
    var fits := ReadInventory(w, m.members);
    if !fits { return Err("public_manifest_invalid"); }
    if w.unzip(bundle).None? { return Err("public_archive_invalid"); }
    var infos := w.unzip(bundle).value;
    if |infos| != |m.members| || |infos| > MAX_MEMBER_COUNT {
      InventoryCount(w, m.members);
      return Err("public_archive_disagreement");
    }
    var names := InfoNames(infos);
    var observed: set<string> := {};
    NothingFolded(w, names);
    for i := 0 to |infos|
      invariant observed == Folds(w, names[..i]) && DistinctFolds(w, names[..i])
      invariant forall j | 0 <= j < i :: InfoFits(infos[j]) && AsDeclared(w, m.members, infos[j])
    {
      var info := infos[i];
      DistinctGrows(w, names, i);
      if !InfoFits(info) { return Err("public_archive_unsafe"); }
      if w.fold(info.name) in observed {
        if DistinctFolds(w, names) { DistinctStays(w, names, i + 1); }
        return Err("public_archive_unsafe");
      }
      if !AsDeclared(w, m.members, info) { return Err("public_archive_disagreement"); }
      observed := observed + {w.fold(info.name)};
    }
    assert names[..|infos|] == names;
    return Ok(infos);
  }

  lemma InventoryCount(w: World, members: seq<Declared>)
    requires InventoryFits(w, members)
    ensures |members| <= MAX_MEMBER_COUNT
  {
  }

  /**
   A bundle is accepted exactly when an origin and keys are given and everything
   that can be reached by going down through its components is sound under that
   same origin's keys, at a depth of no more than 32.
   */
  method VerifyPublicBundle(w: World, keys: Option<Keys>, registryUrl: Option<string>, r: Release, depth: nat)
    returns (result: Result<Manifest>)
    ensures result.Ok? <==> registryUrl.Some? && keys.Some? && w.isOrigin(StripSlashes(registryUrl.value))
                            && Closed(w, keys.value, StripSlashes(registryUrl.value), r, depth)
    ensures result.Ok? ==> result.value == r.envelope.manifest
    decreases if depth > MAX_DEPTH then 0 else MAX_DEPTH + 1 - depth, 1
  {
    hide Authentic, ArchiveExact, ContractHolds, ComponentsFit, At, Embedded, Closed;
    if registryUrl.None? || keys.None? { return Err("public_trust_anchor_required"); }
    var origin := StripSlashes(registryUrl.value);
    StripTwice(registryUrl.value);
    if !w.isOrigin(origin) { return Err("ValueError"); }
    ClosedUnfolds(w, keys.value, origin, r, depth);
    if !Authentic(w, keys.value, origin, r) { return Err("public_signature_invalid"); }
    if depth > MAX_DEPTH { return Err("public_manifest_invalid"); }
    var members := ValidatedArchiveMembers(w, r.envelope.manifest, r.bundle);
    if members.Err? { return Err(members.code); }
    var closed := VerifyComponentClosure(w, keys.value, origin, r, depth);
    if !closed { return Err("public_resolution_mismatch"); }
    if !ContractHolds(w, r) { return Err("public_contract_invalid"); }
    return Ok(r.envelope.manifest);
  }

  lemma RootsGrow(components: seq<Component>, i: nat)
    requires i < |components|
    ensures RootCount(components[..i + 1]) == RootCount(components[..i]) + if components[i].path == "root" then 1 else 0
  {
    assert components[..i + 1][..i] == components[..i];
  }

  /** The components looked at so far fit, and what they embed is closed. */
  ghost predicate FitSoFar(w: World, keys: Keys, origin: string, r: Release, depth: nat, i: nat) {
    var components := r.envelope.manifest.components;
    && i <= |components| && DistinctPaths(components[..i])
    && (forall j | 0 <= j < i && components[j].path != "root" ::
          ComponentFits(w, r, components[j]) && Closed(w, keys, origin, Embedded(w, r, components[j]).value, depth + 1))
  }

  function ComponentPaths(components: seq<Component>): set<string> {
    set i | 0 <= i < |components| :: components[i].path
  }

  lemma PathsGrow(components: seq<Component>, i: nat)
    requires i < |components|
    ensures ComponentPaths(components[..i + 1]) == ComponentPaths(components[..i]) + {components[i].path}
    ensures DistinctPaths(components[..i + 1]) <==>
      DistinctPaths(components[..i]) && components[i].path != ""
      && components[i].path !in ComponentPaths(components[..i])
  {
    var more, less := components[..i + 1], components[..i];
    assert more == less + [components[i]];
    forall p | p in ComponentPaths(less) ensures p in ComponentPaths(more) {
      var j :| 0 <= j < i && less[j].path == p;
      assert more[j].path == p;
    }
    assert more[i].path in ComponentPaths(more);
    if DistinctPaths(more) {
      forall a | 0 <= a < i
        ensures less[a].path != components[i].path && less[a].path != ""
      {
        assert more[a].path != more[i].path;
      }
      forall a, b | 0 <= a < b < i ensures less[a].path != less[b].path { assert more[a].path != more[b].path; }
    }
    if DistinctPaths(less) && components[i].path !in ComponentPaths(less) {
      forall a, b | 0 <= a < b < i + 1 ensures more[a].path != more[b].path {
        assert less[a].path in ComponentPaths(less);
        if b < i { assert less[a].path != less[b].path; }
      }
    }
  }

  /** If all components fit and are closed, so far they do and are. */
  lemma FitsSoFar(w: World, keys: Keys, origin: string, r: Release, depth: nat, i: nat)
    requires i <= |r.envelope.manifest.components| && ComponentsFit(w, r)
    requires forall j | ChildAt(w, r, j).Some? :: Closed(w, keys, origin, ChildAt(w, r, j).value, depth + 1)
    ensures FitSoFar(w, keys, origin, r, depth, i)
  {
    hide Closed, Embedded, AsParentDeclares;
    var components := r.envelope.manifest.components;
    forall j | 0 <= j < i && components[j].path != "root"
      ensures ComponentFits(w, r, components[j])
      ensures Closed(w, keys, origin, Embedded(w, r, components[j]).value, depth + 1)
    {
      ChildIsEmbedded(w, r, j);
    }
  }

  /** What a refusal at component `i` means for the whole. */
  lemma Refused(w: World, keys: Keys, origin: string, r: Release, depth: nat, i: nat)
    requires i < |r.envelope.manifest.components| && !FitSoFar(w, keys, origin, r, depth, i + 1)
    ensures !(ComponentsFit(w, r) && forall j | ChildAt(w, r, j).Some? ::
      Closed(w, keys, origin, ChildAt(w, r, j).value, depth + 1))
  {
    hide Closed, FitSoFar, ComponentsFit, ChildAt;
    if ComponentsFit(w, r) && forall j | ChildAt(w, r, j).Some? ::
      Closed(w, keys, origin, ChildAt(w, r, j).value, depth + 1) {
      FitsSoFar(w, keys, origin, r, depth, i + 1);
    }
  }

  lemma ChildIsEmbedded(w: World, r: Release, i: nat)
    requires i < |r.envelope.manifest.components| && r.envelope.manifest.components[i].path != "root"
    ensures ChildAt(w, r, i) == Embedded(w, r, r.envelope.manifest.components[i])
  {
    hide Embedded;
    assert [i][1..] == [];
    var embedded := Embedded(w, r, r.envelope.manifest.components[i]);
    if embedded.Some? { assert At(w, embedded.value, []) == embedded; }
  }

  lemma AllFit(w: World, keys: Keys, origin: string, r: Release, depth: nat)
    requires r.envelope.manifest.components != []
    requires FitSoFar(w, keys, origin, r, depth, |r.envelope.manifest.components|)
    requires RootCount(r.envelope.manifest.components) == 1
    ensures ComponentsFit(w, r)
    ensures forall j | ChildAt(w, r, j).Some? :: Closed(w, keys, origin, ChildAt(w, r, j).value, depth + 1)
  {
    hide Closed, Embedded, AsParentDeclares;
    var components := r.envelope.manifest.components;
    assert components[..|components|] == components;
    forall j | ChildAt(w, r, j).Some? ensures Closed(w, keys, origin, ChildAt(w, r, j).value, depth + 1) {
      ChildIsEmbedded(w, r, j);
    }
  }

  /** Verify each embedded release one level down, and that the parent declares and runs it as signed. */
  method VerifyComponentClosure(w: World, keys: Keys, origin: string, r: Release, depth: nat) returns (ok: bool)
    requires depth <= MAX_DEPTH && StripSlashes(origin) == origin && w.isOrigin(origin)
    ensures ok <==>
      ComponentsFit(w, r) && forall j | ChildAt(w, r, j).Some? ::
        Closed(w, keys, origin, ChildAt(w, r, j).value, depth + 1)
    decreases MAX_DEPTH + 1 - depth, 0
  {
    hide Closed, Embedded, AsParentDeclares, ChildAt, RootCount, DistinctPaths, ComponentPaths, ComponentsFit;
    var components := r.envelope.manifest.components;
    if components == [] { NoComponents(w, r); return false; }
    var rootCount, seenPaths := 0, {};
    NothingFits(w, keys, origin, r, depth);
    for i := 0 to |components|
      invariant FitSoFar(w, keys, origin, r, depth, i)
      invariant rootCount == RootCount(components[..i]) && seenPaths == ComponentPaths(components[..i])
    {
      var c := components[i];
      PathsGrow(components, i);
      RootsGrow(components, i);
      if c.path == "" || c.path in seenPaths { Refused(w, keys, origin, r, depth, i); return false; }
      seenPaths := seenPaths + {c.path};
      if c.path == "root" { rootCount := rootCount + 1; }
      else {
        var embedded := Embedded(w, r, c);
        if !c.complete || embedded.None? { Refused(w, keys, origin, r, depth, i); return false; }
        var nested := VerifyPublicBundle(w, Some(keys), Some(origin), embedded.value, depth + 1);
        if nested.Err? || !AsParentDeclares(w, r, c, embedded.value) {
          Refused(w, keys, origin, r, depth, i);
          return false;
        }
      }
    }
    assert components[..|components|] == components;
    if rootCount != 1 { RootsMatter(w, r); return false; }
    AllFit(w, keys, origin, r, depth);
    return true;
  }

  lemma NoComponents(w: World, r: Release)
    requires r.envelope.manifest.components == []
    ensures !ComponentsFit(w, r)
  {
  }

  lemma RootsMatter(w: World, r: Release)
    requires RootCount(r.envelope.manifest.components) != 1
    ensures !ComponentsFit(w, r)
  {
  }

  lemma NothingFits(w: World, keys: Keys, origin: string, r: Release, depth: nat)
    ensures FitSoFar(w, keys, origin, r, depth, 0)
    ensures RootCount(r.envelope.manifest.components[..0]) == 0
    ensures ComponentPaths(r.envelope.manifest.components[..0]) == {}
  {
  }

  // ------------------------------------------------------- what acceptance gives

  lemma {:induction false} AtAppend(w: World, r: Release, path: seq<nat>, i: nat)
    requires At(w, r, path).Some?
    ensures At(w, r, path + [i]) == ChildAt(w, At(w, r, path).value, i)
    decreases |path|
  {
    hide Embedded;
    if path == [] {
      assert path + [i] == [i];
    } else {
      assert path == [path[0]] + path[1..] && path + [i] == [path[0]] + (path[1..] + [i]);
      AtBelow(w, r, path[0], path[1..]);
      AtBelow(w, r, path[0], path[1..] + [i]);
      AtAppend(w, ChildAt(w, r, path[0]).value, path[1..], i);
    }
  }

  /**
   In an accepted bundle, every component at every level is embedded, is sound
   under the same origin's keys, and is what its parent declares and runs; and no
   level is deeper than 32.
   */
  lemma EveryComponentIsSound(w: World, keys: Keys, origin: string, r: Release, path: seq<nat>, i: nat)
    requires Closed(w, keys, origin, r, 0) && At(w, r, path).Some?
    requires var components := At(w, r, path).value.envelope.manifest.components;
      i < |components| && components[i].path != "root"
    ensures |path| < MAX_DEPTH && At(w, r, path + [i]).Some?
    ensures var parent, child := At(w, r, path).value, At(w, r, path + [i]).value;
      Sound(w, keys, origin, child) && AsParentDeclares(w, parent, parent.envelope.manifest.components[i], child)
  {
    hide Authentic, ArchiveExact, ContractHolds, Embedded, AsParentDeclares, At;
    var parent := At(w, r, path).value;
    assert SoundAt(w, keys, origin, parent, 0 + |path|);
    assert ComponentFits(w, parent, parent.envelope.manifest.components[i]);
    ChildIsEmbedded(w, parent, i);
    AtAppend(w, r, path, i);
    assert SoundAt(w, keys, origin, At(w, r, path + [i]).value, 0 + |path + [i]|);
  }

  function NameSet(names: seq<string>): set<string> { set n | n in names }

  lemma {:induction false} DistinctNameCount(w: World, names: seq<string>)
    requires DistinctFolds(w, names)
    ensures |NameSet(names)| == |names|
    decreases |names|
  {
    if names != [] {
      var less, last := names[..|names| - 1], names[|names| - 1];
      DistinctStays(w, names, |names| - 1);
      DistinctNameCount(w, less);
      assert names == less + [last];
      assert NameSet(names) == NameSet(less) + {last};
      forall i | 0 <= i < |less| ensures less[i] != last { assert w.fold(names[i]) != w.fold(names[|names| - 1]); }
    }
  }

  lemma SameSizeSubset(x: set<string>, y: set<string>)
    requires x <= y && |x| == |y|
    ensures x == y
  {
    assert |y - x| == |y| - |x|;
  }

  /** An exact archive has each declared member once, with the declared size and hash, and nothing else. */
  lemma ArchiveIsInventory(w: World, members: seq<Declared>, infos: seq<Info>)
    requires ArchiveExact(w, members, infos)
    ensures NameSet(InfoNames(infos)) == NameSet(DeclaredNames(members))
    ensures forall j | 0 <= j < |members| :: exists i ::
      0 <= i < |infos| && members[j] == Declared(infos[i].name, |infos[i].data|, w.hash(infos[i].data))
  {
    var names, declared := InfoNames(infos), DeclaredNames(members);
    DistinctNameCount(w, names);
    DistinctNameCount(w, declared);
    forall n | n in NameSet(names) ensures n in NameSet(declared) {
      var i :| 0 <= i < |infos| && names[i] == n;
      assert AsDeclared(w, members, infos[i]);
      var j :| 0 <= j < |members| && members[j] == Declared(infos[i].name, |infos[i].data|, w.hash(infos[i].data));
      assert declared[j] == n;
    }
    SameSizeSubset(NameSet(names), NameSet(declared));
    forall j | 0 <= j < |members|
      ensures exists i ::
        0 <= i < |infos| && members[j] == Declared(infos[i].name, |infos[i].data|, w.hash(infos[i].data))
    {
      DeclaredOccurs(w, members, infos, j);
    }
  }

  lemma SameNameSameIndex(w: World, names: seq<string>, j: nat, k: nat)
    requires DistinctFolds(w, names) && j < |names| && k < |names| && names[j] == names[k]
    ensures j == k
  {
  }

  lemma DeclaredOccurs(w: World, members: seq<Declared>, infos: seq<Info>, j: nat)
    requires ArchiveExact(w, members, infos) && j < |members|
    requires NameSet(InfoNames(infos)) == NameSet(DeclaredNames(members))
    ensures exists i ::
      0 <= i < |infos| && members[j] == Declared(infos[i].name, |infos[i].data|, w.hash(infos[i].data))
  {
    assert DeclaredNames(members)[j] in NameSet(InfoNames(infos));
    var i :| 0 <= i < |infos| && InfoNames(infos)[i] == members[j].path;
    assert AsDeclared(w, members, infos[i]);
    var k :| 0 <= k < |members| && members[k] == Declared(infos[i].name, |infos[i].data|, w.hash(infos[i].data));
    SameNameSameIndex(w, DeclaredNames(members), j, k);
  }
}
