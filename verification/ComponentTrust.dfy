/**
 What the acceptance of a bundle means for every release in it
 (src/spl/embedded.py:571-689, 692-822, 836-898): who signed it, what its archive
 holds, and that each component is the one that was declared and is run as signed.
 */
module ComponentTrust {
  import opened Common
  import opened ComponentClosure
  import T = Text
  import W = PathWalk

  lemma ReachedIsSound(w: World, keys: Keys, origin: string, r: Release, depth: nat, path: seq<nat>)
    requires Closed(w, keys, origin, r, depth) && At(w, r, path).Some?
    ensures Sound(w, keys, origin, At(w, r, path).value) && depth + |path| <= MAX_DEPTH
  {
    hide Sound, At;
    assert SoundAt(w, keys, origin, At(w, r, path).value, depth + |path|);
  }

  /**
   In an accepted bundle every release, at any depth, is signed: a key that is
   trusted for the one origin that was asked has signed the hashes of exactly its
   manifest and its bytes.
   */
  lemma AcceptedIsSigned(w: World, keys: Keys, origin: string, r: Release, depth: nat, path: seq<nat>)
    requires Closed(w, keys, origin, r, depth) && At(w, r, path).Some?
    ensures var x := At(w, r, path).value;
      var e, s := x.envelope, x.envelope.signature;
      && origin in keys && s.keyId in keys[origin] && s.algorithm == "ed25519" && !s.carriesKey
      && s.keyId == "ed25519-sha256:" + w.hash(keys[origin][s.keyId])
      && w.signed(keys[origin][s.keyId], e.manifestHash + ":" + e.bundleHash, s.value)
      && e.manifestHash == w.hash(w.canonical(e.manifest))
      && e.bundleHash == e.manifest.bundleHash == w.hash(x.bundle)
      && e.manifest.schema != Unsupported && e.manifest.bundleFormat == "zip-store-v1"
  {
    hide At, Closed, ArchiveExact, ComponentsFit, ContractHolds;
    ReachedIsSound(w, keys, origin, r, depth, path);
  }

  /** A bundle in which some release, at any depth, is not signed by a trusted key is refused. */
  lemma UnsignedIsRefused(w: World, keys: Keys, origin: string, r: Release, depth: nat, path: seq<nat>)
    requires At(w, r, path).Some?
    requires var e, s := At(w, r, path).value.envelope, At(w, r, path).value.envelope.signature;
      origin in keys && s.keyId in keys[origin] ==>
        !w.signed(keys[origin][s.keyId], e.manifestHash + ":" + e.bundleHash, s.value)
    ensures !Closed(w, keys, origin, r, depth)
  {
    hide At, Closed;
    if Closed(w, keys, origin, r, depth) { AcceptedIsSigned(w, keys, origin, r, depth, path); }
  }

  /** A release whose signature is replaced by a value that does not verify is refused. */
  lemma ForgedIsRefused(w: World, keys: Keys, origin: string, r: Release, depth: nat, value: string)
    requires var e, s := r.envelope, r.envelope.signature;
      && origin in keys && s.keyId in keys[origin]
      && !w.signed(keys[origin][s.keyId], e.manifestHash + ":" + e.bundleHash, value)
    ensures !Closed(w, keys, origin, r.(envelope := r.envelope.(signature := r.envelope.signature.(value := value))),
                    depth)
  {
    hide Closed;
    UnsignedIsRefused(w, keys, origin, r.(envelope := r.envelope.(signature := r.envelope.signature.(value := value))),
                      depth, []);
  }

  // ------------------------------------------------------------------------ the archive

  lemma {:induction false} MemberIsThere(infos: seq<Info>, name: string)
    ensures MemberBytes(infos, name).Some? ==>
      exists i :: 0 <= i < |infos| && infos[i].name == name && infos[i].data == MemberBytes(infos, name).value
  {
    if infos != [] && infos[|infos| - 1].name != name {
      MemberIsThere(infos[..|infos| - 1], name);
      if MemberBytes(infos, name).Some? {
        var i :| 0 <= i < |infos| - 1 && infos[..|infos| - 1][i].name == name
          && infos[..|infos| - 1][i].data == MemberBytes(infos, name).value;
        assert infos[i].name == name;
      }
    }
  }

  /** A member name is safe exactly if it has no odd characters and leads where it says, below the archive's root. */
  lemma SafeMemberLeads(name: string)
    ensures SafeMember(name) <==>
      && name != "" && '\\' !in name && '\0' !in name
      && (name == "." || W.Leads(T.Split(name, '/')) == Some(T.Split(name, '/')))
  {
    var parts := T.Split(name, '/');
    W.LeadsItself(parts);
    assert parts[0] != "/" && parts[0] != "//" by {
      assert '/' !in parts[0];
      if parts[0] != "" { assert parts[0][0] in parts[0]; }
    }
    if SafeMember(name) && name != "." {
      forall k | 0 <= k < |parts| ensures W.Descends(parts[k]) { assert parts[k] in parts; }
    }
    if forall k | 0 <= k < |parts| :: W.Descends(parts[k]) {
      forall part | part in parts ensures part != "" && part != "." && part != ".." {}
    }
  }

  /** The release lists the member, with its size and hash. */
  predicate Listed(w: World, members: seq<Declared>, info: Info) {
    exists j :: 0 <= j < |members| && members[j].path == info.name && members[j].size == |info.data|
      && members[j].sha256 == w.hash(info.data)
  }

  /** The archive has the member that is listed, with its size and hash. */
  predicate Archived(w: World, infos: seq<Info>, d: Declared) {
    exists i :: 0 <= i < |infos| && infos[i].name == d.path && |infos[i].data| == d.size
      && w.hash(infos[i].data) == d.sha256
  }

  /** A plain file that leads into the archive, no larger and no more packed than allowed. */
  predicate IsPlain(info: Info) {
    && info.regular && info.stored && info.fileSize <= MAX_MEMBER_BYTES && |info.data| <= MAX_MEMBER_BYTES
    && info.fileSize <= MAX_COMPRESSION_RATIO * info.compressSize
    && (info.name == "." || W.Leads(T.Split(info.name, '/')) == Some(T.Split(info.name, '/')))
  }

  /**
   In an accepted bundle the archive of every release can be read, and it is what
   the release lists: all that is listed is there and all that is there is listed,
   with its size and hash; each member is a plain file that leads into the archive;
   and names differ even if case is ignored.
   */
  lemma AcceptedIsListed(w: World, keys: Keys, origin: string, r: Release, depth: nat, path: seq<nat>)
    requires Closed(w, keys, origin, r, depth) && At(w, r, path).Some?
    ensures var x := At(w, r, path).value;
      var members := x.envelope.manifest.members;
      w.unzip(x.bundle).Some?
      && var infos := w.unzip(x.bundle).value;
         && |infos| == |members| && 0 < |members| <= MAX_MEMBER_COUNT && TotalSize(members) <= MAX_BUNDLE_BYTES
         && (forall j | 0 <= j < |members| :: Archived(w, infos, members[j]))
         && (forall i | 0 <= i < |infos| :: Listed(w, members, infos[i]) && IsPlain(infos[i]))
         && (forall i, j | 0 <= i < j < |infos| :: w.fold(infos[i].name) != w.fold(infos[j].name))
  {
    hide At, Closed, Authentic, ComponentsFit, ContractHolds, ArchiveExact, TotalSize;
    ReachedIsSound(w, keys, origin, r, depth, path);
    var x := At(w, r, path).value;
    ExactIsListed(w, x.envelope.manifest.members, Infos(w, x));
  }

  lemma ExactIsListed(w: World, members: seq<Declared>, infos: seq<Info>)
    requires ArchiveExact(w, members, infos)
    ensures |infos| == |members| && 0 < |members| <= MAX_MEMBER_COUNT && TotalSize(members) <= MAX_BUNDLE_BYTES
    ensures forall j | 0 <= j < |members| :: Archived(w, infos, members[j])
    ensures forall i | 0 <= i < |infos| :: Listed(w, members, infos[i]) && IsPlain(infos[i])
    ensures forall i, j | 0 <= i < j < |infos| :: w.fold(infos[i].name) != w.fold(infos[j].name)
  {
    hide SafeMember, TotalSize, DeclaredFits, InfoFits, AsDeclared, Listed, IsPlain, Archived;
    forall j | 0 <= j < |members| ensures Archived(w, infos, members[j]) { DeclaredIsArchived(w, members, infos, j); }
    forall i | 0 <= i < |infos| ensures Listed(w, members, infos[i]) && IsPlain(infos[i]) {
      MemberIsListed(w, members, infos[i]);
    }
    forall i, j | 0 <= i < j < |infos| ensures w.fold(infos[i].name) != w.fold(infos[j].name) {
      assert InfoNames(infos)[i] == infos[i].name && InfoNames(infos)[j] == infos[j].name;
    }
  }

  lemma DeclaredIsArchived(w: World, members: seq<Declared>, infos: seq<Info>, j: nat)
    requires ArchiveExact(w, members, infos) && j < |members|
    ensures Archived(w, infos, members[j])
  {
    hide ArchiveExact;
    ArchiveIsInventory(w, members, infos);
    var i :| 0 <= i < |infos| && members[j] == Declared(infos[i].name, |infos[i].data|, w.hash(infos[i].data));
  }

  lemma MemberIsListed(w: World, members: seq<Declared>, info: Info)
    requires InfoFits(info) && AsDeclared(w, members, info) && forall j | 0 <= j < |members| :: DeclaredFits(members[j])
    ensures Listed(w, members, info) && IsPlain(info)
  {
    hide SafeMember, IsDigest;
    SafeMemberLeads(info.name);
    var j :| 0 <= j < |members| && members[j] == Declared(info.name, |info.data|, w.hash(info.data));
    assert DeclaredFits(members[j]);
  }

  // --------------------------------------------------------------------- the components

  /**
   In an accepted bundle every component but the root entry leads to a release
   whose bytes and envelope are members of its parent's archive, which is the very
   release that the parent names, and of which the parent holds every member again
   below the directory that it runs.
   */
  lemma ComponentIsDeclared(w: World, keys: Keys, origin: string, r: Release, depth: nat, path: seq<nat>, i: nat)
    requires Closed(w, keys, origin, r, depth) && At(w, r, path).Some?
    requires var components := At(w, r, path).value.envelope.manifest.components;
      i < |components| && components[i].path != "root"
    ensures At(w, r, path + [i]).Some?
    ensures var parent, child := At(w, r, path).value, At(w, r, path + [i]).value;
      var c, m := parent.envelope.manifest.components[i], child.envelope.manifest;
      && m.entryType == c.kind && m.entryId == c.identity && m.versionId == c.versionId && m.version == c.version
      && child.envelope.bundleHash == c.bundleHash == c.contentHash && child.envelope.manifestHash == c.manifestHash
      && (c.kind == "object" ==> m.schema == parent.envelope.manifest.schema)
      && Holds(w, parent, c.bundleMember, child.bundle) && HoldsEnvelope(w, parent, c.manifestMember, child.envelope)
      && (forall j | 0 <= j < |Infos(w, child)| ::
           Holds(w, parent, c.executionRoot + "/" + Infos(w, child)[j].name, Infos(w, child)[j].data))
      && (c.kind == "object" ==> c.execution == ObjectYaml(c.executionRoot + "/object.yaml"))
      && (c.kind != "object" ==> RunsAdapter(w, parent, c, child))
  {
    hide At, Closed, Authentic, ArchiveExact, ContractHolds, MemberBytes, SafeMember, Dotted;
    ReachedIsSound(w, keys, origin, r, depth, path);
    var parent := At(w, r, path).value;
    var c := parent.envelope.manifest.components[i];
    assert ComponentFits(w, parent, c);
    ChildIsEmbedded(w, parent, i);
    AtAppend(w, r, path, i);
    var child := At(w, r, path + [i]).value;
    MemberIsThere(Infos(w, parent), c.bundleMember);
    MemberIsThere(Infos(w, parent), c.manifestMember);
    forall j | 0 <= j < |Infos(w, child)|
      ensures Holds(w, parent, c.executionRoot + "/" + Infos(w, child)[j].name, Infos(w, child)[j].data)
    {
      MemberIsThere(Infos(w, parent), c.executionRoot + "/" + Infos(w, child)[j].name);
    }
    MemberIsThere(Infos(w, child), "adapter.json");
    MemberIsThere(Infos(w, parent), c.executionRoot + "/adapter.py");
  }

  /** The archive of a release has a member of this name with these bytes. */
  predicate Holds(w: World, r: Release, name: string, data: Bytes) {
    exists i :: 0 <= i < |Infos(w, r)| && Infos(w, r)[i].name == name && Infos(w, r)[i].data == data
  }

  predicate HoldsEnvelope(w: World, r: Release, name: string, envelope: Envelope) {
    exists i :: 0 <= i < |Infos(w, r)| && Infos(w, r)[i].name == name && w.decode(Infos(w, r)[i].data) == Some(envelope)
  }

  /** An adapter is run as the module that is made from the source its release has signed. */
  predicate RunsAdapter(w: World, parent: Release, c: Component, child: Release) {
    exists j :: 0 <= j < |Infos(w, child)| && Infos(w, child)[j].name == "adapter.json"
      && w.adapterModule(Infos(w, child)[j].data).Some?
      && Holds(w, parent, c.executionRoot + "/adapter.py", w.adapterModule(Infos(w, child)[j].data).value)
      && c.execution == AdapterModule(Dotted(c.executionRoot) + ".adapter", c.executionRoot + "/adapter.py")
  }

  /** Exactly one entry of the inventory is the root, and no two have one path. */
  lemma OneRoot(w: World, keys: Keys, origin: string, r: Release, depth: nat, path: seq<nat>) returns (k: nat)
    requires Closed(w, keys, origin, r, depth) && At(w, r, path).Some?
    ensures var components := At(w, r, path).value.envelope.manifest.components;
      && k < |components| && (forall j | 0 <= j < |components| :: components[j].path == "root" <==> j == k)
      && forall i, j | 0 <= i < j < |components| :: components[i].path != components[j].path
  {
    hide At, Closed, Authentic, ArchiveExact, ContractHolds, ComponentFits;
    ReachedIsSound(w, keys, origin, r, depth, path);
    k := RootOf(At(w, r, path).value.envelope.manifest.components);
  }

  lemma {:induction false} RootOf(components: seq<Component>) returns (k: nat)
    requires RootCount(components) > 0
    ensures k < |components| && components[k].path == "root"
  {
    if components[|components| - 1].path == "root" { k := |components| - 1; }
    else { k := RootOf(components[..|components| - 1]); }
  }
}
