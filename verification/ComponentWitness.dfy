/**
 A bundle with an embedded component that is accepted: what the verification of
 src/spl/embedded.py:571-822 asks for can be met, at more than one level.
 */
module ComponentWitness {
  import opened Common
  import opened ComponentClosure
  import T = Text

  function Digest(): (d: string)
    ensures IsDigest(d)
  {
    seq(64, i => '0')
  }

  const KEY_ID: string := "ed25519-sha256:" + Digest()
  const KEYS: Keys := map["https://r" := map[KEY_ID := [7]]]

  function Plain(name: string, data: Bytes): Info { Info(name, true, |data|, |data|, true, data) }

  function ListedAs(name: string, size: int): Declared { Declared(name, size, Digest()) }

  function Entry(path: string): Component {
    Component(path, true, "object", "id", "v", "1", Digest(), Digest(), Digest(), "b", "m", "c",
              ObjectYaml("c/object.yaml"))
  }

  function Signed(members: seq<Declared>, components: seq<Component>): Envelope {
    Envelope(Manifest(Legacy, "zip-store-v1", Digest(), "object", "id", "v", "1", false, members, components),
             Digest(), Digest(), Signature(KEY_ID, "ed25519", Digest() + ":" + Digest(), false))
  }

  const INNER_INFOS: seq<Info> := [Plain("object.yaml", [])]
  const INNER: Release := Release(Signed([ListedAs("object.yaml", 0)], [Entry("root")]), [])
  const OUTER_INFOS: seq<Info> := [Plain("b", []), Plain("m", [2]), Plain("c/object.yaml", [])]
  const OUTER: Release :=
    Release(Signed([ListedAs("b", 0), ListedAs("m", 1), ListedAs("c/object.yaml", 0)], [Entry("root"), Entry("x")]),
            [1])

  /** A world in which signatures are the signed text, and only the bytes of the two releases can be read. */
  function SmallWorld(): World {
    World((b: Bytes) => Digest(), (m: Manifest) => [], (k: Bytes, m: string, s: string) => k == [7] && s == m,
          (b: Bytes) => if b == [] then Some(INNER_INFOS) else if b == [1] then Some(OUTER_INFOS) else None,
          (b: Bytes) => if b == [2] then Some(INNER.envelope) else None,
          (o: string) => o == "https://r", (m: Manifest, infos: seq<Info>) => true, (b: Bytes) => false,
          (b: Bytes) => None, (b: Bytes, m: Manifest) => true, (s: string) => s)
  }

  lemma SimpleIsSafe(name: string)
    requires name != "" && name != "." && name != ".." && '/' !in name && '\\' !in name && '\0' !in name
    ensures SafeMember(name)
  {
    T.SplitNone(name, '/');
  }

  lemma TwoPartsAreSafe(x: string, y: string)
    requires x != "" && x != "." && x != ".." && '/' !in x && '\\' !in x && '\0' !in x
    requires y != "" && y != "." && y != ".." && '/' !in y && '\\' !in y && '\0' !in y
    ensures SafeMember(x + "/" + y)
  {
    T.SplitFirst(x, '/', y);
    T.SplitNone(y, '/');
    assert x + ['/'] + y == x + "/" + y && |x + "/" + y| >= 3;
  }

  lemma NamesAreSafe()
    ensures SafeMember("object.yaml") && SafeMember("b") && SafeMember("m")
    ensures SafeMember("c/object.yaml") && SafeMember("c/component")
  {
    SimpleIsSafe("object.yaml");
    SimpleIsSafe("b");
    SimpleIsSafe("m");
    TwoPartsAreSafe("c", "object.yaml");
    TwoPartsAreSafe("c", "component");
    assert "c" + "/" + "object.yaml" == "c/object.yaml" && "c" + "/" + "component" == "c/component";
  }

  lemma {:induction false} FindsLast(infos: seq<Info>, k: nat)
    requires k < |infos| && forall j | k < j < |infos| :: infos[j].name != infos[k].name
    ensures MemberBytes(infos, infos[k].name) == Some(infos[k].data)
  {
    if k < |infos| - 1 {
      FindsLast(infos[..|infos| - 1], k);
      assert infos[..|infos| - 1][k] == infos[k];
    }
  }

  lemma FitsAlone(name: string, data: Bytes)
    requires SafeMember(name) && |data| <= 1
    ensures DeclaredFits(ListedAs(name, |data|)) && InfoFits(Plain(name, data))
    ensures ListedAs(name, |data|) == Declared(name, |data|, SmallWorld().hash(data))
  {
    hide SafeMember;
  }

  /** A listing of members, one by one. */
  predicate Lists(members: seq<Declared>, infos: seq<Info>) {
    && 0 < |members| == |infos| <= 3 && TotalSize(members) <= 3
    && (forall i | 0 <= i < |infos| :: infos[i] == Plain(infos[i].name, infos[i].data) && |infos[i].data| <= 1)
    && (forall i | 0 <= i < |infos| :: members[i] == ListedAs(infos[i].name, |infos[i].data|))
    && (forall i | 0 <= i < |infos| :: SafeMember(infos[i].name))
    && (forall i, j | 0 <= i < j < |infos| :: infos[i].name != infos[j].name)
  }

  lemma OneIsExact(members: seq<Declared>, infos: seq<Info>, i: nat)
    requires Lists(members, infos) && i < |infos|
    ensures DeclaredFits(members[i]) && members[i].path == infos[i].name
    ensures InfoFits(infos[i]) && AsDeclared(SmallWorld(), members, infos[i])
  {
    hide SafeMember, DeclaredFits, InfoFits, TotalSize, ListedAs, Plain, SmallWorld, Digest;
    FitsAlone(infos[i].name, infos[i].data);
    assert members[i] == Declared(infos[i].name, |infos[i].data|, SmallWorld().hash(infos[i].data));
  }

  lemma ListedIsExact(members: seq<Declared>, infos: seq<Info>)
    requires Lists(members, infos)
    ensures ArchiveExact(SmallWorld(), members, infos)
  {
    hide Lists, SafeMember, DeclaredFits, InfoFits, AsDeclared, TotalSize, DistinctFolds, SmallWorld;
    forall i | 0 <= i < |infos|
      ensures i < |members| && DeclaredFits(members[i]) && members[i].path == infos[i].name
      ensures InfoFits(infos[i]) && AsDeclared(SmallWorld(), members, infos[i])
    {
      CountsAgree(members, infos);
      OneIsExact(members, infos, i);
    }
    CountsAgree(members, infos);
    NamesDiffer(DeclaredNames(members));
    NamesDiffer(InfoNames(infos));
  }

  lemma CountsAgree(members: seq<Declared>, infos: seq<Info>)
    requires Lists(members, infos)
    ensures 0 < |members| == |infos| <= 3 && TotalSize(members) <= 3
    ensures forall i, j | 0 <= i < j < |infos| :: infos[i].name != infos[j].name
  {
  }

  lemma ThreeSizes(a: Declared, b: Declared, c: Declared)
    ensures TotalSize([a, b, c]) == a.size + b.size + c.size
  {
    var one, two, three := [a], [a, b], [a, b, c];
    assert one[..0] == [] && TotalSize(one) == TotalSize([]) + a.size;
    assert two[..1] == one && TotalSize(two) == TotalSize(one) + b.size;
    assert three[..2] == two && TotalSize(three) == TotalSize(two) + c.size;
  }

  lemma NamesDiffer(names: seq<string>)
    requires forall i, j | 0 <= i < j < |names| :: names[i] != names[j]
    ensures DistinctFolds(SmallWorld(), names)
  {
  }

  lemma InnerIsExact()
    ensures ArchiveExact(SmallWorld(), INNER.envelope.manifest.members, INNER_INFOS)
  {
    NamesAreSafe();
    hide SafeMember, ArchiveExact;
    var members := INNER.envelope.manifest.members;
    assert members[..0] == [] && TotalSize(members) == 0;
    ListedIsExact(members, INNER_INFOS);
  }

  lemma OuterIsExact()
    ensures ArchiveExact(SmallWorld(), OUTER.envelope.manifest.members, OUTER_INFOS)
  {
    NamesAreSafe();
    hide SafeMember, ArchiveExact;
    var members := OUTER.envelope.manifest.members;
    ThreeSizes(members[0], members[1], members[2]);
    assert "b" != "m" && |"c/object.yaml"| == 13;
    ListedIsExact(members, OUTER_INFOS);
  }

  lemma BothAreAuthentic()
    ensures Authentic(SmallWorld(), KEYS, "https://r", INNER) && Authentic(SmallWorld(), KEYS, "https://r", OUTER)
  {
  }

  lemma OneRootEach()
    ensures DistinctPaths([Entry("root")]) && RootCount([Entry("root")]) == 1
    ensures DistinctPaths([Entry("root"), Entry("x")]) && RootCount([Entry("root"), Entry("x")]) == 1
  {
    assert [Entry("root")][..0] == [] && [Entry("root"), Entry("x")][..1] == [Entry("root")];
    assert "root" != "x";
  }

  lemma InnerIsEmbedded()
    ensures Embedded(SmallWorld(), OUTER, Entry("x")) == Some(INNER)
    ensures AsParentDeclares(SmallWorld(), OUTER, Entry("x"), INNER)
  {
    NamesAreSafe();
    hide SafeMember;
    assert "c" + "/" + "object.yaml" == "c/object.yaml" && "c" + "/component" == "c/component";
    assert "c" + "/object.yaml" == "c/object.yaml";
    FindsLast(OUTER_INFOS, 0);
    FindsLast(OUTER_INFOS, 1);
    FindsLast(OUTER_INFOS, 2);
    FindsLast(INNER_INFOS, 0);
  }

  lemma BothAreSound()
    ensures Sound(SmallWorld(), KEYS, "https://r", INNER) && Sound(SmallWorld(), KEYS, "https://r", OUTER)
  {
    BothAreAuthentic();
    InnerIsExact();
    OuterIsExact();
    OneRootEach();
    InnerIsEmbedded();
    hide Authentic, ArchiveExact, DistinctPaths, RootCount, Embedded, AsParentDeclares;
  }

  lemma InnerIsClosed()
    ensures Closed(SmallWorld(), KEYS, "https://r", INNER, 1)
  {
    hide Sound, Embedded, Closed;
    var w := SmallWorld();
    BothAreSound();
    assert INNER.envelope.manifest.components == [Entry("root")];
    ClosedUnfolds(w, KEYS, "https://r", INNER, 1);
  }

  /** A bundle with one embedded component is accepted, and the component is reached. */
  lemma NestedIsAccepted()
    ensures SmallWorld().isOrigin(StripSlashes("https://r"))
    ensures Closed(SmallWorld(), KEYS, StripSlashes("https://r"), OUTER, 0)
    ensures At(SmallWorld(), OUTER, [1]) == Some(INNER)
  {
    hide Sound, Embedded, AsParentDeclares, Closed;
    var w := SmallWorld();
    BothAreSound();
    InnerIsClosed();
    InnerIsEmbedded();
    assert OUTER.envelope.manifest.components == [Entry("root"), Entry("x")] && "root" != "x";
    ChildIsEmbedded(w, OUTER, 1);
    forall i | ChildAt(w, OUTER, i).Some? ensures ChildAt(w, OUTER, i) == Some(INNER) { assert i == 1; }
    ClosedUnfolds(w, KEYS, "https://r", OUTER, 0);
  }
}
