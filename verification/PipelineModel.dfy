/**
 The graph model built from a pipeline decomposition
 (src/spl/pipeline_widget.py:262-393, 588-735): node and link ids are made
 unique, missing ends of links become external nodes, and missing ports are added.
 */
module PipelineModel {
  import D = Decimal
  import U = UniqueNames
  import opened PipelineLayers

  const NODE_WIDTH: nat := 292
  const EXTERNAL_WIDTH: nat := 220
  const PORT_ROW_HEIGHT: nat := 28

  datatype Port = Port(name: string, hidden: bool)

  datatype Node = Node(id: NodeId, rawId: string, external: bool, caption: string,
                       inputs: seq<Port>, outputs: seq<Port>, width: nat, height: nat, x: nat, y: nat)

  /** A node or function of the decomposition, with the ports declared for it; an absent name is "". */
  datatype RawNode = RawNode(rawId: string, caption: string, inputs: seq<Port>, outputs: seq<Port>)

  /** A link; an absent node id or port name is "", `sourceText` is the kind and label of a source that is no node. */
  datatype RawLink = RawLink(sourceRawId: string, sourcePort: string, sourceText: string, targetRawId: string,
                             targetPort: string)

  datatype Decomposition = Decomposition(nodes: seq<RawNode>, functions: seq<RawNode>, links: seq<RawLink>)

  // -------------------------------------------------------------------- unique ids

  ghost predicate IsFirstFor(base: string, used: set<string>, id: string) {
    exists k :: U.IsFirstFree(U.Scheme(base, base, ""), used, id, k)
  }

  /** The base itself, or the base with a dash and a number from 2 on: the first that is not in use. */
  method UniqueId(base: string, used: set<string>) returns (id: string, after: set<string>)
    ensures id !in used && after == used + {id}
    ensures IsFirstFor(base, used, id)
  {
    id := U.FirstFree(U.Scheme(base, base, ""), used);
    after := used + {id};
  }

  // ------------------------------------------------------------------------- ports

  function SourcePort(l: RawLink): string { if l.sourcePort == "" then "value" else l.sourcePort }

  function TargetPort(l: RawLink): string { if l.targetPort == "" then "default" else l.targetPort }

  predicate HasPort(ports: seq<Port>, name: string) { exists i :: 0 <= i < |ports| && ports[i].name == name }

  /** `_port_items`: a declared port without a name gets the default one. */
  function PortItems(declared: seq<Port>, fallback: string): (r: seq<Port>)
    ensures |r| == |declared| && forall i | 0 <= i < |r| :: r[i].hidden == declared[i].hidden
    ensures (forall i | 0 <= i < |declared| :: declared[i].name != "") ==> r == declared
    ensures fallback != "" ==> Named(r)
  {
    seq(|declared|, i requires 0 <= i < |declared| =>
      if declared[i].name == "" then Port(fallback, declared[i].hidden) else declared[i])
  }

  predicate Named(ports: seq<Port>) { forall i | 0 <= i < |ports| :: ports[i].name != "" }

  /** The port with this name, added at the end if there was none. */
  function WithPort(ports: seq<Port>, name: string): (r: seq<Port>)
    ensures ports <= r && HasPort(r, name) && (name != "" && Named(ports) ==> Named(r))
    ensures forall p | p in r :: p in ports || p == Port(name, false)
  {
    if HasPort(ports, name) then ports
    else assert (ports + [Port(name, false)])[|ports|].name == name; ports + [Port(name, false)]
  }

  /** `_merge_ports`: the declared ports in their order, then each linked name that is not among them, once. */
  method MergePorts(declared: seq<Port>, linked: seq<string>, fallback: string) returns (ports: seq<Port>)
    requires fallback != "" && forall i | 0 <= i < |linked| :: linked[i] != ""
    ensures PortItems(declared, fallback) <= ports && Named(ports) && |ports| <= |declared| + |linked|
    ensures forall i | 0 <= i < |linked| :: HasPort(ports, linked[i])
    ensures forall i | |declared| <= i < |ports| ::
      ports[i] == Port(ports[i].name, false) && ports[i].name in linked && !HasPort(ports[..i], ports[i].name)
  {
    ports := PortItems(declared, fallback);
    for i := 0 to |linked|
      invariant PortItems(declared, fallback) <= ports && Named(ports) && |ports| <= |declared| + i
      invariant forall j | 0 <= j < i :: HasPort(ports, linked[j])
      invariant forall j | |declared| <= j < |ports| ::
        ports[j] == Port(ports[j].name, false) && ports[j].name in linked && !HasPort(ports[..j], ports[j].name)
    {
      if !HasPort(ports, linked[i]) {
        ghost var before := ports;
        ports := ports + [Port(linked[i], false)];
        assert ports[|before|].name == linked[i];
        assert forall j | 0 <= j <= |before| :: ports[..j] == before[..j];
        forall j | 0 <= j < i ensures HasPort(ports, linked[j]) { PrefixKeepsPorts(before, ports, linked[j]); }
      }
    }
  }

  lemma PrefixKeepsPorts(x: seq<Port>, y: seq<Port>, name: string)
    requires x <= y && HasPort(x, name)
    ensures HasPort(y, name)
  {
    var i :| 0 <= i < |x| && x[i].name == name;
    assert y[i].name == name;
  }

  function Visible(ports: seq<Port>): seq<Port> {
    if ports == [] then [] else (if ports[0].hidden then [] else [ports[0]]) + Visible(ports[1..])
  }

  function Max(a: nat, b: nat): nat { if a < b then b else a }

  function Rows(inputs: seq<Port>, outputs: seq<Port>): nat { Max(Max(|Visible(inputs)|, |Visible(outputs)|), 1) }

  function NodeHeight(inputs: seq<Port>, outputs: seq<Port>): nat {
    Max(148, 104 + Rows(inputs, outputs) * PORT_ROW_HEIGHT)
  }

  // --------------------------------------------------------------- the growing graph

  predicate UniqueIds(nodes: seq<Node>) { forall i, j | 0 <= i < j < |nodes| :: nodes[i].id != nodes[j].id }

  predicate NamedPorts(nodes: seq<Node>) {
    forall i | 0 <= i < |nodes| :: Named(nodes[i].inputs) && Named(nodes[i].outputs)
  }

  function Ids(nodes: seq<Node>): set<NodeId> { set i | 0 <= i < |nodes| :: nodes[i].id }

  /** The same node with perhaps more ports. */
  predicate SameNode(n: Node, m: Node) {
    n.id == m.id && n.rawId == m.rawId && n.caption == m.caption && n.external == m.external && n.width == m.width
    && n.inputs <= m.inputs && n.outputs <= m.outputs
  }

  predicate Grown(before: seq<Node>, after: seq<Node>) {
    |before| <= |after| && forall i | 0 <= i < |before| :: SameNode(before[i], after[i])
  }

  lemma GrownTwice(x: seq<Node>, y: seq<Node>, z: seq<Node>)
    requires Grown(x, y) && Grown(y, z)
    ensures Grown(x, z)
  {
    forall i | 0 <= i < |x| ensures SameNode(x[i], z[i]) { assert SameNode(x[i], y[i]) && SameNode(y[i], z[i]); }
  }

  predicate Captions(nodes: seq<Node>, byFunction: map<string, nat>) {
    forall c | c in byFunction :: byFunction[c] < |nodes| && nodes[byFunction[c]].caption == c
  }

  predicate Widths(nodes: seq<Node>) {
    forall i | 0 <= i < |nodes| :: nodes[i].width == if nodes[i].external then EXTERNAL_WIDTH else NODE_WIDTH
  }

  // ------------------------------------------------------- which node an id stands for

  /** A function that has no node yet: no node and no earlier function has its name. */
  predicate IsNew(functions: seq<RawNode>, known: seq<RawNode>, j: nat)
    requires j < |functions|
  {
    && (forall i | 0 <= i < |known| :: known[i].caption != functions[j].caption)
    && (forall i | 0 <= i < j :: functions[i].caption != functions[j].caption)
  }

  function NewFunctions(functions: seq<RawNode>, known: seq<RawNode>, n: nat): seq<RawNode>
    requires n <= |functions|
  {
    if n == 0 then []
    else NewFunctions(functions, known, n - 1) + if IsNew(functions, known, n - 1) then [functions[n - 1]] else []
  }

  /** What has a node whatever the links are: the nodes of the decomposition, and functions without one. */
  function Items(d: Decomposition): seq<RawNode> { d.nodes + NewFunctions(d.functions, d.nodes, |d.functions|) }

  function RawIdsOf(raws: seq<RawNode>): (r: seq<string>)
    ensures |r| == |raws| && forall i | 0 <= i < |r| :: r[i] == raws[i].rawId
  {
    seq(|raws|, i requires 0 <= i < |raws| => raws[i].rawId)
  }

  function ExternalKey(l: RawLink, k: nat): string { l.sourceText + ":" + D.Print(k) }

  /** The ids under which nodes are filed, one for each node, before link `k` is looked at. */
  function Filed(d: Decomposition, k: nat): seq<string>
    requires k <= |d.links|
  {
    if k == 0 then RawIdsOf(Items(d))
    else WithSource(WithTarget(Filed(d, k - 1), d.links[k - 1]), d.links[k - 1], k - 1)
  }

  /** The node filed last under an id. */
  function LastOf(filed: seq<string>, id: string): (i: nat)
    requires id in filed
    ensures i < |filed| && filed[i] == id && forall j | i < j < |filed| :: filed[j] != id
  {
    if filed[|filed| - 1] == id then |filed| - 1 else LastOf(filed[..|filed| - 1], id)
  }

  /** A target that is not known gets a node. */
  function WithTarget(filed: seq<string>, l: RawLink): (r: seq<string>)
    ensures filed <= r && l.targetRawId in r
  {
    if l.targetRawId in filed then filed
    else assert (filed + [l.targetRawId])[|filed|] == l.targetRawId; filed + [l.targetRawId]
  }

  predicate Known(filed: seq<string>, id: string) { id != "" && id in filed }

  /** A source that is not known gets a node of its own. */
  function WithSource(filed: seq<string>, l: RawLink, k: nat): (r: seq<string>)
    ensures filed <= r
  {
    if Known(filed, l.sourceRawId) then filed else filed + [ExternalKey(l, k)]
  }

  /** The node that the `k`-th link runs to. */
  function TargetOf(d: Decomposition, k: nat): nat
    requires k < |d.links|
  {
    LastOf(WithTarget(Filed(d, k), d.links[k]), d.links[k].targetRawId)
  }

  function SourceIn(filed: seq<string>, l: RawLink): nat {
    if Known(filed, l.sourceRawId) then LastOf(filed, l.sourceRawId) else |filed|
  }

  /** The node that the `k`-th link comes from. */
  function SourceOf(d: Decomposition, k: nat): nat
    requires k < |d.links|
  {
    SourceIn(WithTarget(Filed(d, k), d.links[k]), d.links[k])
  }

  /** The names under which links use the inputs of node `i`; a node of the decomposition has those of its id. */
  function LinkedInputs(d: Decomposition, i: nat): set<string> {
    set k | 0 <= k < |d.links|
            && (TargetOf(d, k) == i || (i < |d.nodes| && d.links[k].targetRawId == d.nodes[i].rawId)) ::
      TargetPort(d.links[k])
  }

  function LinkedOutputs(d: Decomposition, i: nat): set<string> {
    set k | 0 <= k < |d.links|
            && (SourceOf(d, k) == i || (i < |d.nodes| && d.links[k].sourceRawId == d.nodes[i].rawId)) ::
      SourcePort(d.links[k])
  }

  /** The declared ports in their order, then ports with linked names, each once. */
  predicate PortsFit(ports: seq<Port>, declared: seq<Port>, linked: set<string>) {
    && declared <= ports
    && forall j | |declared| <= j < |ports| ::
         ports[j] == Port(ports[j].name, false) && ports[j].name in linked && !HasPort(ports[..j], ports[j].name)
  }

  function DeclaredInputs(d: Decomposition, i: nat): seq<Port> {
    if i < |Items(d)| then PortItems(Items(d)[i].inputs, "input") else []
  }

  function DeclaredOutputs(d: Decomposition, i: nat): seq<Port> {
    if i < |Items(d)| then PortItems(Items(d)[i].outputs, "default") else []
  }

  /** The node stands for item `i`, or for something that links mention; its ports are declared or linked. */
  predicate NodeFits(n: Node, d: Decomposition, i: nat, key: string) {
    && PortsFit(n.inputs, DeclaredInputs(d, i), LinkedInputs(d, i))
    && PortsFit(n.outputs, DeclaredOutputs(d, i), LinkedOutputs(d, i))
    && if i < |Items(d)| then n.rawId == Items(d)[i].rawId && n.caption == Items(d)[i].caption && !n.external
       else n.rawId == (if key == "" then "missing node" else key) && n.external
  }

  predicate AllFit(nodes: seq<Node>, d: Decomposition, filed: seq<string>) {
    |nodes| == |filed| && forall i | 0 <= i < |nodes| :: NodeFits(nodes[i], d, i, filed[i])
  }

  /** Every id leads to the node filed last under it. */
  ghost predicate IsIndex(byRawId: map<string, nat>, filed: seq<string>) {
    && (forall id :: id in byRawId <==> id in filed)
    && (forall id | id in byRawId :: byRawId[id] == LastOf(filed, id))
  }

  /** Link `l` stands for the raw link: it joins nodes `s` and `t`, at ports that they have. */
  predicate PlacedAt(nodes: seq<Node>, l: Link, raw: RawLink, s: nat, t: nat) {
    && s < |nodes| && t < |nodes| && nodes[s].id == l.sourceNodeId && nodes[t].id == l.targetNodeId
    && l.sourcePort == SourcePort(raw) && HasPort(nodes[s].outputs, l.sourcePort)
    && l.targetPort == TargetPort(raw) && HasPort(nodes[t].inputs, l.targetPort)
  }

  predicate AllPlaced(nodes: seq<Node>, links: seq<Link>, d: Decomposition) {
    |links| <= |d.links|
    && forall k | 0 <= k < |links| :: PlacedAt(nodes, links[k], d.links[k], SourceOf(d, k), TargetOf(d, k))
  }

  lemma GrownKeepsPlaced(before: seq<Node>, after: seq<Node>, links: seq<Link>, d: Decomposition)
    requires Grown(before, after) && AllPlaced(before, links, d)
    ensures AllPlaced(after, links, d)
  {
    hide SourceOf, TargetOf;
    forall k | 0 <= k < |links| ensures PlacedAt(after, links[k], d.links[k], SourceOf(d, k), TargetOf(d, k)) {
      var s, t := SourceOf(d, k), TargetOf(d, k);
      assert PlacedAt(before, links[k], d.links[k], s, t);
      assert SameNode(before[s], after[s]) && SameNode(before[t], after[t]);
      PrefixKeepsPorts(before[s].outputs, after[s].outputs, links[k].sourcePort);
      PrefixKeepsPorts(before[t].inputs, after[t].inputs, links[k].targetPort);
    }
  }

  lemma FiledGrows(d: Decomposition, k: nat)
    requires k < |d.links|
    ensures var l, filed := d.links[k], Filed(d, k);
      Filed(d, k + 1) == WithSource(WithTarget(filed, l), l, k) && |Items(d)| <= |filed|
  {
    FiledHasItems(d, k);
  }

  lemma {:induction false} FiledHasItems(d: Decomposition, k: nat)
    requires k <= |d.links|
    ensures RawIdsOf(Items(d)) <= Filed(d, k)
  {
    hide Items, RawIdsOf;
    if k > 0 { FiledHasItems(d, k - 1); }
  }

  lemma IndexGrows(byRawId: map<string, nat>, filed: seq<string>, id: string)
    requires IsIndex(byRawId, filed)
    ensures IsIndex(byRawId[id := |filed|], filed + [id])
  {
    var more, after := filed + [id], byRawId[id := |filed|];
    assert more[|filed|] == id && more[..|more| - 1] == filed;
    forall r ensures r in after <==> r in more {
      if r in filed { var i :| 0 <= i < |filed| && filed[i] == r; assert more[i] == r; }
    }
  }

  lemma FitsOneMore(nodes: seq<Node>, d: Decomposition, filed: seq<string>, n: Node, key: string)
    requires AllFit(nodes, d, filed) && NodeFits(n, d, |nodes|, key)
    ensures AllFit(nodes + [n], d, filed + [key])
  {
    hide NodeFits;
  }

  /** One more port with a linked name. */
  lemma PortsStillFit(ports: seq<Port>, declared: seq<Port>, linked: set<string>, name: string)
    requires PortsFit(ports, declared, linked) && name in linked
    ensures PortsFit(WithPort(ports, name), declared, linked)
  {
    var after := WithPort(ports, name);
    forall j | |declared| <= j < |after|
      ensures after[j] == Port(after[j].name, false) && after[j].name in linked && !HasPort(after[..j], after[j].name)
    {
      assert after[..j] == ports[..j];
      if j == |ports| { assert ports[..j] == ports; }
    }
  }

  lemma IdsGrow(nodes: seq<Node>, n: Node)
    requires UniqueIds(nodes) && n.id !in Ids(nodes)
    ensures UniqueIds(nodes + [n]) && Ids(nodes + [n]) == Ids(nodes) + {n.id} && Grown(nodes, nodes + [n])
  {
    var all := nodes + [n];
    forall i | 0 <= i < |nodes| ensures all[i].id != n.id { assert nodes[i].id in Ids(nodes); }
    forall id | id in Ids(nodes) + {n.id} ensures id in Ids(all) {
      if id == n.id { assert all[|nodes|].id == id; }
      else { var i :| 0 <= i < |nodes| && nodes[i].id == id; assert all[i].id == id; }
    }
  }

  lemma IdsStay(before: seq<Node>, after: seq<Node>)
    requires Grown(before, after) && |after| == |before|
    ensures Ids(after) == Ids(before) && (UniqueIds(before) ==> UniqueIds(after))
  {
    forall i | 0 <= i < |before| ensures before[i].id == after[i].id { assert SameNode(before[i], after[i]); }
  }

  /** The names that links give to the ports of one node. */
  function LinkedNames(links: seq<RawLink>, rawId: string, target: bool): (r: seq<string>)
    ensures forall i | 0 <= i < |r| :: r[i] != ""
    ensures forall k | 0 <= k < |links| && (if target then links[k].targetRawId else links[k].sourceRawId) == rawId ::
              (if target then TargetPort(links[k]) else SourcePort(links[k])) in r
    ensures forall name | name in r :: exists k ::
              && 0 <= k < |links| && (if target then links[k].targetRawId else links[k].sourceRawId) == rawId
              && name == (if target then TargetPort(links[k]) else SourcePort(links[k]))
  {
    if links == [] then []
    else
      var rest := LinkedNames(links[1..], rawId, target);
      if (if target then links[0].targetRawId else links[0].sourceRawId) == rawId
      then [if target then TargetPort(links[0]) else SourcePort(links[0])] + rest
      else rest
  }

  class Builder {
    /** `_slug_for`: any function of a text and the name to use when nothing of it is left. */
    const slug: (string, string) -> string
    var nodes: seq<Node>
    var links: seq<Link>
    var usedNodeIds: set<string>
    var usedLinkIds: set<string>
    var byRawId: map<string, nat>
    var byFunction: map<string, nat>

    /** The ids under which the nodes were filed, in their order. */
    ghost var filed: seq<string>

    constructor (slug: (string, string) -> string)
      ensures this.slug == slug && nodes == [] && links == [] && filed == [] && Valid() && byFunction == map[]
    {
      this.slug := slug;
      nodes, links := [], [];
      usedNodeIds, usedLinkIds := {}, {};
      byRawId, byFunction := map[], map[];
      filed := [];
    }

    ghost predicate Valid()
      reads this
    {
      && UniqueIds(nodes) && usedNodeIds == Ids(nodes) && NamedPorts(nodes) && Widths(nodes)
      && |filed| == |nodes| && IsIndex(byRawId, filed) && Captions(nodes, byFunction)
      && usedLinkIds == LinkIds(links) && UniqueLinkIds(links)
    }

    /** Append a node whose id is made from `text`, and file it. */
    method AddNode(text: string, fallback: string, n: Node, key: string)
      requires Valid() && Named(n.inputs) && Named(n.outputs)
      requires n.width == if n.external then EXTERNAL_WIDTH else NODE_WIDTH
      modifies this`nodes, this`usedNodeIds, this`byRawId, this`filed
      ensures Valid() && |nodes| == |old(nodes)| + 1 && Grown(old(nodes), nodes) && filed == old(filed) + [key]
      ensures nodes == old(nodes) + [n.(id := nodes[|old(nodes)|].id)]
    {
      hide IsFirstFor, IsIndex;
      var id, used := UniqueId(slug(text, fallback), usedNodeIds);
      IdsGrow(nodes, n.(id := id));
      IndexGrows(byRawId, filed, key);
      byRawId := byRawId[key := |nodes|];
      nodes, usedNodeIds, filed := nodes + [n.(id := id)], used, filed + [key];
    }

    /** `_ensure_port`. */
    method EnsurePort(i: nat, input: bool, name: string)
      requires Valid() && i < |nodes| && name != ""
      modifies this`nodes
      ensures Valid() && |nodes| == |old(nodes)| && Grown(old(nodes), nodes)
      ensures nodes == old(nodes)[i := WithNamedPort(old(nodes)[i], input, name)]
    {
      hide IsIndex;
      ghost var before := nodes;
      nodes := nodes[i := WithNamedPort(nodes[i], input, name)];
      IdsStay(before, nodes);
    }

    /** A node of the decomposition, with the ports that these links mention. */
    method AddRawNode(raw: RawNode, fallback: string, rawLinks: seq<RawLink>)
      requires Valid()
      modifies this
      ensures Valid() && links == old(links) && |nodes| == |old(nodes)| + 1 && nodes[..|old(nodes)|] == old(nodes)
      ensures Grown(old(nodes), nodes) && filed == old(filed) + [raw.rawId]
      ensures byFunction == old(byFunction)[raw.caption := |old(nodes)|]
      ensures StandsFor(nodes[|old(nodes)|], raw, rawLinks)
    {
      var inputs := MergePorts(raw.inputs, LinkedNames(rawLinks, raw.rawId, true), "input");
      var outputs := MergePorts(raw.outputs, LinkedNames(rawLinks, raw.rawId, false), "default");
      hide IsIndex, IsFirstFor, UniqueIds, Ids;
      var n := Node("", raw.rawId, false, raw.caption, inputs, outputs, NODE_WIDTH, NodeHeight(inputs, outputs), 0, 0);
      AddNode(raw.rawId, fallback, n, raw.rawId);
      byFunction := byFunction[raw.caption := |nodes| - 1];
    }

    method CreateMissingNode(rawId: string) returns (i: nat)
      requires Valid()
      modifies this`nodes, this`usedNodeIds, this`byRawId, this`filed
      ensures Valid() && Grown(old(nodes), nodes) && filed == old(filed) + [rawId]
      ensures i == |old(nodes)| && |nodes| == i + 1 && nodes[..i] == old(nodes) && IsMissing(nodes[i], rawId)
    {
      var text := if rawId == "" then "missing node" else rawId;
      AddNode(text, "missing-node", Node("", text, true, text, [], [], EXTERNAL_WIDTH, 128, 0, 0), rawId);
      i := |nodes| - 1;
    }

    /** The node a link comes from: a known one, or a new external one that has its port. */
    method ResolveSource(raw: RawLink, index: nat) returns (i: nat)
      requires Valid()
      modifies this`nodes, this`usedNodeIds, this`byRawId, this`filed
      ensures Valid() && Grown(old(nodes), nodes) && filed == WithSource(old(filed), raw, index)
      ensures i == SourceIn(old(filed), raw) && i < |nodes|
      ensures if Known(old(filed), raw.sourceRawId) then nodes == old(nodes)
              else |nodes| == i + 1 && nodes[..i] == old(nodes) && IsSource(nodes[i], raw, index)
    {
      if raw.sourceRawId != "" && raw.sourceRawId in byRawId {
        i := byRawId[raw.sourceRawId];
        GrownSelf(nodes);
      } else {
        var key := ExternalKey(raw, index);
        var outputs := [Port(SourcePort(raw), false)];
        AddNode(key, "source-" + D.Print(index + 1),
                Node("", key, true, raw.sourceText, [], outputs, EXTERNAL_WIDTH, 128, 0, 0), key);
        i := |nodes| - 1;
      }
    }

    /** The node a link runs to: the one filed under its id, or a new one for an id that is not known. */
    method FindTarget(raw: RawLink) returns (t: nat)
      requires Valid()
      modifies this`nodes, this`usedNodeIds, this`byRawId, this`filed
      ensures Valid() && Grown(old(nodes), nodes) && filed == WithTarget(old(filed), raw)
      ensures t == LastOf(filed, raw.targetRawId) && t < |nodes|
      ensures if raw.targetRawId in old(filed) then nodes == old(nodes)
              else |nodes| == t + 1 && nodes[..t] == old(nodes) && IsMissing(nodes[t], raw.targetRawId)
    {
      if raw.targetRawId in byRawId {
        t := byRawId[raw.targetRawId];
        GrownSelf(nodes);
      } else {
        t := CreateMissingNode(raw.targetRawId);
        LastIsNew(old(filed), raw.targetRawId);
      }
    }

    /** Find or make both ends of a link and give them the ports it names. */
    method FindEnds(ghost d: Decomposition, raw: RawLink, index: nat) returns (s: nat, t: nat)
      requires Valid() && index < |d.links| && raw == d.links[index]
      requires filed == Filed(d, index) && AllFit(nodes, d, filed)
      modifies this`nodes, this`usedNodeIds, this`byRawId, this`filed
      ensures Valid() && Grown(old(nodes), nodes) && filed == Filed(d, index + 1) && AllFit(nodes, d, filed)
      ensures s == SourceOf(d, index) && t == TargetOf(d, index)
      ensures s < |nodes| && t < |nodes| && HasPort(nodes[s].outputs, SourcePort(raw))
      ensures HasPort(nodes[t].inputs, TargetPort(raw))
    {
      hide Grown, HasPort, NodeFits, AllFit, UniqueIds, Ids, NamedPorts, Widths, IsIndex, Captions, WithSource,
           WithTarget, SourceIn, LastOf, IsMissing, IsSource, LinkIds, UniqueLinkIds;
      FiledGrows(d, index);
      ghost var n0, f0 := nodes, filed;
      t := FindTarget(raw);
      ghost var n1, f1 := nodes, filed;
      TargetFits(n0, n1, d, index);
      s := ResolveSource(raw, index);
      ghost var n2 := nodes;
      SourceFits(n1, n2, d, index);
      GrownLonger(n1, n2);
      EnsurePort(s, false, SourcePort(raw));
      ghost var n3 := nodes;
      EnsurePort(t, true, TargetPort(raw));
      PortsAdded(n2, n3, nodes, d, index);
      GrownTwice(n0, n1, n2);
      GrownTwice(n0, n2, n3);
      GrownTwice(n0, n3, nodes);
    }

    /** Record a link between its two ends under a new id. */
    method AddLink(ghost d: Decomposition, raw: RawLink, index: nat)
      requires Valid() && index < |d.links| && raw == d.links[index]
      requires filed == Filed(d, index) && AllFit(nodes, d, filed)
      modifies this
      ensures Valid() && Grown(old(nodes), nodes) && filed == Filed(d, index + 1) && AllFit(nodes, d, filed)
      ensures |links| == |old(links)| + 1 && links[..|old(links)|] == old(links)
      ensures PlacedAt(nodes, links[|old(links)|], raw, SourceOf(d, index), TargetOf(d, index))
    {
      hide Grown, HasPort, UniqueIds, Ids, UniqueLinkIds, LinkIds, IsIndex, Captions, IsFirstFor, AllFit, Filed,
           SourceOf, TargetOf, NamedPorts, Widths;
      var s, t := FindEnds(d, raw, index);
      var id, used := UniqueId("link-" + D.Print(index + 1) + "-" + nodes[s].id + "-" + nodes[t].id, usedLinkIds);
      var l := Link(id, nodes[s].id, SourcePort(raw), nodes[t].id, TargetPort(raw));
      LinkIdsGrow(links, l);
      links, usedLinkIds := links + [l], used;
    }

    /** Heights are set again at the end, for the ports the nodes then have. */
    method SettleHeights()
      requires Valid()
      modifies this`nodes
      ensures Valid() && Grown(old(nodes), nodes) && |nodes| == |old(nodes)|
      ensures forall i | 0 <= i < |nodes| ::
        nodes[i] == old(nodes)[i].(height := NodeHeight(nodes[i].inputs, nodes[i].outputs))
    {
      hide IsIndex;
      ghost var before := nodes;
      for i := 0 to |nodes|
        invariant |nodes| == |before| && NamedPorts(before)
        invariant forall j | 0 <= j < i ::
          nodes[j] == before[j].(height := NodeHeight(before[j].inputs, before[j].outputs))
        invariant forall j | i <= j < |nodes| :: nodes[j] == before[j]
      {
        var n := nodes[i];
        var inputs := MergePorts(n.inputs, [], "input");
        var outputs := MergePorts(n.outputs, [], "default");
        assert inputs == n.inputs && outputs == n.outputs;
        nodes := nodes[i := n.(inputs := inputs, outputs := outputs, height := NodeHeight(inputs, outputs))];
      }
      IdsStay(before, nodes);
    }
  }

  function WithNamedPort(n: Node, input: bool, name: string): Node {
    if input then n.(inputs := WithPort(n.inputs, name)) else n.(outputs := WithPort(n.outputs, name))
  }

  /** The node of an id that nothing declares. */
  predicate IsMissing(n: Node, key: string) {
    && n.rawId == (if key == "" then "missing node" else key) && n.caption == n.rawId && n.external
    && n.inputs == [] && n.outputs == []
  }

  /** The node of a source that is no node. */
  predicate IsSource(n: Node, raw: RawLink, k: nat) {
    && n.rawId == ExternalKey(raw, k) && n.caption == raw.sourceText && n.external
    && n.inputs == [] && n.outputs == [Port(SourcePort(raw), false)]
  }

  lemma LastIsNew(filed: seq<string>, id: string)
    ensures id in filed + [id] && LastOf(filed + [id], id) == |filed|
  {
    assert (filed + [id])[|filed|] == id;
  }

  lemma GrownLonger(before: seq<Node>, after: seq<Node>)
    requires Grown(before, after)
    ensures |before| <= |after|
  {
  }

  lemma GrownSelf(nodes: seq<Node>)
    ensures Grown(nodes, nodes)
  {
  }

  /** The node of a raw node: what it declares, and then each name that one of these links uses for it, once. */
  predicate StandsFor(n: Node, raw: RawNode, links: seq<RawLink>) {
    && n.rawId == raw.rawId && n.caption == raw.caption && !n.external
    && MergedFrom(n.inputs, PortItems(raw.inputs, "input"), LinkedNames(links, raw.rawId, true))
    && MergedFrom(n.outputs, PortItems(raw.outputs, "default"), LinkedNames(links, raw.rawId, false))
  }

  predicate MergedFrom(ports: seq<Port>, declared: seq<Port>, linked: seq<string>) {
    && declared <= ports && (forall i | 0 <= i < |linked| :: HasPort(ports, linked[i]))
    && forall j | |declared| <= j < |ports| ::
         ports[j] == Port(ports[j].name, false) && ports[j].name in linked && !HasPort(ports[..j], ports[j].name)
  }

  // ------------------------------------------------------------------ the ends of links

  /** A target that was found or made is what the index says. */
  lemma TargetFits(n0: seq<Node>, n1: seq<Node>, d: Decomposition, k: nat)
    requires k < |d.links| && AllFit(n0, d, Filed(d, k))
    requires var l, f0 := d.links[k], Filed(d, k);
      if l.targetRawId in f0 then n1 == n0
      else |n1| == |n0| + 1 && n1[..|n0|] == n0 && IsMissing(n1[|n0|], l.targetRawId)
    ensures AllFit(n1, d, WithTarget(Filed(d, k), d.links[k]))
  {
    hide Filed, LinkedInputs, LinkedOutputs;
    var l, f0 := d.links[k], Filed(d, k);
    FiledGrows(d, k);
    if l.targetRawId !in f0 {
      assert NodeFits(n1[|n0|], d, |n0|, l.targetRawId);
      FitsOneMore(n0, d, f0, n1[|n0|], l.targetRawId);
      assert n1 == n0 + [n1[|n0|]];
    }
  }

  lemma SourceFits(n1: seq<Node>, n2: seq<Node>, d: Decomposition, k: nat)
    requires k < |d.links| && AllFit(n1, d, WithTarget(Filed(d, k), d.links[k]))
    requires var l, f1 := d.links[k], WithTarget(Filed(d, k), d.links[k]);
      if Known(f1, l.sourceRawId) then n2 == n1
      else |n2| == |n1| + 1 && n2[..|n1|] == n1 && IsSource(n2[|n1|], l, k)
    ensures AllFit(n2, d, Filed(d, k + 1))
  {
    hide LinkedInputs, Filed;
    var l, f1 := d.links[k], WithTarget(Filed(d, k), d.links[k]);
    FiledGrows(d, k);
    if !Known(f1, l.sourceRawId) {
      assert SourceOf(d, k) == |n1|;
      assert SourcePort(l) in LinkedOutputs(d, |n1|);
      KeyIsNotEmpty(l, k);
      assert NodeFits(n2[|n1|], d, |n1|, ExternalKey(l, k));
      FitsOneMore(n1, d, f1, n2[|n1|], ExternalKey(l, k));
      assert n2 == n1 + [n2[|n1|]];
    }
  }

  lemma KeyIsNotEmpty(l: RawLink, k: nat)
    ensures ExternalKey(l, k) != ""
  {
  }

  /** Giving both ends their ports. */
  lemma PortsAdded(n2: seq<Node>, n3: seq<Node>, n4: seq<Node>, d: Decomposition, k: nat)
    requires k < |d.links| && AllFit(n2, d, Filed(d, k + 1))
    requires var s, l := SourceOf(d, k), d.links[k];
      s < |n2| && n3 == n2[s := WithNamedPort(n2[s], false, SourcePort(l))]
    requires var t, l := TargetOf(d, k), d.links[k];
      t < |n3| && n4 == n3[t := WithNamedPort(n3[t], true, TargetPort(l))]
    ensures AllFit(n4, d, Filed(d, k + 1))
    ensures HasPort(n4[SourceOf(d, k)].outputs, SourcePort(d.links[k]))
    ensures HasPort(n4[TargetOf(d, k)].inputs, TargetPort(d.links[k]))
  {
    hide Filed, SourceOf, TargetOf, PortsFit, HasPort, DeclaredInputs, DeclaredOutputs;
    var s, t, l := SourceOf(d, k), TargetOf(d, k), d.links[k];
    assert SourcePort(l) in LinkedOutputs(d, s) && TargetPort(l) in LinkedInputs(d, t);
    hide LinkedInputs, LinkedOutputs;
    PortsStillFit(n2[s].outputs, DeclaredOutputs(d, s), LinkedOutputs(d, s), SourcePort(l));
    PortsStillFit(n3[t].inputs, DeclaredInputs(d, t), LinkedInputs(d, t), TargetPort(l));
  }

  lemma LinkIdsGrow(links: seq<Link>, l: Link)
    requires UniqueLinkIds(links) && l.id !in LinkIds(links)
    ensures UniqueLinkIds(links + [l]) && LinkIds(links + [l]) == LinkIds(links) + {l.id}
  {
    var all := links + [l];
    forall i | 0 <= i < |links| ensures all[i].id != l.id { assert links[i].id in LinkIds(links); }
    forall id | id in LinkIds(links) + {l.id} ensures id in LinkIds(all) {
      if id == l.id { assert all[|links|].id == id; }
      else { var i :| 0 <= i < |links| && links[i].id == id; assert all[i].id == id; }
    }
  }

  function LinkIds(links: seq<Link>): set<string> { set i | 0 <= i < |links| :: links[i].id }

  predicate UniqueLinkIds(links: seq<Link>) { forall i, j | 0 <= i < j < |links| :: links[i].id != links[j].id }

  // --------------------------------------------------------------------- the whole graph

  predicate HasAll(ports: seq<Port>, names: set<string>) { forall name | name in names :: HasPort(ports, name) }

  /** A node of the decomposition has all the ports that links with its id mention. */
  predicate CoversLinks(n: Node, d: Decomposition, i: nat) {
    i < |d.nodes| ==>
      && (forall k | 0 <= k < |d.links| && d.links[k].targetRawId == d.nodes[i].rawId ::
           HasPort(n.inputs, TargetPort(d.links[k])))
      && (forall k | 0 <= k < |d.links| && d.links[k].sourceRawId == d.nodes[i].rawId ::
           HasPort(n.outputs, SourcePort(d.links[k])))
  }

  predicate AllCover(nodes: seq<Node>, d: Decomposition) {
    forall i | 0 <= i < |nodes| :: CoversLinks(nodes[i], d, i)
  }

  lemma GrownKeepsCover(before: seq<Node>, after: seq<Node>, d: Decomposition)
    requires Grown(before, after) && AllCover(before, d) && |d.nodes| <= |before|
    ensures AllCover(after, d)
  {
    forall i | 0 <= i < |d.nodes| ensures CoversLinks(after[i], d, i) {
      assert SameNode(before[i], after[i]) && CoversLinks(before[i], d, i);
      forall k | 0 <= k < |d.links| && d.links[k].targetRawId == d.nodes[i].rawId
        ensures HasPort(after[i].inputs, TargetPort(d.links[k]))
      {
        PrefixKeepsPorts(before[i].inputs, after[i].inputs, TargetPort(d.links[k]));
      }
      forall k | 0 <= k < |d.links| && d.links[k].sourceRawId == d.nodes[i].rawId
        ensures HasPort(after[i].outputs, SourcePort(d.links[k]))
      {
        PrefixKeepsPorts(before[i].outputs, after[i].outputs, SourcePort(d.links[k]));
      }
    }
  }

  /** A node that was made for item `i` fits it. */
  lemma StandsForFits(n: Node, d: Decomposition, i: nat, links: seq<RawLink>)
    requires i < |Items(d)| && StandsFor(n, Items(d)[i], links)
    requires links == if i < |d.nodes| then d.links else []
    ensures NodeFits(n, d, i, Items(d)[i].rawId) && CoversLinks(n, d, i)
  {
    hide TargetOf, SourceOf, HasPort, PortItems;
    var raw := Items(d)[i];
    forall name | name in LinkedNames(links, raw.rawId, true) ensures name in LinkedInputs(d, i) {
      var k :| 0 <= k < |links| && links[k].targetRawId == raw.rawId && name == TargetPort(links[k]);
    }
    forall name | name in LinkedNames(links, raw.rawId, false) ensures name in LinkedOutputs(d, i) {
      var k :| 0 <= k < |links| && links[k].sourceRawId == raw.rawId && name == SourcePort(links[k]);
    }
    hide LinkedInputs, LinkedOutputs;
    if i < |d.nodes| { NamesAreCovered(n, d, i); }
  }

  lemma NamesAreCovered(n: Node, d: Decomposition, i: nat)
    requires i < |d.nodes| && StandsFor(n, d.nodes[i], d.links)
    ensures CoversLinks(n, d, i)
  {
    hide HasPort, PortItems;
    var raw := d.nodes[i];
    forall k | 0 <= k < |d.links| && d.links[k].targetRawId == raw.rawId
      ensures HasPort(n.inputs, TargetPort(d.links[k]))
    {
      var names := LinkedNames(d.links, raw.rawId, true);
      var j :| 0 <= j < |names| && names[j] == TargetPort(d.links[k]);
    }
    forall k | 0 <= k < |d.links| && d.links[k].sourceRawId == raw.rawId
      ensures HasPort(n.outputs, SourcePort(d.links[k]))
    {
      var names := LinkedNames(d.links, raw.rawId, false);
      var j :| 0 <= j < |names| && names[j] == SourcePort(d.links[k]);
    }
  }

  /** The nodes made so far stand for the first items. */
  ghost predicate Made(nodes: seq<Node>, filed: seq<string>, d: Decomposition, n: nat) {
    && n == |nodes| <= |Items(d)| && filed == RawIdsOf(Items(d))[..n] && AllFit(nodes, d, filed) && AllCover(nodes, d)
  }

  lemma OneMoreMade(nodes: seq<Node>, filed: seq<string>, d: Decomposition, n: Node, links: seq<RawLink>)
    requires Made(nodes, filed, d, |nodes|) && |nodes| < |Items(d)| && StandsFor(n, Items(d)[|nodes|], links)
    requires links == if |nodes| < |d.nodes| then d.links else []
    ensures Made(nodes + [n], filed + [Items(d)[|nodes|].rawId], d, |nodes| + 1)
  {
    hide NodeFits, StandsFor, CoversLinks, AllFit, Items;
    StandsForFits(n, d, |nodes|, links);
    FitsOneMore(nodes, d, filed, n, Items(d)[|nodes|].rawId);
  }

  /** The names that are known once `j` functions were looked at. */
  ghost predicate KnownNames(byFunction: map<string, nat>, raws: seq<RawNode>, functions: seq<RawNode>, j: nat)
    requires j <= |functions|
  {
    forall c :: c in byFunction <==>
      (exists i :: 0 <= i < |raws| && raws[i].caption == c) || (exists i :: 0 <= i < j && functions[i].caption == c)
  }

  lemma OneMoreName(byFunction: map<string, nat>, raws: seq<RawNode>, raw: RawNode, v: nat)
    requires KnownNames(byFunction, raws, [], 0)
    ensures KnownNames(byFunction[raw.caption := v], raws + [raw], [], 0)
  {
    assert (raws + [raw])[|raws|] == raw;
    forall i | 0 <= i < |raws| ensures (raws + [raw])[i] == raws[i] {}
  }

  method AddRawNodes(b: Builder, d: Decomposition)
    requires b.Valid() && b.nodes == [] && b.links == [] && b.filed == [] && b.byFunction == map[]
    modifies b
    ensures b.Valid() && b.links == [] && Made(b.nodes, b.filed, d, |d.nodes|)
    ensures KnownNames(b.byFunction, d.nodes, d.functions, 0)
  {
    hide Made, StandsFor, KnownNames, Items, IsIndex, UniqueIds, Ids, NamedPorts, Widths, Captions;
    NothingMade(d);
    for i := 0 to |d.nodes|
      invariant b.Valid() && b.links == [] && |b.nodes| == i && Made(b.nodes, b.filed, d, i)
      invariant KnownNames(b.byFunction, d.nodes[..i], [], 0)
    {
      ghost var nodes, filed, names := b.nodes, b.filed, b.byFunction;
      ItemsBegin(d);
      b.AddRawNode(d.nodes[i], "node-" + D.Print(i + 1), d.links);
      assert b.nodes == nodes + [b.nodes[i]];
      OneMoreMade(nodes, filed, d, b.nodes[i], d.links);
      OneMoreName(names, d.nodes[..i], d.nodes[i], i);
      assert d.nodes[..i + 1] == d.nodes[..i] + [d.nodes[i]];
    }
    assert d.nodes[..|d.nodes|] == d.nodes;
    NoFunctionYet(b.byFunction, d.nodes, d.functions);
  }

  lemma ItemsBegin(d: Decomposition)
    ensures |d.nodes| <= |Items(d)| && forall i | 0 <= i < |d.nodes| :: Items(d)[i] == d.nodes[i]
  {
  }

  lemma NothingMade(d: Decomposition)
    ensures Made([], [], d, 0) && KnownNames(map[], d.nodes[..0], [], 0)
  {
  }

  lemma NoFunctionYet(byFunction: map<string, nat>, raws: seq<RawNode>, functions: seq<RawNode>)
    requires KnownNames(byFunction, raws, [], 0)
    ensures KnownNames(byFunction, raws, functions, 0)
  {
  }

  lemma {:induction false} NewFunctionsGrow(functions: seq<RawNode>, known: seq<RawNode>, j: nat, n: nat)
    requires j <= n <= |functions|
    ensures NewFunctions(functions, known, j) <= NewFunctions(functions, known, n)
  {
    if j < n { NewFunctionsGrow(functions, known, j, n - 1); }
  }

  /** What the next function adds to the items. */
  lemma NextFunction(d: Decomposition, j: nat)
    requires j < |d.functions|
    ensures var now, next := NewFunctions(d.functions, d.nodes, j), NewFunctions(d.functions, d.nodes, j + 1);
      && next == now + (if IsNew(d.functions, d.nodes, j) then [d.functions[j]] else [])
      && d.nodes + next <= Items(d)
      && (IsNew(d.functions, d.nodes, j) ==> Items(d)[|d.nodes| + |now|] == d.functions[j])
  {
    hide IsNew;
    NewFunctionsGrow(d.functions, d.nodes, j + 1, |d.functions|);
  }

  lemma NewIsUnknown(byFunction: map<string, nat>, d: Decomposition, j: nat, v: nat)
    requires j < |d.functions| && KnownNames(byFunction, d.nodes, d.functions, j)
    ensures d.functions[j].caption in byFunction <==> !IsNew(d.functions, d.nodes, j)
    ensures KnownNames(byFunction[d.functions[j].caption := v], d.nodes, d.functions, j + 1)
    ensures d.functions[j].caption in byFunction ==> KnownNames(byFunction, d.nodes, d.functions, j + 1)
  {
  }

  /** Functions that no node stands for get nodes of their own. */
  method AddFunctions(b: Builder, d: Decomposition)
    requires b.Valid() && b.links == [] && Made(b.nodes, b.filed, d, |d.nodes|)
    requires KnownNames(b.byFunction, d.nodes, d.functions, 0)
    modifies b
    ensures b.Valid() && b.links == [] && Made(b.nodes, b.filed, d, |Items(d)|)
  {
    hide Made, StandsFor, KnownNames, Items, IsNew, NewFunctions, IsIndex, UniqueIds, Ids, NamedPorts, Widths, Captions;
    NoNewFunctions(d);
    for j := 0 to |d.functions|
      invariant b.Valid() && b.links == []
      invariant Made(b.nodes, b.filed, d, |d.nodes| + |NewFunctions(d.functions, d.nodes, j)|)
      invariant KnownNames(b.byFunction, d.nodes, d.functions, j)
    {
      NextFunction(d, j);
      NewIsUnknown(b.byFunction, d, j, |b.nodes|);
      if d.functions[j].caption !in b.byFunction {
        ghost var nodes, filed := b.nodes, b.filed;
        MadeCount(nodes, filed, d, |d.nodes| + |NewFunctions(d.functions, d.nodes, j)|);
        b.AddRawNode(d.functions[j], "function-" + D.Print(j + 1), []);
        assert b.nodes == nodes + [b.nodes[|nodes|]];
        OneMoreMade(nodes, filed, d, b.nodes[|nodes|], []);
      }
    }
    AllItems(d);
  }

  lemma MadeCount(nodes: seq<Node>, filed: seq<string>, d: Decomposition, n: nat)
    requires Made(nodes, filed, d, n)
    ensures |nodes| == n
  {
  }

  lemma NoNewFunctions(d: Decomposition)
    ensures NewFunctions(d.functions, d.nodes, 0) == []
  {
  }

  lemma AllItems(d: Decomposition)
    ensures |d.nodes| + |NewFunctions(d.functions, d.nodes, |d.functions|)| == |Items(d)|
  {
  }

  lemma AllMade(nodes: seq<Node>, filed: seq<string>, d: Decomposition)
    requires Made(nodes, filed, d, |Items(d)|)
    ensures filed == Filed(d, 0) && AllFit(nodes, d, filed) && AllCover(nodes, d) && |d.nodes| <= |nodes|
  {
    assert RawIdsOf(Items(d))[..|Items(d)|] == RawIdsOf(Items(d));
  }

  method AddLinks(b: Builder, d: Decomposition)
    requires b.Valid() && b.links == [] && b.filed == Filed(d, 0) && AllFit(b.nodes, d, b.filed)
    modifies b
    ensures b.Valid() && Grown(old(b.nodes), b.nodes)
    ensures b.filed == Filed(d, |d.links|) && AllFit(b.nodes, d, b.filed)
    ensures |b.links| == |d.links| && AllPlaced(b.nodes, b.links, d)
  {
    hide Grown, AllPlaced, PlacedAt, AllFit, Filed, SourceOf, TargetOf, IsIndex, UniqueIds, Ids, NamedPorts, Widths,
         Captions;
    GrownSelf(b.nodes);
    NonePlaced(b.nodes, d);
    for k := 0 to |d.links|
      invariant b.Valid() && Grown(old(b.nodes), b.nodes) && b.filed == Filed(d, k) && AllFit(b.nodes, d, b.filed)
      invariant |b.links| == k && AllPlaced(b.nodes, b.links, d)
    {
      ghost var before, links := b.nodes, b.links;
      b.AddLink(d, d.links[k], k);
      GrownTwice(old(b.nodes), before, b.nodes);
      GrownKeepsPlaced(before, b.nodes, links, d);
      OneMorePlaced(b.nodes, b.links, d);
    }
  }

  lemma NonePlaced(nodes: seq<Node>, d: Decomposition)
    ensures AllPlaced(nodes, [], d)
  {
  }

  lemma OneMorePlaced(nodes: seq<Node>, links: seq<Link>, d: Decomposition)
    requires links != [] && |links| <= |d.links| && AllPlaced(nodes, links[..|links| - 1], d)
    requires var k := |links| - 1; PlacedAt(nodes, links[k], d.links[k], SourceOf(d, k), TargetOf(d, k))
    ensures AllPlaced(nodes, links, d)
  {
    hide PlacedAt, SourceOf, TargetOf;
    forall k | 0 <= k < |links| ensures PlacedAt(nodes, links[k], d.links[k], SourceOf(d, k), TargetOf(d, k)) {
      if k < |links| - 1 { assert links[..|links| - 1][k] == links[k]; }
    }
  }

  /** Node `i` is complete: what it stands for, its declared ports and every linked name, once, and its height. */
  predicate Complete(n: Node, d: Decomposition, i: nat, key: string) {
    && NodeFits(n, d, i, key) && n.height == NodeHeight(n.inputs, n.outputs)
    && HasAll(n.inputs, LinkedInputs(d, i)) && HasAll(n.outputs, LinkedOutputs(d, i))
  }

  lemma FitsAreComplete(nodes: seq<Node>, links: seq<Link>, d: Decomposition, i: nat, key: string)
    requires i < |nodes| && NodeFits(nodes[i], d, i, key) && CoversLinks(nodes[i], d, i)
    requires nodes[i].height == NodeHeight(nodes[i].inputs, nodes[i].outputs)
    requires |links| == |d.links| && AllPlaced(nodes, links, d)
    ensures Complete(nodes[i], d, i, key)
  {
    hide NodeFits, SourceOf, TargetOf, HasPort;
    forall name | name in LinkedInputs(d, i) ensures HasPort(nodes[i].inputs, name) {
      var k :| 0 <= k < |d.links| && name == TargetPort(d.links[k])
        && (TargetOf(d, k) == i || (i < |d.nodes| && d.links[k].targetRawId == d.nodes[i].rawId));
      assert PlacedAt(nodes, links[k], d.links[k], SourceOf(d, k), TargetOf(d, k));
    }
    forall name | name in LinkedOutputs(d, i) ensures HasPort(nodes[i].outputs, name) {
      var k :| 0 <= k < |d.links| && name == SourcePort(d.links[k])
        && (SourceOf(d, k) == i || (i < |d.nodes| && d.links[k].sourceRawId == d.nodes[i].rawId));
      assert PlacedAt(nodes, links[k], d.links[k], SourceOf(d, k), TargetOf(d, k));
    }
  }

  /** The whole graph of a decomposition. */
  predicate GraphFits(nodes: seq<Node>, links: seq<Link>, d: Decomposition) {
    && |nodes| == |Filed(d, |d.links|)| && |links| == |d.links| && AllPlaced(nodes, links, d)
    && forall i | 0 <= i < |nodes| :: Complete(nodes[i], d, i, Filed(d, |d.links|)[i])
  }

  lemma SettledFits(before: seq<Node>, nodes: seq<Node>, links: seq<Link>, d: Decomposition)
    requires |links| == |d.links| && AllPlaced(before, links, d) && AllFit(before, d, Filed(d, |d.links|))
    requires AllCover(before, d) && |nodes| == |before|
    requires forall i | 0 <= i < |nodes| ::
               nodes[i] == before[i].(height := NodeHeight(nodes[i].inputs, nodes[i].outputs))
    ensures GraphFits(nodes, links, d)
  {
    hide Filed, SourceOf, TargetOf, HasPort, LinkedInputs, LinkedOutputs, DeclaredInputs, DeclaredOutputs, PortsFit,
         NodeHeight, Complete, HasAll, Items;
    assert AllPlaced(nodes, links, d);
    forall i | 0 <= i < |nodes| ensures Complete(nodes[i], d, i, Filed(d, |d.links|)[i]) {
      assert NodeFits(before[i], d, i, Filed(d, |d.links|)[i]) && CoversLinks(before[i], d, i);
      FitsAreComplete(nodes, links, d, i, Filed(d, |d.links|)[i]);
    }
  }

  /**
   The model of a decomposition.  For any decomposition: node ids and link ids are
   unique; there is one node for each of its nodes and functions, for each unknown
   target and for each source that is no node, with the declared ports and every
   linked name once; and the k-th link joins the nodes that the k-th raw link means.
   */
  method CreateGraphModel(slug: (string, string) -> string, d: Decomposition) returns (b: Builder)
    ensures fresh(b) && b.Valid() && GraphFits(b.nodes, b.links, d)
  {
    hide Made, KnownNames, AllPlaced, AllFit, AllCover, Grown, Filed, Items, GraphFits, IsIndex, UniqueIds, Ids,
         NamedPorts, Widths, Captions;
    b := new Builder(slug);
    AddRawNodes(b, d);
    AddFunctions(b, d);
    AllMade(b.nodes, b.filed, d);
    ghost var n1 := b.nodes;
    AddLinks(b, d);
    GrownKeepsCover(n1, b.nodes, d);
    ghost var n2 := b.nodes;
    b.SettleHeights();
    SettledFits(n2, b.nodes, b.links, d);
  }
}
