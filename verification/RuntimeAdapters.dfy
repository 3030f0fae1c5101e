/**
 Preparation of run-bound input adapters on the client
 (src/spl/_runtime_port_adapters_client.py:218-333, 495-523, 542-602, 698-732, 871-881).
 Each port reads one outer argument; several ports may read the same one.  Values
 that do not travel as JSON are staged as files and nulled in a copy of the call.
 */
module RuntimeAdapters {
  import opened Common
  import U = UniqueNames

  type Bytes = seq<bv8>

  const JSON := "json"
  const OPAQUE_FILE := "opaque-file"

  /** A caller's value, as far as adapters are concerned. */
  datatype Value = Null | Plain(json: nat) | File(name: Option<string>, content: Bytes) | Native(ref: nat,
      defaultId: Option<string>)

  /** An adapter that the caller chose; objects are told apart by identity. */
  datatype Spec = Unset | BuiltinId(id: string) | AdapterObject(ref: nat, builtinId: Option<string>) | Foreign(ref: nat)

  datatype Identity = SystemDefault | Builtin(id: string) | Custom(ref: nat) | Invalid(foreign: Option<nat>)

  datatype Target = Target(canonical: string, externalName: string)

  datatype Meta = Meta(required: bool, default: Option<Value>)

  datatype Location = Keyword(name: string) | Positional(index: nat) | Default(name: string)

  /** What is known of a call before its values: ports, signature and chosen adapters by port. */
  datatype Request = Request(targets: seq<Target>, order: seq<string>, metadata: map<string, Meta>,
                             explicit: map<string, Spec>, libraryInputs: set<string>)

  datatype Staged = Staged(content: Bytes, logicalName: Option<string>)

  /**
   Given parts: known adapters, descriptor and type checks, `save` of an adapter, hashing
   and the base of a staged name.
   */
  datatype World = World(
    builtinIds: set<string>,
    customBundle: Option<string>,
    accepts: (Target, string, Value) -> bool,
    save: (Value, string, Option<Spec>) -> Option<Bytes>,
    hash: Bytes -> string,
    baseName: (string, Option<string>, string) -> string)

  datatype Input = Input(name: string, port: string, content: Bytes, adapterId: string)

  datatype Binding = Binding(port: string, externalName: string, adapterId: string, artifact: bool, location: Location,
                             inputName: Option<string>)

  // -------------------------------------------------------------- adapters and groups

  /** The adapter that the caller chose for a port, if one was. */
  function SpecOf(req: Request, t: Target): (r: Option<Spec>)
    ensures r == None <==> t.canonical !in req.explicit
    ensures t.canonical in req.explicit ==> r == Some(req.explicit[t.canonical])
  {
    if t.canonical in req.explicit then Some(req.explicit[t.canonical]) else None
  }

  function IdentityOf(spec: Option<Spec>): Identity {
    match spec
    case None => SystemDefault
    case Some(BuiltinId(id)) => Builtin(id)
    case Some(AdapterObject(_, Some(id))) => Builtin(id)
    case Some(AdapterObject(ref, None)) => Custom(ref)
    case Some(Foreign(ref)) => Invalid(Some(ref))
    case Some(Unset) => Invalid(None)
  }

  function ResolveSpec(w: World, spec: Spec): Result<string> {
    match spec
    case BuiltinId(id) => if id in w.builtinIds then Ok(id) else Err("adapter_id")
    case AdapterObject(_, Some(id)) => Ok(id)
    case AdapterObject(_, None) =>
      (match w.customBundle
       case Some(sha) => Ok("custom:" + sha)
       case None => Err("custom_bundle"))
    case _ => Err("adapter_value")
  }

  function ResolveInputAdapter(w: World, v: Value, spec: Option<Spec>): Result<string> {
    if spec.Some? && spec.value != Unset then ResolveSpec(w, spec.value)
    else match v
      case File(_, _) => Ok(OPAQUE_FILE)
      case Null => Ok(JSON)
      case Plain(_) => Ok(JSON)
      case Native(_, Some(id)) => Ok(id)
      case Native(_, None) => Err("missing_input_adapter")
  }

  /** The adapter that a value travels with: the one that the caller chose for the port, or the value's own. */
  predicate Chooses(w: World, spec: Option<Spec>, value: Value, id: string) {
    if spec.Some? && !spec.value.Unset? then
      || (spec.value.BuiltinId? && id == spec.value.id && id in w.builtinIds)
      || (spec.value.AdapterObject? && spec.value.builtinId == Some(id))
      || (spec.value.AdapterObject? && spec.value.builtinId.None? && w.customBundle.Some?
          && id == "custom:" + w.customBundle.value)
    else
      || (value.File? && id == OPAQUE_FILE) || ((value.Null? || value.Plain?) && id == JSON)
      || (value.Native? && value.defaultId == Some(id))
  }

  lemma AdapterIsChosen(w: World, value: Value, spec: Option<Spec>, id: string)
    ensures Chooses(w, spec, value, id) <==> ResolveInputAdapter(w, value, spec) == Ok(id)
  {
  }

  /** Choices with one identity resolve to one adapter, whatever the value. */
  lemma SameIdentitySameAdapter(w: World, v: Value, x: Option<Spec>, y: Option<Spec>)
    requires IdentityOf(x) == IdentityOf(y)
    requires ResolveInputAdapter(w, v, x).Ok? && ResolveInputAdapter(w, v, y).Ok?
    ensures ResolveInputAdapter(w, v, x) == ResolveInputAdapter(w, v, y)
  {
  }

  function BuiltinName(spec: Spec): Option<string> {
    match spec
    case BuiltinId(id) => Some(id)
    case AdapterObject(_, id) => id
    case _ => None
  }

  /** The same choice: none, the same adapter object, or the same built-in adapter, named or given. */
  predicate SameChoice(x: Option<Spec>, y: Option<Spec>) {
    || x == y
    || (x.Some? && y.Some? && BuiltinName(x.value).Some? && BuiltinName(x.value) == BuiltinName(y.value))
  }

  lemma SameIdentityIsSameChoice(x: Option<Spec>, y: Option<Spec>)
    ensures IdentityOf(x) == IdentityOf(y) <==> SameChoice(x, y)
  {
  }

  /** Ports that read one argument agree on its adapter. */
  predicate Agreed(req: Request) {
    forall i, j | 0 <= i < j < |req.targets| && req.targets[i].externalName == req.targets[j].externalName ::
      IdentityOf(SpecOf(req, req.targets[i])) == IdentityOf(SpecOf(req, req.targets[j]))
  }

  /** The identities chosen for one argument by the first `n` ports. */
  function Chosen(req: Request, n: nat, name: string): set<Identity>
    requires n <= |req.targets|
  {
    set i | 0 <= i < n && req.targets[i].externalName == name :: IdentityOf(SpecOf(req, req.targets[i]))
  }

  method ValidateGroupedInputSpecs(req: Request) returns (ok: bool)
    ensures ok <==> Agreed(req)
  {
    var grouped: map<string, set<Identity>> := map[];
    for n := 0 to |req.targets|
      invariant forall name | name in grouped :: grouped[name] == Chosen(req, n, name)
      invariant forall i | 0 <= i < n :: req.targets[i].externalName in grouped
    {
      var name := req.targets[n].externalName;
      var id := IdentityOf(SpecOf(req, req.targets[n]));
      grouped := grouped[name := (if name in grouped then grouped[name] else {}) + {id}];
      forall m | m in grouped ensures grouped[m] == Chosen(req, n + 1, m) { ChosenGrows(req, n, m); }
    }
    var names := grouped.Keys;
    while names != {}
      invariant names <= grouped.Keys
      invariant forall name | name in grouped && name !in names :: |grouped[name]| <= 1
      decreases |names|
    {
      var name :| name in names;
      if |grouped[name]| > 1 {
        DisagreedIn(req, name);
        return false;
      }
      names := names - {name};
    }
    forall i, j | 0 <= i < j < |req.targets| && req.targets[i].externalName == req.targets[j].externalName
      ensures IdentityOf(SpecOf(req, req.targets[i])) == IdentityOf(SpecOf(req, req.targets[j]))
    {
      var s := grouped[req.targets[i].externalName];
      OneIdentity(s, IdentityOf(SpecOf(req, req.targets[i])), IdentityOf(SpecOf(req, req.targets[j])));
    }
    return true;
  }

  lemma ChosenGrows(req: Request, n: nat, name: string)
    requires n < |req.targets|
    ensures Chosen(req, n + 1, name) ==
      Chosen(req, n, name) + if req.targets[n].externalName == name then {IdentityOf(SpecOf(req, req.targets[n]))}
                             else {}
    ensures (forall i | 0 <= i < n :: req.targets[i].externalName != name) ==> Chosen(req, n, name) == {}
  {
  }

  lemma DisagreedIn(req: Request, name: string)
    requires |Chosen(req, |req.targets|, name)| > 1
    ensures !Agreed(req)
  {
    var s := Chosen(req, |req.targets|, name);
    var x :| x in s;
    assert |{x}| == 1 && s != {x};
    var y :| y in s && y != x;
    var i :| 0 <= i < |req.targets| && req.targets[i].externalName == name
      && IdentityOf(SpecOf(req, req.targets[i])) == x;
    var j :| 0 <= j < |req.targets| && req.targets[j].externalName == name
      && IdentityOf(SpecOf(req, req.targets[j])) == y;
    assert i < j || j < i;
  }

  lemma OneIdentity(s: set<Identity>, x: Identity, y: Identity)
    requires |s| <= 1 && x in s && y in s
    ensures x == y
  {
    assert s == {x, y} + (s - {x, y});
    assert x != y ==> |{x, y}| == 2;
  }

  // ------------------------------------------------------------------------- arguments

  predicate IsFirst(order: seq<string>, name: string, i: nat) {
    i < |order| && order[i] == name && forall j | 0 <= j < i :: order[j] != name
  }

  function IndexOf(order: seq<string>, name: string): (r: Option<nat>)
    ensures r.Some? ==> IsFirst(order, name, r.value)
    ensures r.None? ==> name !in order
  {
    if order == [] then None
    else if order[0] == name then Some(0)
    else
      match IndexOf(order[1..], name)
      case Some(i) => Some(i + 1)
      case None => None
  }

  /** Where an argument comes from, and its value; a default that is not given is None. */
  function ArgumentValue(req: Request, name: string, args: Option<seq<Value>>,
                         kwargs: Option<map<string, Value>>): Result<(Location, Value)> {
    if kwargs.Some? && name in kwargs.value then Ok((Keyword(name), kwargs.value[name]))
    else
      var index := IndexOf(req.order, name);
      if index.Some? && args.Some?
        && index.value < |args.value| then Ok((Positional(index.value), args.value[index.value]))
      else if name in req.metadata && (!req.metadata[name].required || req.metadata[name].default.Some?) then
        Ok((Default(name), match req.metadata[name].default { case Some(v) => v case None => Null }))
      else Err("missing_input")
  }

  /**
   The call supplies this value for an argument at this place: by name, or else at the first position that the
   signature gives it, or else by a default, which is None if the argument is optional and has none.
   */
  predicate Supplies(req: Request, name: string, args: Option<seq<Value>>, kwargs: Option<map<string, Value>>,
                     location: Location, value: Value) {
    var named := kwargs.Some? && name in kwargs.value;
    match location
    case Keyword(n) => n == name && named && value == kwargs.value[name]
    case Positional(i) =>
      !named && IsFirst(req.order, name, i) && args.Some? && i < |args.value| && value == args.value[i]
    case Default(n) =>
      && n == name && !named && name in req.metadata
      && (forall i: nat | args.Some? && i < |args.value| :: !IsFirst(req.order, name, i))
      && (if req.metadata[name].default.Some? then value == req.metadata[name].default.value
          else !req.metadata[name].required && value == Null)
  }

  lemma ArgumentIsSupplied(req: Request, name: string, args: Option<seq<Value>>, kwargs: Option<map<string, Value>>)
    ensures forall location, value :: Supplies(req, name, args, kwargs, location, value) <==>
              ArgumentValue(req, name, args, kwargs) == Ok((location, value))
  {
    hide IndexOf;
  }

  /** Different arguments are at different places. */
  lemma PlacesDiffer(req: Request, x: string, y: string, args: Option<seq<Value>>, kwargs: Option<map<string, Value>>)
    requires x != y && ArgumentValue(req, x, args, kwargs).Ok? && ArgumentValue(req, y, args, kwargs).Ok?
    ensures ArgumentValue(req, x, args, kwargs).value.0 != ArgumentValue(req, y, args, kwargs).value.0
    ensures var l := ArgumentValue(req, x, args, kwargs).value.0; l.Positional? || l.name == x
  {
  }

  /** The positions and names of the arguments that travel as files. */
  function NulledPositions(bindings: seq<Binding>): set<nat> {
    set k | 0 <= k < |bindings| && bindings[k].artifact && bindings[k].location.Positional? ::
      bindings[k].location.index
  }

  function NulledNames(bindings: seq<Binding>): set<string> {
    set k | 0 <= k < |bindings| && bindings[k].artifact && !bindings[k].location.Positional? ::
      bindings[k].location.name
  }

  /** A copy of the positional arguments with the ones that travel as files nulled. */
  function NulledArgs(args: Option<seq<Value>>, bindings: seq<Binding>): Option<seq<Value>> {
    match args
    case None => None
    case Some(items) => Some(seq(|items|, p requires 0 <= p < |items| => if p in NulledPositions(bindings) then Null
    else items[p]))
  }

  /** A copy of the keyword arguments with the ones that travel as files nulled, made if needed. */
  function NulledKwargs(kwargs: Option<map<string, Value>>, bindings: seq<Binding>): Option<map<string, Value>> {
    var names := NulledNames(bindings);
    if kwargs.None? && names == {} then None
    else
      var items := if kwargs.Some? then kwargs.value else map[];
      Some(map n | n in items.Keys + names :: if n in names then Null else items[n])
  }

  lemma NulledGrow(bindings: seq<Binding>, b: Binding)
    ensures NulledPositions(bindings + [b]) ==
      NulledPositions(bindings) + if b.artifact && b.location.Positional? then {b.location.index} else {}
    ensures NulledNames(bindings + [b]) == NulledNames(bindings) + if b.artifact
      && !b.location.Positional? then {b.location.name} else {}
  {
    var all := bindings + [b];
    assert all[|bindings|] == b;
    assert forall k | 0 <= k < |bindings| :: all[k] == bindings[k];
    forall p | p in NulledPositions(bindings) ensures p in NulledPositions(all) {
      var k :| 0 <= k < |bindings| && bindings[k].artifact && bindings[k].location == Positional(p);
      assert all[k].location == Positional(p);
    }
    forall n | n in NulledNames(bindings) ensures n in NulledNames(all) {
      var k :| 0 <= k < |bindings| && bindings[k].artifact && !bindings[k].location.Positional?
        && bindings[k].location.name == n;
      assert all[k].location.name == n;
    }
  }

  /** A Python list and a Python dictionary: objects that are updated in place. */
  class ArgList {
    var items: seq<Value>

    constructor (items: seq<Value>)
      ensures this.items == items
    {
      this.items := items;
    }
  }

  class Dict {
    var items: map<string, Value>

    constructor (items: map<string, Value>)
      ensures this.items == items
    {
      this.items := items;
    }
  }

  function ArgsOf(args: ArgList?): Option<seq<Value>>
    reads args
  {
    if args == null then None else Some(args.items)
  }

  function KwargsOf(kwargs: Dict?): Option<map<string, Value>>
    reads kwargs
  {
    if kwargs == null then None else Some(kwargs.items)
  }

  // -------------------------------------------------------------------- preparation

  /** What travels for a port, if the call supplies a value and the checks accept it. */
  function Wanted(w: World, req: Request, t: Target, args: Option<seq<Value>>,
                  kwargs: Option<map<string, Value>>): Result<(Location, Value, string)> {
    match ArgumentValue(req, t.externalName, args, kwargs)
    case Err(code) => Err(code)
    case Ok((location, value)) =>
      if t.canonical in req.libraryInputs && !value.File? then Err("library_adapter_input_file")
      else
        match ResolveInputAdapter(w, value, SpecOf(req, t))
        case Err(code) => Err(code)
        case Ok(id) =>
          if !w.accepts(t, id, value) then Err("adapter_check")
          else if id == JSON && (value.File? || value.Native?) then Err("file_json_adapter")
          else Ok((location, value, id))
  }

  /** The file that is staged for a value. */
  function Stage(w: World, value: Value, id: string, spec: Option<Spec>): Option<Staged> {
    match value
    case File(name, content) => Some(Staged(content, name))
    case _ =>
      if id == OPAQUE_FILE then None
      else
        match w.save(value, id, spec)
        case Some(content) => Some(Staged(content, None))
        case None => None
  }

  /** A binding says where its value is and how it travels: as a file unless the adapter is JSON. */
  predicate BindingFits(w: World, req: Request, t: Target, b: Binding, args: Option<seq<Value>>,
                        kwargs: Option<map<string, Value>>) {
    && b.port == t.canonical && b.externalName == t.externalName
    && Wanted(w, req, t, args, kwargs).Ok?
    && b.location == Wanted(w, req, t, args, kwargs).value.0 && b.adapterId == Wanted(w, req, t, args, kwargs).value.2
    && (b.artifact <==> b.adapterId != JSON) && (b.inputName.Some? <==> b.artifact)
  }

  predicate AllFit(w: World, req: Request, bindings: seq<Binding>, args: Option<seq<Value>>,
                   kwargs: Option<map<string, Value>>) {
    |bindings| <= |req.targets| && forall k | 0 <= k < |bindings| ::
      BindingFits(w, req, req.targets[k], bindings[k], args, kwargs)
  }

  function InputNames(inputs: seq<Input>): set<string> { set j | 0 <= j < |inputs| :: inputs[j].name }

  predicate DistinctInputs(inputs: seq<Input>) {
    forall i, j | 0 <= i < j < |inputs| :: inputs[i].name != inputs[j].name
  }

  /** How many of the first `k` bindings travel as files. */
  function Artifacts(bindings: seq<Binding>, k: nat): nat
    requires k <= |bindings|
  {
    if k == 0 then 0 else Artifacts(bindings, k - 1) + if bindings[k - 1].artifact then 1 else 0
  }

  /** The staged inputs are those of the bindings that travel as files, in their order. */
  predicate StagedInOrder(bindings: seq<Binding>, inputs: seq<Input>) {
    && |inputs| == Artifacts(bindings, |bindings|)
    && forall k | 0 <= k < |bindings| && bindings[k].artifact :: StagedAt(bindings, inputs, k)
  }

  predicate StagedAt(bindings: seq<Binding>, inputs: seq<Input>, k: nat)
    requires k < |bindings|
  {
    var j := Artifacts(bindings, k);
    j < |inputs| && bindings[k].inputName == Some(inputs[j].name) && inputs[j].port == bindings[k].port
    && inputs[j].adapterId == bindings[k].adapterId
  }

  lemma {:induction false} ArtifactsPrefix(bindings: seq<Binding>, b: Binding, k: nat)
    requires k <= |bindings|
    ensures Artifacts(bindings + [b], k) == Artifacts(bindings, k)
  {
    if k > 0 {
      ArtifactsPrefix(bindings, b, k - 1);
      assert (bindings + [b])[k - 1] == bindings[k - 1];
    }
  }

  lemma StagedGrows(bindings: seq<Binding>, inputs: seq<Input>, b: Binding, more: seq<Input>)
    requires StagedInOrder(bindings, inputs)
    requires if b.artifact then |more| == 1 && b.inputName == Some(more[0].name) && more[0].port == b.port
      && more[0].adapterId == b.adapterId else more == []
    ensures StagedInOrder(bindings + [b], inputs + more)
  {
    var all := bindings + [b];
    ArtifactsPrefix(bindings, b, |bindings|);
    assert all[|bindings|] == b;
    forall k | 0 <= k < |all| && all[k].artifact ensures StagedAt(all, inputs + more, k) {
      ArtifactsPrefix(bindings, b, k);
      if k < |bindings| { assert StagedAt(bindings, inputs, k); }
    }
  }

  lemma NamesGrow(inputs: seq<Input>, i: Input)
    requires DistinctInputs(inputs) && i.name !in InputNames(inputs)
    ensures DistinctInputs(inputs + [i]) && InputNames(inputs + [i]) == InputNames(inputs) + {i.name}
  {
    var all := inputs + [i];
    assert all[|inputs|] == i;
    forall j | 0 <= j < |inputs| ensures all[j].name != i.name { assert inputs[j].name in InputNames(inputs); }
    forall n | n in InputNames(inputs) ensures n in InputNames(all) {
      var j :| 0 <= j < |inputs| && inputs[j].name == n;
      assert all[j].name == n;
    }
  }

  /** `_replace_argument`: null an argument in place; keyword arguments are made if there are none. */
  method ReplaceArgument(location: Location, args: ArgList?, kwargs: Dict?) returns (kwargs': Dict?)
    requires location.Positional? ==> args != null && location.index < |args.items|
    modifies args, kwargs
    ensures location.Positional? ==>
      kwargs' == kwargs && args.items == old(args.items)[location.index := Null]
      && KwargsOf(kwargs) == old(KwargsOf(kwargs))
    ensures !location.Positional? ==>
      ArgsOf(args) == old(ArgsOf(args)) && kwargs' != null && (kwargs' == kwargs || fresh(kwargs'))
    ensures !location.Positional? ==>
      kwargs'.items == (if kwargs == null then map[] else old(kwargs.items))[location.name := Null]
  {
    if location.Positional? {
      args.items := args.items[location.index := Null];
      return kwargs;
    }
    kwargs' := kwargs;
    if kwargs' == null { kwargs' := new Dict(map[]); }
    kwargs'.items := kwargs'.items[location.name := Null];
  }

  /** A name for a staged file: at most 255 characters unless it has a number, and not used in this request. */
  method UniqueInputName(w: World, port: string, logicalName: Option<string>, digest: string, used: set<string>)
    returns (name: string, after: set<string>)
    ensures name !in used && after == used + {name}
    ensures exists k :: U.IsFirstFree(NameScheme(w, port, logicalName, digest), used, name, k)
  {
    name := U.FirstFree(NameScheme(w, port, logicalName, digest), used);
    after := used + {name};
  }

  function Cut(s: string, n: nat): string { if |s| <= n then s else s[..n] }

  function NameScheme(w: World, port: string, logicalName: Option<string>, digest: string): U.Scheme {
    var base := Cut(w.baseName(port, logicalName, digest), 255);
    U.Scheme(base, Cut(base, 245), "")
  }

  /** Staged names fit a directory entry as long as fewer than a thousand million are in use. */
  lemma StagedNamesAreShort(w: World, port: string, logicalName: Option<string>, digest: string, used: set<string>,
                            name: string, k: nat)
    requires U.IsFirstFree(NameScheme(w, port, logicalName, digest), used, name, k) && |used| < 999_999_990
    ensures |name| <= 255
  {
    assert U.D.Power10(9) == 1_000_000_000;
    U.D.PrintLength(k, 9);
  }

  // ------------------------------------------------------------------- whole requests

  /** The first port that reads an argument; its adapter stages the value for all of them. */
  function First(req: Request, name: string, n: nat): (i: nat)
    requires n <= |req.targets|
    ensures i <= n && (i < n ==> req.targets[i].externalName == name)
    ensures forall j | 0 <= j < i :: req.targets[j].externalName != name
  {
    if n == 0 then 0
    else
      var i := First(req, name, n - 1);
      if i < n - 1 || req.targets[n - 1].externalName == name then i else n
  }

  function StageFor(w: World, req: Request, name: string, args: Option<seq<Value>>,
                    kwargs: Option<map<string, Value>>): Option<Staged> {
    var i := First(req, name, |req.targets|);
    if i == |req.targets| then None
    else
      match Wanted(w, req, req.targets[i], args, kwargs)
      case Err(_) => None
      case Ok((_, value, id)) => Stage(w, value, id, SpecOf(req, req.targets[i]))
  }

  predicate TargetPrepares(w: World, req: Request, t: Target, args: Option<seq<Value>>,
                           kwargs: Option<map<string, Value>>) {
    && Wanted(w, req, t, args, kwargs).Ok?
    && (Wanted(w, req, t, args, kwargs).value.2 != JSON ==> StageFor(w, req, t.externalName, args, kwargs).Some?)
  }

  /** When a request can be prepared. */
  predicate Prepares(w: World, req: Request, args: Option<seq<Value>>, kwargs: Option<map<string, Value>>) {
    Agreed(req) && forall i | 0 <= i < |req.targets| :: TargetPrepares(w, req, req.targets[i], args, kwargs)
  }

  /** Ports that read one argument want one adapter for it. */
  lemma SameAdapter(w: World, req: Request, i: nat, j: nat, args: Option<seq<Value>>,
                    kwargs: Option<map<string, Value>>)
    requires Agreed(req) && i < |req.targets| && j < |req.targets|
    requires req.targets[i].externalName == req.targets[j].externalName
    requires Wanted(w, req, req.targets[i], args, kwargs).Ok? && Wanted(w, req, req.targets[j], args, kwargs).Ok?
    ensures Wanted(w, req, req.targets[i], args, kwargs) == Wanted(w, req, req.targets[j], args, kwargs)
  {
    hide ArgumentValue, ResolveSpec;
    var x, y := SpecOf(req, req.targets[i]), SpecOf(req, req.targets[j]);
    assert IdentityOf(x) == IdentityOf(y) by { if j < i { assert IdentityOf(y) == IdentityOf(x); } }
    SameIdentitySameAdapter(w, Wanted(w, req, req.targets[i], args, kwargs).value.1, x, y);
  }

  /** Every staged input holds the one file of its argument. */
  ghost predicate ContentsFit(w: World, req: Request, bindings: seq<Binding>, inputs: seq<Input>,
                              args: Option<seq<Value>>, kwargs: Option<map<string, Value>>) {
    forall k | 0 <= k < |bindings| && bindings[k].artifact :: ContentFits(w, req, bindings, inputs, k, args, kwargs)
  }

  ghost predicate ContentFits(w: World, req: Request, bindings: seq<Binding>, inputs: seq<Input>, k: nat,
                              args: Option<seq<Value>>, kwargs: Option<map<string, Value>>)
    requires k < |bindings|
  {
    var staged, j := StageFor(w, req, bindings[k].externalName, args, kwargs), Artifacts(bindings, k);
    j < |inputs| && staged.Some? && HoldsFile(w, inputs, j, staged.value)
  }

  /** Input `j` holds the file, under the first free name of those that are tried for it. */
  ghost predicate HoldsFile(w: World, inputs: seq<Input>, j: nat, file: Staged)
    requires j < |inputs|
  {
    && inputs[j].content == file.content
    && exists q :: U.IsFirstFree(NameScheme(w, inputs[j].port, file.logicalName, w.hash(file.content)),
                                 InputNames(inputs[..j]), inputs[j].name, q)
  }

  lemma FileStays(w: World, inputs: seq<Input>, more: seq<Input>, j: nat, file: Staged)
    requires j < |inputs| && HoldsFile(w, inputs, j, file)
    ensures HoldsFile(w, inputs + more, j, file)
  {
    assert (inputs + more)[..j] == inputs[..j];
  }

  lemma ContentsGrow(w: World, req: Request, bindings: seq<Binding>, inputs: seq<Input>, b: Binding, more: seq<Input>,
                     args: Option<seq<Value>>, kwargs: Option<map<string, Value>>)
    requires ContentsFit(w, req, bindings, inputs, args, kwargs) && StagedInOrder(bindings, inputs)
    requires b.artifact ==> |more| == 1 && StageFor(w, req, b.externalName, args, kwargs).Some?
    requires b.artifact ==>
      HoldsFile(w, inputs + more, |inputs|, StageFor(w, req, b.externalName, args, kwargs).value)
    ensures ContentsFit(w, req, bindings + [b], inputs + more, args, kwargs)
  {
    hide StageFor, HoldsFile;
    var all := bindings + [b];
    ArtifactsPrefix(bindings, b, |bindings|);
    assert all[|bindings|] == b;
    forall k | 0 <= k < |all| && all[k].artifact ensures ContentFits(w, req, all, inputs + more, k, args, kwargs) {
      ArtifactsPrefix(bindings, b, k);
      if k < |bindings| {
        assert ContentFits(w, req, bindings, inputs, k, args, kwargs);
        var staged := StageFor(w, req, bindings[k].externalName, args, kwargs);
        FileStays(w, inputs, more, Artifacts(bindings, k), staged.value);
      }
    }
  }

  /** All that is known of the work done for the first ports. */
  ghost predicate Done(w: World, req: Request, bindings: seq<Binding>, inputs: seq<Input>, used: set<string>,
                       staged: map<string, Staged>,
                       args: Option<seq<Value>>, kwargs: Option<map<string, Value>>) {
    && AllFit(w, req, bindings, args, kwargs) && DistinctInputs(inputs) && used == InputNames(inputs)
    && StagedInOrder(bindings, inputs) && ContentsFit(w, req, bindings, inputs, args, kwargs)
    && (forall name | name in staged :: StageFor(w, req, name, args, kwargs) == Some(staged[name]))
    && (forall k | 0 <= k < |bindings| && bindings[k].artifact :: bindings[k].externalName in staged)
    && (forall i | 0 <= i < |bindings| :: TargetPrepares(w, req, req.targets[i], args, kwargs))
  }

  lemma NothingDone(w: World, req: Request, args: Option<seq<Value>>, kwargs: Option<map<string, Value>>)
    ensures Done(w, req, [], [], {}, map[], args, kwargs)
    ensures NulledArgs(args, []) == args && NulledKwargs(kwargs, []) == kwargs
  {
    assert NulledPositions([]) == {} && NulledNames([]) == {};
    if args.Some? { assert NulledArgs(args, []).value == args.value; }
    if kwargs.Some? { assert NulledKwargs(kwargs, []).value == kwargs.value; }
  }

  lemma DoneInline(w: World, req: Request, bindings: seq<Binding>, inputs: seq<Input>, used: set<string>,
                   staged: map<string, Staged>,
                   args: Option<seq<Value>>, kwargs: Option<map<string, Value>>, b: Binding)
    requires Done(w, req, bindings, inputs, used, staged, args, kwargs) && |bindings| < |req.targets|
    requires BindingFits(w, req, req.targets[|bindings|], b, args, kwargs) && !b.artifact
    ensures Done(w, req, bindings + [b], inputs, used, staged, args, kwargs)
  {
    hide Wanted, StageFor;
    StagedGrows(bindings, inputs, b, []);
    ContentsGrow(w, req, bindings, inputs, b, [], args, kwargs);
    assert inputs + [] == inputs;
  }

  lemma DoneStaged(w: World, req: Request, bindings: seq<Binding>, inputs: seq<Input>, used: set<string>,
                   staged: map<string, Staged>,
                   args: Option<seq<Value>>, kwargs: Option<map<string, Value>>, b: Binding, i: Input)
    requires Done(w, req, bindings, inputs, used, staged, args, kwargs) && |bindings| < |req.targets|
    requires BindingFits(w, req, req.targets[|bindings|], b, args, kwargs) && b.artifact
    requires b.externalName in staged && i.name !in used
    requires i == Input(i.name, b.port, staged[b.externalName].content, b.adapterId)
    requires b.inputName == Some(i.name)
    requires HoldsFile(w, inputs + [i], |inputs|, staged[b.externalName])
    ensures Done(w, req, bindings + [b], inputs + [i], used + {i.name}, staged, args, kwargs)
  {
    hide Wanted, StageFor, HoldsFile, ContentsFit;
    NamesGrow(inputs, i);
    StagedGrows(bindings, inputs, b, [i]);
    ContentsGrow(w, req, bindings, inputs, b, [i], args, kwargs);
  }

  lemma NewFileIsHeld(w: World, inputs: seq<Input>, i: Input, file: Staged)
    requires i.content == file.content
    requires exists q :: U.IsFirstFree(NameScheme(w, i.port, file.logicalName, w.hash(file.content)),
                                       InputNames(inputs), i.name, q)
    ensures HoldsFile(w, inputs + [i], |inputs|, file)
  {
    assert (inputs + [i])[..|inputs|] == inputs;
  }

  lemma UsedAreInputs(w: World, req: Request, bindings: seq<Binding>, inputs: seq<Input>, used: set<string>,
                      staged: map<string, Staged>,
                      args: Option<seq<Value>>, kwargs: Option<map<string, Value>>)
    requires Done(w, req, bindings, inputs, used, staged, args, kwargs)
    ensures used == InputNames(inputs)
  {
  }

  /** A value that is not staged yet is staged by the first port that reads it. */
  lemma StagedFirst(w: World, req: Request, bindings: seq<Binding>, inputs: seq<Input>, used: set<string>,
                    staged: map<string, Staged>,
                    args: Option<seq<Value>>, kwargs: Option<map<string, Value>>)
    requires Agreed(req) && Done(w, req, bindings, inputs, used, staged, args, kwargs) && |bindings| < |req.targets|
    requires var t := req.targets[|bindings|];
      t.externalName !in staged && Wanted(w, req, t, args, kwargs).Ok?
      && Wanted(w, req, t, args, kwargs).value.2 != JSON
    ensures var t := req.targets[|bindings|]; var wanted := Wanted(w, req, t, args, kwargs).value;
      StageFor(w, req, t.externalName, args, kwargs) == Stage(w, wanted.1, wanted.2, SpecOf(req, t))
  {
    hide Wanted;
    var k, name := |bindings|, req.targets[|bindings|].externalName;
    var i := First(req, name, |req.targets|);
    if i < k {
      assert BindingFits(w, req, req.targets[i], bindings[i], args, kwargs);
      SameAdapter(w, req, i, k, args, kwargs);
      assert false;
    }
    assert i == k;
  }

  lemma ArgsGrow(args: Option<seq<Value>>, bindings: seq<Binding>, b: Binding)
    ensures b.artifact && b.location.Positional? && args.Some? && b.location.index < |args.value| ==>
      NulledArgs(args, bindings + [b]) == Some(NulledArgs(args, bindings).value[b.location.index := Null])
    ensures !(b.artifact && b.location.Positional?) ==> NulledArgs(args, bindings + [b]) == NulledArgs(args, bindings)
  {
    NulledGrow(bindings, b);
    if args.Some? && b.artifact && b.location.Positional? && b.location.index < |args.value| {
      assert NulledArgs(args, bindings + [b]).value == NulledArgs(args, bindings).value[b.location.index := Null];
    }
    if args.Some? && !(b.artifact && b.location.Positional?) {
      assert NulledPositions(bindings + [b]) == NulledPositions(bindings);
      assert NulledArgs(args, bindings + [b]).value == NulledArgs(args, bindings).value;
    }
  }

  lemma SameNulledKwargs(kwargs: Option<map<string, Value>>, x: seq<Binding>, y: seq<Binding>)
    requires NulledNames(x) == NulledNames(y)
    ensures NulledKwargs(kwargs, x) == NulledKwargs(kwargs, y)
  {
    if NulledKwargs(kwargs, x).Some? { assert NulledKwargs(kwargs, x).value == NulledKwargs(kwargs, y).value; }
  }

  function OrEmpty(kwargs: Option<map<string, Value>>): map<string, Value> {
    if kwargs.Some? then kwargs.value else map[]
  }

  lemma KwargsGrow(kwargs: Option<map<string, Value>>, bindings: seq<Binding>, b: Binding)
    ensures b.artifact && !b.location.Positional? ==>
      NulledKwargs(kwargs, bindings + [b]) == Some(OrEmpty(NulledKwargs(kwargs, bindings))[b.location.name := Null])
    ensures !(b.artifact && !b.location.Positional?) ==>
      NulledKwargs(kwargs, bindings + [b]) == NulledKwargs(kwargs, bindings)
  {
    NulledGrow(bindings, b);
    if b.artifact && !b.location.Positional? {
      var before := OrEmpty(NulledKwargs(kwargs, bindings));
      assert NulledKwargs(kwargs, bindings + [b]).value == before[b.location.name := Null];
    } else {
      assert NulledNames(bindings + [b]) == NulledNames(bindings);
      SameNulledKwargs(kwargs, bindings + [b], bindings);
    }
  }

  /** A prepared copy of the call: what the copies hold, and that they are copies. */
  ghost predicate Copies(args: ArgList?, kwargs: Dict?, preparedArgs: ArgList?, preparedKwargs: Dict?,
                         bindings: seq<Binding>)
    reads args, kwargs, preparedArgs, preparedKwargs
  {
    && ArgsOf(preparedArgs) == NulledArgs(ArgsOf(args), bindings)
    && KwargsOf(preparedKwargs) == NulledKwargs(KwargsOf(kwargs), bindings)
    && (args != null ==> preparedArgs != args) && (kwargs != null ==> preparedKwargs != kwargs)
  }

  method CopyArgs(args: ArgList?) returns (copy: ArgList?)
    ensures ArgsOf(copy) == ArgsOf(args) && (copy == null || fresh(copy)) && (args != null ==> copy != args)
  {
    copy := null;
    if args != null { copy := new ArgList(args.items); }
  }

  method CopyKwargs(kwargs: Dict?) returns (copy: Dict?)
    ensures KwargsOf(copy) == KwargsOf(kwargs) && (copy == null || fresh(copy)) && (kwargs != null ==> copy != kwargs)
  {
    copy := null;
    if kwargs != null { copy := new Dict(kwargs.items); }
  }

  lemma NulledLength(args: Option<seq<Value>>, bindings: seq<Binding>)
    ensures args.Some? ==> NulledArgs(args, bindings).Some? && |NulledArgs(args, bindings).value| == |args.value|
  {
  }

  /** Null the argument of a binding that travels as a file in the copies. */
  method NullArgument(args: ArgList?, kwargs: Dict?, preparedArgs: ArgList?, preparedKwargs: Dict?,
                      ghost bindings: seq<Binding>, b: Binding)
    returns (kwargs': Dict?)
    requires Copies(args, kwargs, preparedArgs, preparedKwargs, bindings) && b.artifact
    requires b.location.Positional? ==> args != null && b.location.index < |args.items|
    modifies preparedArgs, preparedKwargs
    ensures Copies(args, kwargs, preparedArgs, kwargs', bindings + [b]) && ArgsOf(args) == old(ArgsOf(args))
    ensures KwargsOf(kwargs) == old(KwargsOf(kwargs))
    ensures kwargs' == preparedKwargs || fresh(kwargs')
  {
    ArgsGrow(ArgsOf(args), bindings, b);
    KwargsGrow(KwargsOf(kwargs), bindings, b);
    NulledLength(ArgsOf(args), bindings);
    hide NulledArgs, NulledKwargs;
    kwargs' := ReplaceArgument(b.location, preparedArgs, preparedKwargs);
  }

  lemma CopiedAtFirst(args: ArgList?, kwargs: Dict?, preparedArgs: ArgList?, preparedKwargs: Dict?)
    requires ArgsOf(preparedArgs) == ArgsOf(args) && KwargsOf(preparedKwargs) == KwargsOf(kwargs)
    requires (args != null ==> preparedArgs != args) && (kwargs != null ==> preparedKwargs != kwargs)
    ensures Copies(args, kwargs, preparedArgs, preparedKwargs, [])
  {
    assert NulledPositions([]) == {} && NulledNames([]) == {};
    if args != null { assert NulledArgs(ArgsOf(args), []).value == args.items; }
    if kwargs != null { assert NulledKwargs(KwargsOf(kwargs), []).value == kwargs.items; }
  }

  lemma InlineCopies(args: ArgList?, kwargs: Dict?, preparedArgs: ArgList?, preparedKwargs: Dict?,
                     bindings: seq<Binding>, b: Binding)
    requires Copies(args, kwargs, preparedArgs, preparedKwargs, bindings) && !b.artifact
    ensures Copies(args, kwargs, preparedArgs, preparedKwargs, bindings + [b])
  {
    hide NulledArgs, NulledKwargs;
    ArgsGrow(ArgsOf(args), bindings, b);
    KwargsGrow(KwargsOf(kwargs), bindings, b);
  }

  lemma InlineFits(w: World, req: Request, t: Target, b: Binding, args: Option<seq<Value>>,
                   kwargs: Option<map<string, Value>>)
    requires Wanted(w, req, t, args, kwargs).Ok? && Wanted(w, req, t, args, kwargs).value.2 == JSON
    requires b == Binding(t.canonical, t.externalName, JSON, false, Wanted(w, req, t, args, kwargs).value.0, None)
    ensures BindingFits(w, req, t, b, args, kwargs)
  {
  }

  lemma ArtifactFits(w: World, req: Request, t: Target, b: Binding, args: Option<seq<Value>>,
                     kwargs: Option<map<string, Value>>)
    requires Wanted(w, req, t, args, kwargs).Ok? && Wanted(w, req, t, args, kwargs).value.2 != JSON && b.artifact
    requires b.inputName.Some?
    requires b.port == t.canonical && b.externalName == t.externalName
    requires b.location == Wanted(w, req, t, args, kwargs).value.0
    requires b.adapterId == Wanted(w, req, t, args, kwargs).value.2
    ensures BindingFits(w, req, t, b, args, kwargs)
    ensures b.location.Positional? ==> args.Some? && b.location.index < |args.value|
  {
  }

  lemma DoneMore(w: World, req: Request, bindings: seq<Binding>, inputs: seq<Input>, used: set<string>,
                 staged: map<string, Staged>,
                 args: Option<seq<Value>>, kwargs: Option<map<string, Value>>, name: string, file: Staged)
    requires Done(w, req, bindings, inputs, used, staged, args, kwargs)
    requires StageFor(w, req, name, args, kwargs) == Some(file)
    ensures Done(w, req, bindings, inputs, used, staged[name := file], args, kwargs)
  {
    hide StageFor, StagedInOrder, ContentsFit, AllFit, TargetPrepares;
  }

  lemma AllDone(w: World, req: Request, bindings: seq<Binding>, inputs: seq<Input>, used: set<string>,
                staged: map<string, Staged>,
                args: Option<seq<Value>>, kwargs: Option<map<string, Value>>)
    requires Agreed(req) && Done(w, req, bindings, inputs, used, staged, args, kwargs) && |bindings| == |req.targets|
    ensures Prepares(w, req, args, kwargs) && AllFit(w, req, bindings, args, kwargs)
    ensures DistinctInputs(inputs) && StagedInOrder(bindings, inputs)
    ensures ContentsFit(w, req, bindings, inputs, args, kwargs)
  {
    hide TargetPrepares;
  }

  // ------------------------------------------------------------ what a prepared call is

  /** The call supplies this value for the port, and the checks let it travel with this adapter. */
  predicate Travels(w: World, req: Request, i: nat, args: Option<seq<Value>>, kwargs: Option<map<string, Value>>,
                    location: Location, value: Value, id: string)
    requires i < |req.targets|
  {
    var t := req.targets[i];
    && Supplies(req, t.externalName, args, kwargs, location, value) && Chooses(w, SpecOf(req, t), value, id)
    && (t.canonical in req.libraryInputs ==> value.File?) && w.accepts(t, id, value)
    && (id == JSON ==> value.Null? || value.Plain?)
  }

  /** No port before `i` reads the same argument. */
  predicate ReadsFirst(req: Request, i: nat)
    requires i < |req.targets|
  {
    forall j | 0 <= j < i :: req.targets[j].externalName != req.targets[i].externalName
  }

  /** The bytes of a value that travels as a file: those of a given file, or those that its adapter saves. */
  predicate Carries(w: World, req: Request, i: nat, value: Value, id: string, content: Bytes)
    requires i < |req.targets|
  {
    match value
    case File(_, bytes) => content == bytes
    case _ => id != OPAQUE_FILE && w.save(value, id, SpecOf(req, req.targets[i])) == Some(content)
  }

  function LogicalName(value: Value): Option<string> { if value.File? then value.name else None }

  ghost predicate PortPrepares(w: World, req: Request, i: nat, args: Option<seq<Value>>,
                               kwargs: Option<map<string, Value>>)
    requires i < |req.targets|
  {
    exists location, value, id ::
      && Travels(w, req, i, args, kwargs, location, value, id)
      && (ReadsFirst(req, i) && id != JSON ==> exists content :: Carries(w, req, i, value, id, content))
  }

  /** Ports that read one argument make the same choice, and each port has a value that may travel and be staged. */
  ghost predicate Preparable(w: World, req: Request, args: Option<seq<Value>>, kwargs: Option<map<string, Value>>) {
    && (forall i, j | 0 <= i < j < |req.targets| && req.targets[i].externalName == req.targets[j].externalName ::
         SameChoice(SpecOf(req, req.targets[i]), SpecOf(req, req.targets[j])))
    && forall i | 0 <= i < |req.targets| :: PortPrepares(w, req, i, args, kwargs)
  }

  /**
   Port `k` is bound to the place, the adapter and the way in which its value travels.  If that is as a file, the
   next input holds the bytes of the value, as the first port that reads it stages them, under the first name that
   is free of those tried for this port, the given name and these bytes.
   */
  ghost predicate PortPrepared(w: World, req: Request, bindings: seq<Binding>, inputs: seq<Input>, k: nat,
                               args: Option<seq<Value>>, kwargs: Option<map<string, Value>>)
    requires k < |bindings| == |req.targets|
  {
    var t, b, j := req.targets[k], bindings[k], Artifacts(bindings, k);
    exists value ::
      && Travels(w, req, k, args, kwargs, b.location, value, b.adapterId)
      && b.port == t.canonical && b.externalName == t.externalName && (b.artifact <==> b.adapterId != JSON)
      && (!b.artifact ==> b.inputName == None)
      && (b.artifact ==>
           && j < |inputs| && b.inputName == Some(inputs[j].name)
           && inputs[j].port == t.canonical && inputs[j].adapterId == b.adapterId
           && (exists i :: 0 <= i <= k && req.targets[i].externalName == t.externalName && ReadsFirst(req, i)
                 && Carries(w, req, i, value, b.adapterId, inputs[j].content))
           && exists q :: U.IsFirstFree(NameScheme(w, t.canonical, LogicalName(value), w.hash(inputs[j].content)),
                                        InputNames(inputs[..j]), inputs[j].name, q))
  }

  lemma WantedTravels(w: World, req: Request, i: nat, args: Option<seq<Value>>, kwargs: Option<map<string, Value>>)
    requires i < |req.targets|
    ensures forall location, value, id :: Travels(w, req, i, args, kwargs, location, value, id) <==>
              Wanted(w, req, req.targets[i], args, kwargs) == Ok((location, value, id))
  {
    hide Supplies, Chooses, ArgumentValue, ResolveInputAdapter;
    var t := req.targets[i];
    ArgumentIsSupplied(req, t.externalName, args, kwargs);
    forall location, value, id
      ensures Travels(w, req, i, args, kwargs, location, value, id) <==>
              Wanted(w, req, t, args, kwargs) == Ok((location, value, id))
    {
      AdapterIsChosen(w, value, SpecOf(req, t), id);
    }
  }

  lemma StageCarries(w: World, req: Request, i: nat, value: Value, id: string)
    requires i < |req.targets|
    ensures var staged := Stage(w, value, id, SpecOf(req, req.targets[i]));
      && (forall content :: Carries(w, req, i, value, id, content) <==> staged.Some? && staged.value.content == content)
      && (staged.Some? ==> staged.value.logicalName == LogicalName(value))
  {
  }

  lemma AgreedOnChoice(req: Request)
    ensures Agreed(req) <==>
      forall i, j | 0 <= i < j < |req.targets| && req.targets[i].externalName == req.targets[j].externalName ::
        SameChoice(SpecOf(req, req.targets[i]), SpecOf(req, req.targets[j]))
  {
    hide SameChoice, IdentityOf;
    forall i, j | 0 <= i < j < |req.targets|
      ensures IdentityOf(SpecOf(req, req.targets[i])) == IdentityOf(SpecOf(req, req.targets[j])) <==>
              SameChoice(SpecOf(req, req.targets[i]), SpecOf(req, req.targets[j]))
    {
      SameIdentityIsSameChoice(SpecOf(req, req.targets[i]), SpecOf(req, req.targets[j]));
    }
  }

  /** The first port that reads the argument of port `i`. */
  lemma FirstReads(req: Request, i: nat)
    requires i < |req.targets|
    ensures var f := First(req, req.targets[i].externalName, |req.targets|);
      f <= i && req.targets[f].externalName == req.targets[i].externalName && ReadsFirst(req, f)
      && (ReadsFirst(req, i) ==> f == i)
  {
  }

  lemma PortPreparesMeans(w: World, req: Request, i: nat, args: Option<seq<Value>>, kwargs: Option<map<string, Value>>)
    requires Agreed(req) && i < |req.targets|
    requires forall j | 0 <= j <= i :: Wanted(w, req, req.targets[j], args, kwargs).Ok?
    ensures PortPrepares(w, req, i, args, kwargs) <==>
      (ReadsFirst(req, i) ==> TargetPrepares(w, req, req.targets[i], args, kwargs))
  {
    hide Wanted, Stage, Travels, Carries, First, Agreed;
    FirstReads(req, i);
    WantedTravels(w, req, i, args, kwargs);
    var (location, value, id) := Wanted(w, req, req.targets[i], args, kwargs).value;
    assert Travels(w, req, i, args, kwargs, location, value, id);
    StageCarries(w, req, i, value, id);
    var staged := Stage(w, value, id, SpecOf(req, req.targets[i]));
    if staged.Some? { assert Carries(w, req, i, value, id, staged.value.content); }
  }

  /** A port that is not the first to read its argument prepares if the first one does. */
  lemma LaterPrepares(w: World, req: Request, i: nat, args: Option<seq<Value>>, kwargs: Option<map<string, Value>>)
    requires Agreed(req) && i < |req.targets|
    requires forall j | 0 <= j <= i :: Wanted(w, req, req.targets[j], args, kwargs).Ok?
    ensures var f := First(req, req.targets[i].externalName, |req.targets|);
      f <= i && (TargetPrepares(w, req, req.targets[f], args, kwargs) <==>
                 TargetPrepares(w, req, req.targets[i], args, kwargs))
  {
    hide Wanted, Agreed, Stage, First;
    FirstReads(req, i);
    SameAdapter(w, req, First(req, req.targets[i].externalName, |req.targets|), i, args, kwargs);
  }

  lemma PreparesMeans(w: World, req: Request, args: Option<seq<Value>>, kwargs: Option<map<string, Value>>)
    ensures Prepares(w, req, args, kwargs) <==> Preparable(w, req, args, kwargs)
  {
    hide Wanted, Agreed, TargetPrepares, PortPrepares, SameChoice;
    AgreedOnChoice(req);
    if Agreed(req) {
      if i :| 0 <= i < |req.targets| && Wanted(w, req, req.targets[i], args, kwargs).Err? {
        NotWanted(w, req, i, args, kwargs);
      } else {
        AllPrepare(w, req, args, kwargs);
      }
    }
  }

  lemma AllPrepare(w: World, req: Request, args: Option<seq<Value>>, kwargs: Option<map<string, Value>>)
    requires Agreed(req) && forall i | 0 <= i < |req.targets| :: Wanted(w, req, req.targets[i], args, kwargs).Ok?
    ensures (forall i | 0 <= i < |req.targets| :: TargetPrepares(w, req, req.targets[i], args, kwargs)) <==>
            forall i | 0 <= i < |req.targets| :: PortPrepares(w, req, i, args, kwargs)
  {
    hide Wanted, Agreed, TargetPrepares, PortPrepares, ReadsFirst;
    forall i | 0 <= i < |req.targets|
      ensures PortPrepares(w, req, i, args, kwargs) <==>
        (ReadsFirst(req, i) ==> TargetPrepares(w, req, req.targets[i], args, kwargs))
    {
      PortPreparesMeans(w, req, i, args, kwargs);
    }
    if forall i | 0 <= i < |req.targets| :: PortPrepares(w, req, i, args, kwargs) {
      forall i | 0 <= i < |req.targets| ensures TargetPrepares(w, req, req.targets[i], args, kwargs) {
        FirstReads(req, i);
        LaterPrepares(w, req, i, args, kwargs);
        assert PortPrepares(w, req, First(req, req.targets[i].externalName, |req.targets|), args, kwargs);
      }
    }
  }

  lemma NotWanted(w: World, req: Request, i: nat, args: Option<seq<Value>>, kwargs: Option<map<string, Value>>)
    requires i < |req.targets| && Wanted(w, req, req.targets[i], args, kwargs).Err?
    ensures !PortPrepares(w, req, i, args, kwargs) && !TargetPrepares(w, req, req.targets[i], args, kwargs)
  {
    hide Wanted, Travels;
    WantedTravels(w, req, i, args, kwargs);
  }

  lemma PreparedMeans(w: World, req: Request, bindings: seq<Binding>, inputs: seq<Input>, k: nat,
                      args: Option<seq<Value>>, kwargs: Option<map<string, Value>>)
    requires Agreed(req) && AllFit(w, req, bindings, args, kwargs) && StagedInOrder(bindings, inputs)
    requires ContentsFit(w, req, bindings, inputs, args, kwargs) && k < |bindings| == |req.targets|
    ensures PortPrepared(w, req, bindings, inputs, k, args, kwargs)
  {
    hide Wanted, Agreed, First, Stage, Travels, Carries, NameScheme, InputNames;
    var t, b, j := req.targets[k], bindings[k], Artifacts(bindings, k);
    assert BindingFits(w, req, t, b, args, kwargs);
    WantedTravels(w, req, k, args, kwargs);
    var value := Wanted(w, req, t, args, kwargs).value.1;
    if b.artifact {
      assert ContentFits(w, req, bindings, inputs, k, args, kwargs) && StagedAt(bindings, inputs, k);
      FirstReads(req, k);
      var f := First(req, t.externalName, |req.targets|);
      assert BindingFits(w, req, req.targets[f], bindings[f], args, kwargs);
      SameAdapter(w, req, f, k, args, kwargs);
      StageCarries(w, req, f, value, b.adapterId);
    }
  }

  lemma AllPrepared(w: World, req: Request, bindings: seq<Binding>, inputs: seq<Input>, used: set<string>,
                    staged: map<string, Staged>,
                    args: Option<seq<Value>>, kwargs: Option<map<string, Value>>)
    requires Agreed(req) && Done(w, req, bindings, inputs, used, staged, args, kwargs) && |bindings| == |req.targets|
    ensures Preparable(w, req, args, kwargs) && AllFit(w, req, bindings, args, kwargs)
    ensures DistinctInputs(inputs) && |inputs| == Artifacts(bindings, |bindings|)
    ensures forall k | 0 <= k < |bindings| :: PortPrepared(w, req, bindings, inputs, k, args, kwargs)
  {
    hide Done, Agreed, AllFit, ContentsFit, PortPrepared, Preparable, Prepares;
    AllDone(w, req, bindings, inputs, used, staged, args, kwargs);
    PreparesMeans(w, req, args, kwargs);
    forall k | 0 <= k < |bindings| ensures PortPrepared(w, req, bindings, inputs, k, args, kwargs) {
      PreparedMeans(w, req, bindings, inputs, k, args, kwargs);
    }
  }

  /** What a refusal at port `i` means for the whole call. */
  lemma CannotPrepare(w: World, req: Request, i: nat, args: Option<seq<Value>>, kwargs: Option<map<string, Value>>)
    requires i < |req.targets| && (Agreed(req) ==> !TargetPrepares(w, req, req.targets[i], args, kwargs))
    ensures !Preparable(w, req, args, kwargs)
  {
    hide Agreed, TargetPrepares, Preparable;
    PreparesMeans(w, req, args, kwargs);
  }

  lemma Disagreeing(w: World, req: Request, args: Option<seq<Value>>, kwargs: Option<map<string, Value>>)
    requires !Agreed(req)
    ensures !Preparable(w, req, args, kwargs)
  {
    hide Agreed, Preparable;
    PreparesMeans(w, req, args, kwargs);
  }

  /** Where the first port that reads a value cannot stage it, the call cannot be prepared. */
  lemma CannotStage(w: World, req: Request, i: nat, args: Option<seq<Value>>, kwargs: Option<map<string, Value>>)
    requires i < |req.targets| && Wanted(w, req, req.targets[i], args, kwargs).Ok?
    requires Wanted(w, req, req.targets[i], args, kwargs).value.2 != JSON
    requires StageFor(w, req, req.targets[i].externalName, args, kwargs).None?
    ensures !Preparable(w, req, args, kwargs)
  {
    hide Wanted, StageFor;
    CannotPrepare(w, req, i, args, kwargs);
  }

  /**
   Prepare the inputs of a call.  It fails exactly if ports disagree about an
   argument, or a value is missing, refused or cannot be staged.  Otherwise each
   port has a binding that says how its value travels, each binding that travels
   as a file has one staged input with a name of its own, and copies of the
   call's arguments differ from it exactly where values travel as files.  Only
   new objects are written: the caller's own are untouched.
   */
  method PrepareInputs(w: World, req: Request, args: ArgList?, kwargs: Dict?)
    returns (r: Result<(seq<Binding>, seq<Input>)>, preparedArgs: ArgList?, preparedKwargs: Dict?)
    ensures r.Ok? <==> Preparable(w, req, ArgsOf(args), KwargsOf(kwargs))
    ensures r.Ok? ==> |r.value.0| == |req.targets| && forall k | 0 <= k < |r.value.0| ::
      PortPrepared(w, req, r.value.0, r.value.1, k, ArgsOf(args), KwargsOf(kwargs))
    ensures r.Ok? ==> DistinctInputs(r.value.1) && |r.value.1| == Artifacts(r.value.0, |r.value.0|)
    ensures r.Ok? ==> Agreed(req) && AllFit(w, req, r.value.0, ArgsOf(args), KwargsOf(kwargs))
    ensures r.Ok? ==> Copies(args, kwargs, preparedArgs, preparedKwargs, r.value.0)
    ensures (preparedArgs == null || fresh(preparedArgs)) && (preparedKwargs == null || fresh(preparedKwargs))
  {
    hide Done, Wanted, Agreed, Copies, AllFit, BindingFits, StageFor, Stage, StagedInOrder, ContentsFit, DistinctInputs,
         NulledArgs, NulledKwargs, HoldsFile, NameScheme, InputNames, Preparable, PortPrepared, Artifacts,
         Supplies, ReadsFirst, First;
    var agreed := ValidateGroupedInputSpecs(req);
    preparedArgs := CopyArgs(args);
    preparedKwargs := CopyKwargs(kwargs);
    ghost var a, k := ArgsOf(args), KwargsOf(kwargs);
    if !agreed {
      Disagreeing(w, req, a, k);
      return Err("fanout_adapter_conflict"), preparedArgs, preparedKwargs;
    }
    var bindings: seq<Binding>, inputs: seq<Input> := [], [];
    var used: set<string>, staged: map<string, Staged> := {}, map[];
    NothingDone(w, req, a, k);
    CopiedAtFirst(args, kwargs, preparedArgs, preparedKwargs);
    for n := 0 to |req.targets|
      invariant |bindings| == n && Done(w, req, bindings, inputs, used, staged, a, k)
      invariant ArgsOf(args) == a && KwargsOf(kwargs) == k
      invariant Copies(args, kwargs, preparedArgs, preparedKwargs, bindings)
      invariant (preparedArgs == null || fresh(preparedArgs)) && (preparedKwargs == null || fresh(preparedKwargs))
    {
      var t := req.targets[n];
      var wanted := Wanted(w, req, t, ArgsOf(args), KwargsOf(kwargs));
      if wanted.Err? {
        CannotPrepare(w, req, n, a, k);
        return Err(wanted.code), preparedArgs, preparedKwargs;
      }
      var (location, value, id) := wanted.value;
      if id == JSON {
        var b := Binding(t.canonical, t.externalName, id, false, location, None);
        InlineFits(w, req, t, b, a, k);
        DoneInline(w, req, bindings, inputs, used, staged, a, k, b);
        InlineCopies(args, kwargs, preparedArgs, preparedKwargs, bindings, b);
        bindings := bindings + [b];
      } else {
        if t.externalName !in staged {
          StagedFirst(w, req, bindings, inputs, used, staged, a, k);
          var file := Stage(w, value, id, SpecOf(req, t));
          if file.None? {
            CannotStage(w, req, n, a, k);
            return Err("client_save_failed"), preparedArgs, preparedKwargs;
          }
          DoneMore(w, req, bindings, inputs, used, staged, a, k, t.externalName, file.value);
          staged := staged[t.externalName := file.value];
        }
        var file := staged[t.externalName];
        var name, after := UniqueInputName(w, t.canonical, file.logicalName, w.hash(file.content), used);
        var b := Binding(t.canonical, t.externalName, id, true, location, Some(name));
        ArtifactFits(w, req, t, b, a, k);
        assert used == InputNames(inputs) by { UsedAreInputs(w, req, bindings, inputs, used, staged, a, k); }
        NewFileIsHeld(w, inputs, Input(name, t.canonical, file.content, id), file);
        DoneStaged(w, req, bindings, inputs, used, staged, a, k, b, Input(name, t.canonical, file.content, id));
        preparedKwargs := NullArgument(args, kwargs, preparedArgs, preparedKwargs, bindings, b);
        inputs := inputs + [Input(name, t.canonical, file.content, id)];
        bindings, used := bindings + [b], after;
      }
    }
    AllPrepared(w, req, bindings, inputs, used, staged, a, k);
    return Ok((bindings, inputs)), preparedArgs, preparedKwargs;
  }

  // -------------------------------------------------------- what the daemon then sees

  /** Ports that read one argument travel the same way. */
  lemma FanOutTravelsTogether(w: World, req: Request, bindings: seq<Binding>, i: nat, j: nat, args: Option<seq<Value>>,
                              kwargs: Option<map<string, Value>>)
    requires Agreed(req) && AllFit(w, req, bindings, args, kwargs) && i < |bindings| && j < |bindings|
    requires req.targets[i].externalName == req.targets[j].externalName
    ensures bindings[i].artifact == bindings[j].artifact && bindings[i].adapterId == bindings[j].adapterId
    ensures bindings[i].location == bindings[j].location
  {
    hide Wanted, Agreed;
    assert BindingFits(w, req, req.targets[i], bindings[i], args, kwargs)
      && BindingFits(w, req, req.targets[j], bindings[j], args, kwargs);
    SameAdapter(w, req, i, j, args, kwargs);
  }

  /** The value of a port that travels inline is read from the prepared copies just as from the caller's arguments. */
  lemma InlineValuesSurvive(w: World, req: Request, bindings: seq<Binding>, i: nat, args: Option<seq<Value>>,
                            kwargs: Option<map<string, Value>>)
    requires Agreed(req) && AllFit(w, req, bindings, args, kwargs) && i < |bindings| && !bindings[i].artifact
    ensures ArgumentValue(req, req.targets[i].externalName, NulledArgs(args, bindings), NulledKwargs(kwargs, bindings))
         == ArgumentValue(req, req.targets[i].externalName, args, kwargs)
  {
    var name := req.targets[i].externalName;
    NotNulled(w, req, bindings, i, args, kwargs);
    hide Wanted, Agreed, AllFit;
  }

  /** Neither the name nor the position of an argument that travels inline is nulled. */
  lemma NotNulled(w: World, req: Request, bindings: seq<Binding>, i: nat, args: Option<seq<Value>>,
                  kwargs: Option<map<string, Value>>)
    requires Agreed(req) && AllFit(w, req, bindings, args, kwargs) && i < |bindings| && !bindings[i].artifact
    ensures var name := req.targets[i].externalName;
      && ArgumentValue(req, name, args, kwargs).Ok? && name !in NulledNames(bindings)
      && (ArgumentValue(req, name, args, kwargs).value.0.Positional? ==>
           ArgumentValue(req, name, args, kwargs).value.0.index !in NulledPositions(bindings))
  {
    var name := req.targets[i].externalName;
    WantedIsThere(w, req, bindings, i, args, kwargs);
    forall k | 0 <= k < |bindings| && bindings[k].artifact
      ensures bindings[k].location != ArgumentValue(req, name, args, kwargs).value.0
      ensures !bindings[k].location.Positional? ==> bindings[k].location.name != name
    {
      WantedIsThere(w, req, bindings, k, args, kwargs);
      if req.targets[k].externalName == name { FanOutTravelsTogether(w, req, bindings, k, i, args, kwargs); }
      else { PlacesDiffer(req, req.targets[k].externalName, name, args, kwargs); }
    }
  }

  lemma WantedIsThere(w: World, req: Request, bindings: seq<Binding>, k: nat, args: Option<seq<Value>>,
                      kwargs: Option<map<string, Value>>)
    requires AllFit(w, req, bindings, args, kwargs) && k < |bindings|
    ensures ArgumentValue(req, req.targets[k].externalName, args, kwargs).Ok?
    ensures bindings[k].location == ArgumentValue(req, req.targets[k].externalName, args, kwargs).value.0
  {
    assert BindingFits(w, req, req.targets[k], bindings[k], args, kwargs);
  }
}
