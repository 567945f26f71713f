/**
  merci/deserialization.py: turning the JSON text of a configuration document
  into evaluation trees. The document is parsed once without a hook; every entry
  under the root key is then decoded again with an object hook that turns each
  JSON object, innermost first, into a Modifiers node, a Context node or leaves it
  a plain dict, and that decodes every `value` with the entry's value decoder.
 */
module Deserialization {
  import opened Wrappers
  import opened Errors
  import opened Dicts
  import opened Structure
  import Metrics

  /** A JSON document as the parser returns it; object members in document order. */
  datatype Json =
    | JNull
    | JBool(b: bool)
    | JInt(i: int)
    | JStr(s: string)
    | JArr(items: seq<Json>)
    | JObj(members: seq<(string, Json)>)

  // ---------------------------------------------------------------------------
  // Config classes and value decoders

  /**
    A config class as the running program knows it: each parameter of its
    initializer with its default value, `None` when the parameter is required.
   */
  datatype ClassSpec = ClassSpec(params: map<string, Option<Obj>>)

  /** The classes that can be found by their full, dotted name. */
  type Registry = map<string, ClassSpec>

  datatype ValueDecoder =
    | SingleValueDecoder
    | ObjectValueDecoder(className: string, registry: Registry)

  datatype ValueDecoderFactory =
    | SingleValueDecoderFactory
    | ObjectValueDecoderFactory(registry: Registry)

  /**
    `create_value_decoder`: the object factory makes a decoder for the class
    named like the configuration; the single-value factory ignores the name.
   */
  function CreateValueDecoder(f: ValueDecoderFactory, className: string): (d: ValueDecoder)
    ensures f.SingleValueDecoderFactory? <==> d.SingleValueDecoder?
    ensures d.ObjectValueDecoder? ==> d.className == className && d.registry == f.registry
  {
    match f
    case SingleValueDecoderFactory => SingleValueDecoder
    case ObjectValueDecoderFactory(registry) => ObjectValueDecoder(className, registry)
  }

  /**
    `find_class`: the module part of a name without a dot is empty, which no
    import accepts; any other name is found exactly when the registry has it.
   */
  function FindClass(registry: Registry, className: string): (r: Result<ClassSpec, Error>)
    ensures r.Success? <==> '.' in className && className in registry
    ensures r.Success? ==> r.value == registry[className]
    ensures r.Failure? ==> r.error == Instantiation
  {
    if '.' !in className then Failure(Instantiation)
    else if className in registry then Success(registry[className])
    else Failure(Instantiation)
  }

  /**
    Calling the initializer with keyword arguments `args`: an unexpected keyword
    or a missing required parameter is a TypeError; otherwise every parameter
    takes its argument, or its default when no argument names it.
   */
  function Construct(className: string, spec: ClassSpec, args: Dict<Obj>): (r: Result<Obj, Error>)
    ensures r.Success? <==>
      && (forall k :: k in ToMap(args) ==> k in spec.params)
      && (forall p :: p in spec.params && spec.params[p].None? ==> p in ToMap(args))
    ensures r.Failure? ==> r.error == TypeError
    ensures r.Success? ==>
      && r.value.OInstance?
      && r.value.className == className
      && r.value.fields.Keys == spec.params.Keys
      && (forall k :: k in ToMap(args) ==> r.value.fields[k] == ToMap(args)[k])
      && (forall p :: p in spec.params && p !in ToMap(args) ==> Some(r.value.fields[p]) == spec.params[p])
  {
    var given := ToMap(args);
    if exists k :: k in given && k !in spec.params then Failure(TypeError)
    else if exists p :: p in spec.params && spec.params[p].None? && p !in given then Failure(TypeError)
    else Success(OInstance(className, map p | p in spec.params :: if p in given then given[p] else spec.params[p].value))
  }

  /**
    `decode_value`: the single-value decoder returns the value as it is; the
    object decoder finds its class, needs a dict of keyword arguments (anything
    else cannot be unpacked and is a TypeError), and constructs the instance.
   */
  function DecodeValue(dec: ValueDecoder, v: Obj): (r: Result<Obj, Error>)
    ensures dec.SingleValueDecoder? ==> r == Success(v)
    ensures dec.ObjectValueDecoder? && FindClass(dec.registry, dec.className).Failure? ==> r == Failure(Instantiation)
    ensures dec.ObjectValueDecoder? && FindClass(dec.registry, dec.className).Success? && !v.ODict? ==> r == Failure(TypeError)
    ensures dec.ObjectValueDecoder? && FindClass(dec.registry, dec.className).Success? && v.ODict? ==>
      r == Construct(dec.className, dec.registry[dec.className], v.entries)
  {
    match dec
    case SingleValueDecoder => Success(v)
    case ObjectValueDecoder(className, registry) =>
      match FindClass(registry, className)
      case Failure(e) => Failure(e)
      case Success(spec) =>
        if v.ODict? then Construct(className, spec, v.entries) else Failure(TypeError)
  }

  // ---------------------------------------------------------------------------
  // The object hook

  /** The children of a `contexts` dict: each is a tree node or null, and null means no child. */
  predicate ChildrenAreNodes(d: Dict<Obj>) {
    forall i :: 0 <= i < |d| ==> d[i].1.OTree? || d[i].1.ONone?
  }

  function Children(d: Dict<Obj>): (cs: map<string, Node>)
    ensures forall k :: k in cs ==> k in ToMap(d) && ToMap(d)[k] == OTree(cs[k])
    ensures forall k :: k in ToMap(d) && ToMap(d)[k].OTree? ==> k in cs
  {
    var m := ToMap(d);
    map k | k in m && m[k].OTree? :: m[k].node
  }

  /** `Modifiers(type_name, contexts)`, for the shapes that make an evaluator. */
  function ModifiersOf(typeName: Obj, contexts: Obj): (r: Result<Obj, Error>)
    ensures r.Success? <==> typeName.OStr? && contexts.ODict? && ChildrenAreNodes(contexts.entries)
    ensures r.Success? ==> r.value == OTree(Modifiers(typeName.s, Children(contexts.entries)))
    ensures r.Failure? ==> r.error == Malformed
  {
    if typeName.OStr? && contexts.ODict? && ChildrenAreNodes(contexts.entries) then
      Success(OTree(Modifiers(typeName.s, Children(contexts.entries))))
    else Failure(Malformed)
  }

  /** `Context(value_object, modifiers)`, for the shapes that make an evaluator. */
  function ContextOf(value: Obj, modifiers: Obj): (r: Result<Obj, Error>)
    ensures r.Success? <==> modifiers.ONone? || modifiers.OTree?
    ensures modifiers.ONone? ==> r == Success(OTree(Context(value, None)))
    ensures modifiers.OTree? ==> r == Success(OTree(Context(value, Some(modifiers.node))))
    ensures r.Failure? ==> r.error == Malformed
  {
    match modifiers
    case ONone => Success(OTree(Context(value, None)))
    case OTree(m) => Success(OTree(Context(value, Some(m))))
    case _ => Failure(Malformed)
  }

  /**
    `ContextDecoder.object_hook`, applied to a JSON object whose members are
    already decoded. `contexts` takes precedence over `modifiers`, which takes
    precedence over `value`; a missing `type` or `value` is a KeyError, an
    exception of `decode_value` propagates, and an object with none of the
    three keys stays a dict.
   */
  function Hook(dct: Dict<Obj>, dec: ValueDecoder): (r: Result<Obj, Error>)
    ensures var m := ToMap(dct);
      && ("contexts" in m ==>
            && ("type" !in m ==> r == Failure(KeyError))
            && ("type" in m ==> r == ModifiersOf(m["type"], m["contexts"])))
      && ("contexts" !in m && ("modifiers" in m || "value" in m) ==>
            && ("value" !in m ==> r == Failure(KeyError))
            && ("value" in m && DecodeValue(dec, m["value"]).Failure? ==>
                  r == Failure(DecodeValue(dec, m["value"]).error)))
      && ("contexts" !in m && "modifiers" in m && "value" in m && DecodeValue(dec, m["value"]).Success? ==>
            r == ContextOf(DecodeValue(dec, m["value"]).value, m["modifiers"]))
      && ("contexts" !in m && "modifiers" !in m && "value" in m && DecodeValue(dec, m["value"]).Success? ==>
            r == Success(OTree(Context(DecodeValue(dec, m["value"]).value, None))))
      && ("contexts" !in m && "modifiers" !in m && "value" !in m ==> r == Success(ODict(dct)))
  {
    var m := ToMap(dct);
    if "contexts" in m then
      if "type" !in m then Failure(KeyError) else ModifiersOf(m["type"], m["contexts"])
    else if "modifiers" in m then
      if "value" !in m then Failure(KeyError)
      else
        (match DecodeValue(dec, m["value"])
         case Failure(e) => Failure(e)
         case Success(v) => ContextOf(v, m["modifiers"]))
    else if "value" in m then
      (match DecodeValue(dec, m["value"])
       case Failure(e) => Failure(e)
       case Success(v) => Success(OTree(Context(v, None))))
    else Success(ODict(dct))
  }

  /**
    Decoding with the hook: arrays and objects are decoded member by member in
    document order, the first failure ends the decoding, and the hook sees each
    object, as a dict, after all of its members. Only an object can become a
    tree node.
   */
  function Convert(j: Json, dec: ValueDecoder): (r: Result<Obj, Error>)
    ensures j.JNull? ==> r == Success(ONone)
    ensures j.JBool? ==> r == Success(OBool(j.b))
    ensures j.JInt? ==> r == Success(OInt(j.i))
    ensures j.JStr? ==> r == Success(OStr(j.s))
    decreases j, 1
  {
    match j
    case JNull => Success(ONone)
    case JBool(b) => Success(OBool(b))
    case JInt(i) => Success(OInt(i))
    case JStr(s) => Success(OStr(s))
    case JArr(_) =>
      (match ConvertItems(j, dec, 0)
       case Failure(e) => Failure(e)
       case Success(items) => Success(OList(items)))
    case JObj(_) =>
      match ConvertMembers(j, dec, 0)
      case Failure(e) => Failure(e)
      case Success(members) => Hook(FromPairs(members), dec)
  }

  /** An array whose items decode to `items` decodes to the list of them. */
  lemma ConvertArray(j: Json, dec: ValueDecoder, items: seq<Obj>)
    requires j.JArr? && ConvertItems(j, dec, 0) == Success(items)
    ensures Convert(j, dec) == Success(OList(items))
  {
  }

  /** An object whose members decode to `ms` goes to the hook as the dict they build. */
  lemma ConvertObject(j: Json, dec: ValueDecoder, ms: seq<(string, Obj)>)
    requires j.JObj? && ConvertMembers(j, dec, 0) == Success(ms)
    ensures Convert(j, dec) == Hook(FromPairs(ms), dec)
  {
  }

  /** A decoded array has one item per JSON item, and only an object can decode to a tree node. */
  lemma ConvertShape(j: Json, dec: ValueDecoder)
    ensures j.JArr? && Convert(j, dec).Success? ==> Convert(j, dec).value.OList? && |Convert(j, dec).value.items| == |j.items|
    ensures Convert(j, dec).Success? && Convert(j, dec).value.OTree? ==> j.JObj?
  {
  }

  /**
    The items of an array from the `i`-th on: they all decode, in order, or
    the decoding fails with the error of the first item that fails
    (`ConvertItemsEach`, `ConvertItemsFailsAt`, `ConvertItemsFirstFailure`).
   */
  function ConvertItems(j: Json, dec: ValueDecoder, i: nat): (r: Result<seq<Obj>, Error>)
    requires j.JArr? && i <= |j.items|
    ensures r.Success? ==> |r.value| == |j.items| - i
    decreases j, 0, |j.items| - i
  {
    if i == |j.items| then Success([])
    else
      match Convert(j.items[i], dec)
      case Failure(e) => Failure(e)
      case Success(o) =>
        match ConvertItems(j, dec, i + 1)
        case Failure(e) => Failure(e)
        case Success(rest) => Success([o] + rest)
  }

  /**
    The members of an object from the `i`-th on, duplicates included: they
    all decode, in order and under their own names, or the decoding fails
    with the error of the first member that fails (`ConvertMembersEach`,
    `ConvertMembersFailsAt`, `ConvertMembersFirstFailure`).
   */
  function ConvertMembers(j: Json, dec: ValueDecoder, i: nat): (r: Result<seq<(string, Obj)>, Error>)
    requires j.JObj? && i <= |j.members|
    ensures r.Success? ==> |r.value| == |j.members| - i
    ensures r.Success? ==> forall k :: 0 <= k < |r.value| ==> r.value[k].0 == j.members[i + k].0
    decreases j, 0, |j.members| - i
  {
    if i == |j.members| then Success([])
    else
      match Convert(j.members[i].1, dec)
      case Failure(e) => Failure(e)
      case Success(o) =>
        match ConvertMembers(j, dec, i + 1)
        case Failure(e) => Failure(e)
        case Success(rest) => Success([(j.members[i].0, o)] + rest)
  }

  /** One item that fails makes the whole array fail. */
  lemma {:induction false} ConvertItemsFailsAt(j: Json, dec: ValueDecoder, i: nat, k: nat)
    requires j.JArr? && i <= k < |j.items| && Convert(j.items[k], dec).Failure?
    ensures ConvertItems(j, dec, i).Failure?
    decreases k - i
  {
    if k > i && Convert(j.items[i], dec).Success? {
      ConvertItemsFailsAt(j, dec, i + 1, k);
    }
  }

  /** One member whose value fails makes the whole object fail. */
  lemma {:induction false} ConvertMembersFailsAt(j: Json, dec: ValueDecoder, i: nat, k: nat)
    requires j.JObj? && i <= k < |j.members| && Convert(j.members[k].1, dec).Failure?
    ensures ConvertMembers(j, dec, i).Failure?
    decreases k - i
  {
    if k > i && Convert(j.members[i].1, dec).Success? {
      ConvertMembersFailsAt(j, dec, i + 1, k);
    }
  }

  /** A failing array fails with the error of its first item that fails. */
  lemma {:induction false} ConvertItemsFirstFailure(j: Json, dec: ValueDecoder, i: nat) returns (k: nat)
    requires j.JArr? && i <= |j.items| && ConvertItems(j, dec, i).Failure?
    ensures i <= k < |j.items| && Convert(j.items[k], dec) == Failure(ConvertItems(j, dec, i).error)
    ensures forall l :: i <= l < k ==> Convert(j.items[l], dec).Success?
    decreases |j.items| - i
  {
    if Convert(j.items[i], dec).Failure? {
      k := i;
    } else {
      assert ConvertItems(j, dec, i + 1).Failure?;
      k := ConvertItemsFirstFailure(j, dec, i + 1);
      assert ConvertItems(j, dec, i).error == ConvertItems(j, dec, i + 1).error;
      assert Convert(j.items[k], dec) == Failure(ConvertItems(j, dec, i).error);
      forall l | i <= l < k ensures Convert(j.items[l], dec).Success? {
        if l == i {
        }
      }
    }
  }

  /** A failing object fails with the error of its first member that fails. */
  lemma {:induction false} ConvertMembersFirstFailure(j: Json, dec: ValueDecoder, i: nat) returns (k: nat)
    requires j.JObj? && i <= |j.members| && ConvertMembers(j, dec, i).Failure?
    ensures i <= k < |j.members| && Convert(j.members[k].1, dec) == Failure(ConvertMembers(j, dec, i).error)
    ensures forall l :: i <= l < k ==> Convert(j.members[l].1, dec).Success?
    decreases |j.members| - i
  {
    if Convert(j.members[i].1, dec).Failure? {
      k := i;
    } else {
      assert ConvertMembers(j, dec, i + 1).Failure?;
      k := ConvertMembersFirstFailure(j, dec, i + 1);
      assert ConvertMembers(j, dec, i).error == ConvertMembers(j, dec, i + 1).error;
      assert Convert(j.members[k].1, dec) == Failure(ConvertMembers(j, dec, i).error);
      forall l | i <= l < k ensures Convert(j.members[l].1, dec).Success? {
        if l == i {
        }
      }
    }
  }

  // ---------------------------------------------------------------------------
  // json.dumps of a parsed entry

  /** JSON without a repeated member name in any of its objects, as `json.dumps` of a dict writes it. */
  ghost predicate Normal(j: Json) {
    match j
    case JArr(items) => forall i :: 0 <= i < |items| ==> Normal(items[i])
    case JObj(members) => DistinctKeys(members) && forall i :: 0 <= i < |members| ==> Normal(members[i].1)
    case _ => true
  }

  /**
    `json.dumps(configuration)` of an entry that the first `json.loads` parsed:
    every object became a dict on the way, so within each object a repeated
    name keeps the position of its first occurrence and the value of its last.
   */
  function Reserialize(j: Json): (r: Json)
    ensures j.JArr? ==> r.JArr? && |r.items| == |j.items|
    ensures j.JObj? ==> r.JObj?
    ensures !j.JArr? && !j.JObj? ==> r == j
    decreases j, 1
  {
    match j
    case JArr(_) => JArr(ReserializeItems(j, 0))
    case JObj(_) =>
      var ms := ReserializeMembers(j, 0);
      FromPairsItems(ms);
      JObj(FromPairs(ms))
    case _ => j
  }

  function ReserializeItems(j: Json, i: nat): (r: seq<Json>)
    requires j.JArr? && i <= |j.items|
    ensures |r| == |j.items| - i
    ensures forall k :: 0 <= k < |r| ==> r[k] == Reserialize(j.items[i + k])
    decreases j, 0, |j.items| - i
  {
    if i == |j.items| then [] else [Reserialize(j.items[i])] + ReserializeItems(j, i + 1)
  }

  function ReserializeMembers(j: Json, i: nat): (r: seq<(string, Json)>)
    requires j.JObj? && i <= |j.members|
    ensures |r| == |j.members| - i
    ensures forall k :: 0 <= k < |r| ==> r[k] == (j.members[i + k].0, Reserialize(j.members[i + k].1))
    decreases j, 0, |j.members| - i
  {
    if i == |j.members| then [] else [(j.members[i].0, Reserialize(j.members[i].1))] + ReserializeMembers(j, i + 1)
  }

  /**
    Parsing an entry and writing it back leaves no object with a repeated
    member name, and an object maps every name to the value of its last
    occurrence.
   */
  lemma {:induction false} ReserializeIsNormal(j: Json)
    ensures Normal(Reserialize(j))
    ensures j.JObj? ==> ToMap(Reserialize(j).members) == ToMap(ReserializeMembers(j, 0))
  {
    match j
    case JArr(items) =>
      var rs := ReserializeItems(j, 0);
      forall k | 0 <= k < |rs| ensures Normal(rs[k]) {
        ReserializeIsNormal(items[k]);
      }
    case JObj(members) =>
      var ms := ReserializeMembers(j, 0);
      FromPairsItems(ms);
      var d := FromPairs(ms);
      forall i | 0 <= i < |d| ensures Normal(d[i].1) {
        var t :| 0 <= t < |ms| && ms[t] == d[i];
        ReserializeIsNormal(members[t].1);
      }
    case _ =>
  }

  /** JSON that `json.dumps` could have written comes out of the parse and `dumps` unchanged. */
  lemma {:induction false} ReserializeNormal(j: Json)
    requires Normal(j)
    ensures Reserialize(j) == j
    decreases j
  {
    match j
    case JArr(items) =>
      forall k | 0 <= k < |items| ensures Reserialize(items[k]) == items[k] {
        ReserializeNormal(items[k]);
      }
      assert ReserializeItems(j, 0) == items;
    case JObj(members) =>
      forall k | 0 <= k < |members| ensures Reserialize(members[k].1) == members[k].1 {
        ReserializeNormal(members[k].1);
      }
      assert ReserializeMembers(j, 0) == members;
      FromPairsOfDistinct(members);
    case _ =>
  }

  /**
    One entry of the root section: written back as JSON, decoded again with
    the hook and the decoder made for its name; it must give a node.
   */
  function DecodeEntry(f: ValueDecoderFactory, name: string, j: Json): (r: Result<Node, Error>)
    ensures var c := Convert(Reserialize(j), CreateValueDecoder(f, name));
      && (r.Success? <==> c.Success? && c.value.OTree?)
      && (r.Success? ==> c.value.node == r.value)
      && (c.Failure? ==> r == Failure(c.error))
  {
    match Convert(Reserialize(j), CreateValueDecoder(f, name))
    case Failure(e) => Failure(e)
    case Success(OTree(n)) => Success(n)
    case Success(_) => Failure(Malformed)
  }

  /**
    Within an entry, a member name given twice keeps its last value: the hook
    never sees the member that the first parse overwrote.
   */
  lemma RepeatedMemberLastWins()
    ensures DecodeEntry(SingleValueDecoderFactory, "flag",
      JObj([("value", JObj([("contexts", JInt(1))])), ("value", JBool(true))]))
      == Success(Context(OBool(true), None))
  {
    var inner := JObj([("contexts", JInt(1))]);
    var j := JObj([("value", inner), ("value", JBool(true))]);
    var ms := ReserializeMembers(j, 0);
    assert ms == [("value", Reserialize(inner)), ("value", JBool(true))];
    assert ms[..1] == [("value", Reserialize(inner))];
    assert FromPairs(ms[..1]) == [("value", Reserialize(inner))] by {
      assert ms[..1][..0] == [];
    }
    assert FromPairs(ms) == [("value", JBool(true))];
    var once := JObj([("value", JBool(true))]);
    assert Reserialize(j) == once;
    DecodeValueObject(SingleValueDecoder, OBool(true), OBool(true), JBool(true));
  }

  // ---------------------------------------------------------------------------
  // Round trip: a tree written as JSON decodes back to the same tree

  /** A dict with none of the keys the hook reacts to. */
  predicate NoHookKey<V>(m: map<string, V>) {
    "contexts" !in m && "modifiers" !in m && "value" !in m
  }

  /**
    Data that JSON can carry through the hook unchanged: scalars, lists, and
    dicts with distinct keys none of which the hook reacts to.
   */
  ghost predicate PlainData(o: Obj) {
    match o
    case ONone => true
    case OBool(_) => true
    case OInt(_) => true
    case OStr(_) => true
    case OList(items) => forall i :: 0 <= i < |items| ==> PlainData(items[i])
    case ODict(entries) =>
      && DistinctKeys(entries)
      && NoHookKey(ToMap(entries))
      && forall i :: 0 <= i < |entries| ==> PlainData(entries[i].1)
    case _ => false
  }

  ghost function EncodeData(o: Obj): (j: Json)
    requires PlainData(o)
    ensures o.OList? ==> j.JArr? && |j.items| == |o.items|
    ensures o.ODict? ==> j.JObj? && |j.members| == |o.entries|
    decreases o, 1
  {
    match o
    case ONone => JNull
    case OBool(b) => JBool(b)
    case OInt(i) => JInt(i)
    case OStr(s) => JStr(s)
    case OList(_) => JArr(EncodeItems(o, 0))
    case ODict(_) => JObj(EncodeEntries(o, 0))
  }

  ghost function EncodeItems(o: Obj, i: nat): (js: seq<Json>)
    requires o.OList? && PlainData(o) && i <= |o.items|
    ensures |js| == |o.items| - i
    ensures forall k :: 0 <= k < |js| ==> js[k] == EncodeData(o.items[i + k])
    decreases o, 0, |o.items| - i
  {
    if i == |o.items| then [] else [EncodeData(o.items[i])] + EncodeItems(o, i + 1)
  }

  ghost function EncodeEntries(o: Obj, i: nat): (ms: seq<(string, Json)>)
    requires o.ODict? && PlainData(o) && i <= |o.entries|
    ensures |ms| == |o.entries| - i
    ensures forall k :: 0 <= k < |ms| ==> ms[k] == (o.entries[i + k].0, EncodeData(o.entries[i + k].1))
    decreases o, 0, |o.entries| - i
  {
    if i == |o.entries| then [] else [(o.entries[i].0, EncodeData(o.entries[i].1))] + EncodeEntries(o, i + 1)
  }

  /** A tree that JSON can describe: plain values, and no dimension value the hook reacts to. */
  ghost predicate Encodable(n: Node) {
    match n
    case Context(v, None) => PlainData(v)
    case Context(v, Some(m)) => PlainData(v) && Encodable(m)
    case Modifiers(_, cs) => NoHookKey(cs) && forall k :: k in cs ==> Encodable(cs[k])
  }

  /** The JSON of a tree, in the layout of the configuration files. */
  ghost function EncodeNode(n: Node): Json
    requires Encodable(n)
    decreases n, 1
  {
    match n
    case Context(v, None) => JObj([("value", EncodeData(v))])
    case Context(v, Some(m)) => JObj([("value", EncodeData(v)), ("modifiers", EncodeNode(m))])
    case Modifiers(t, cs) => JObj([("type", JStr(t)), ("contexts", JObj(EncodeChildren(n, cs.Keys)))])
  }

  /** The members of a `contexts` object for the dimension values `ks`, in some order. */
  ghost function EncodeChildren(n: Node, ks: set<string>): seq<(string, Json)>
    requires n.Modifiers? && Encodable(n) && ks <= n.contexts.Keys
    decreases n, 0, |ks|
  {
    if ks == {} then []
    else
      var k := Pick(ks);
      EncodeChildren(n, ks - {k}) + [(k, EncodeNode(n.contexts[k]))]
  }

  /** Some element of a non-empty set. */
  ghost function Pick(ks: set<string>): (k: string)
    requires ks != {}
    ensures k in ks
  {
    var k :| k in ks; k
  }

  /** Every member is for a dimension value of `ks` and carries the JSON of its child. */
  lemma {:induction false} EncodeChildrenItems(n: Node, ks: set<string>, ms: seq<(string, Json)>)
    requires n.Modifiers? && Encodable(n) && ks <= n.contexts.Keys && ms == EncodeChildren(n, ks)
    ensures forall i :: 0 <= i < |ms| ==> ms[i].0 in ks && ms[i].1 == EncodeNode(n.contexts[ms[i].0])
    decreases |ks|
  {
    if ks != {} {
      var k := Pick(ks);
      var front := EncodeChildren(n, ks - {k});
      EncodeChildrenItems(n, ks - {k}, front);
      assert ms == front + [(k, EncodeNode(n.contexts[k]))];
    }
  }

  /** Each dimension value of `ks` has exactly one member. */
  lemma {:induction false} EncodeChildrenKeys(n: Node, ks: set<string>)
    requires n.Modifiers? && Encodable(n) && ks <= n.contexts.Keys
    ensures var ms := EncodeChildren(n, ks);
      (forall k :: k in ks <==> k in Keys(ms)) && DistinctKeys(ms)
    decreases |ks|
  {
    if ks != {} {
      var k := Pick(ks);
      EncodeChildrenKeys(n, ks - {k});
      AppendNewKey(EncodeChildren(n, ks - {k}), k, EncodeNode(n.contexts[k]));
    }
  }

  /** Appending an item whose key is new keeps the keys distinct, and adds that key. */
  lemma AppendNewKey<V>(d: Dict<V>, k: string, v: V)
    requires DistinctKeys(d) && k !in Keys(d)
    ensures DistinctKeys(d + [(k, v)])
    ensures forall k' :: k' in Keys(d + [(k, v)]) <==> k' in Keys(d) || k' == k
  {
    var r := d + [(k, v)];
    assert Keys(r) == Keys(d) + [k];
    forall i, j | 0 <= i < j < |r| ensures r[i].0 != r[j].0 {
      if j == |d| { assert Keys(d)[i] == r[i].0; }
    }
  }

  /** Decoding every member of an object member by member, when each of them decodes. */
  /** `j` decodes to `o`; the name keeps the two apart in the lemmas' quantifiers. */
  predicate ConvertsTo(j: Json, dec: ValueDecoder, o: Obj) {
    Convert(j, dec) == Success(o)
  }

  /** Members that each decode give their decoded values, in order and under their own names. */
  lemma {:induction false} ConvertMembersEach(j: Json, dec: ValueDecoder, i: nat, outs: seq<Obj>)
    requires j.JObj? && i <= |j.members| && |outs| == |j.members|
    requires forall k :: i <= k < |j.members| ==> ConvertsTo(j.members[k].1, dec, outs[k])
    ensures ConvertMembers(j, dec, i) == Success(Renamed(j.members[i..], outs[i..]))
    decreases |j.members| - i
  {
    if i < |j.members| {
      ConvertMembersEach(j, dec, i + 1, outs);
      assert ConvertsTo(j.members[i].1, dec, outs[i]);
      assert j.members[i..][1..] == j.members[i + 1..];
      assert outs[i..][1..] == outs[i + 1..];
      assert ConvertMembers(j, dec, i) == Success([(j.members[i].0, outs[i])] + Renamed(j.members[i + 1..], outs[i + 1..]));
    } else {
      ConvertMembersEnd(j, dec);
    }
  }

  /** No members left: nothing to decode. */
  lemma ConvertMembersEnd(j: Json, dec: ValueDecoder)
    requires j.JObj?
    ensures ConvertMembers(j, dec, |j.members|) == Success([])
  {
  }

  /** The names of `ms`, in order, each with the value at the same position in `vs`. */
  function Renamed<A, B>(ms: seq<(string, A)>, vs: seq<B>): (r: seq<(string, B)>)
    requires |ms| == |vs|
    ensures |r| == |ms| && forall k :: 0 <= k < |r| ==> r[k] == (ms[k].0, vs[k])
  {
    if ms == [] then [] else [(ms[0].0, vs[0])] + Renamed(ms[1..], vs[1..])
  }

  /** Items that each decode give the list of their decoded values, in order. */
  lemma {:induction false} ConvertItemsEach(j: Json, dec: ValueDecoder, i: nat, outs: seq<Obj>)
    requires j.JArr? && i <= |j.items| && |outs| == |j.items|
    requires forall k :: i <= k < |j.items| ==> ConvertsTo(j.items[k], dec, outs[k])
    ensures ConvertItems(j, dec, i) == Success(outs[i..])
    decreases |j.items| - i
  {
    if i < |j.items| {
      ConvertItemsEach(j, dec, i + 1, outs);
      assert ConvertsTo(j.items[i], dec, outs[i]);
      assert outs[i..] == [outs[i]] + outs[i + 1..];
      assert ConvertItems(j, dec, i) == Success([outs[i]] + outs[i + 1..]);
    } else {
      assert outs[i..] == [];
    }
  }

  /** Plain data passes through the hook unchanged, whatever the value decoder. */
  lemma {:induction false} ConvertEncodeData(o: Obj, dec: ValueDecoder)
    requires PlainData(o)
    ensures Convert(EncodeData(o), dec) == Success(o)
    decreases o, 1
  {
    match o
    case ONone =>
    case OBool(_) =>
    case OInt(_) =>
    case OStr(_) =>
    case OList(_) => ConvertEncodeList(o, dec);
    case ODict(_) => ConvertEncodeDict(o, dec);
  }

  lemma {:induction false} ConvertEncodeList(o: Obj, dec: ValueDecoder)
    requires o.OList? && PlainData(o)
    ensures Convert(EncodeData(o), dec) == Success(o)
    decreases o, 0
  {
    var j, items := EncodeData(o), o.items;
    assert j.items == EncodeItems(o, 0);
    forall k | 0 <= k < |items| ensures ConvertsTo(j.items[k], dec, items[k]) {
      ConvertEncodeData(items[k], dec);
    }
    ConvertItemsEach(j, dec, 0, items);
    assert items[0..] == items;
    ConvertArray(j, dec, items);
  }

  lemma {:induction false} ConvertEncodeDict(o: Obj, dec: ValueDecoder)
    requires o.ODict? && PlainData(o)
    ensures Convert(EncodeData(o), dec) == Success(o)
    decreases o, 0
  {
    var j, entries := EncodeData(o), o.entries;
    assert j.members == EncodeEntries(o, 0);
    var outs := Values(entries);
    forall k | 0 <= k < |entries| ensures ConvertsTo(j.members[k].1, dec, outs[k]) {
      ConvertEncodeData(entries[k].1, dec);
    }
    ConvertMembersEach(j, dec, 0, outs);
    assert j.members[0..] == j.members && outs[0..] == outs;
    var converted := Renamed(j.members, outs);
    assert converted == entries;
    FromPairsOfDistinct(entries);
    HookPlainDict(entries, dec);
    ConvertObject(j, dec, entries);
  }

  /** A dict without the hook's keys comes out of the hook unchanged. */
  lemma HookPlainDict(d: Dict<Obj>, dec: ValueDecoder)
    requires NoHookKey(ToMap(d))
    ensures Hook(d, dec) == Success(ODict(d))
  {
  }

  /**
    Writing a tree as JSON and decoding it with the single-value decoder gives
    back the same tree, as long as no dimension value is one of the hook's keys.
   */
  lemma {:induction false} DecodeEncodedTree(n: Node)
    requires Encodable(n)
    ensures Convert(EncodeNode(n), SingleValueDecoder) == Success(OTree(n))
    decreases n
  {
    match n
    case Context(v, None) =>
      ConvertEncodeData(v, SingleValueDecoder);
      DecodeContextObject(v, EncodeData(v), None, JNull);
    case Context(v, Some(m)) =>
      ConvertEncodeData(v, SingleValueDecoder);
      DecodeEncodedTree(m);
      DecodeContextObject(v, EncodeData(v), Some(m), EncodeNode(m));
    case Modifiers(t, cs) =>
      var ms := EncodeChildren(n, cs.Keys);
      EncodeChildrenItems(n, cs.Keys, ms);
      EncodeChildrenKeys(n, cs.Keys);
      forall i | 0 <= i < |ms| ensures Convert(ms[i].1, SingleValueDecoder) == Success(OTree(cs[ms[i].0])) {
        DecodeEncodedTree(cs[ms[i].0]);
      }
      DecodeModifiersObject(t, cs, ms);
  }

  /**
    The same round trip through the mapper's decoding of an entry: the JSON of
    a tree repeats no member name, so writing it back with `json.dumps`
    changes nothing and the entry decodes to the tree.
   */
  lemma DecodeEntryOfEncodedTree(name: string, n: Node)
    requires Encodable(n)
    ensures DecodeEntry(SingleValueDecoderFactory, name, EncodeNode(n)) == Success(n)
  {
    EncodeNodeNormal(n);
    ReserializeNormal(EncodeNode(n));
    DecodeEncodedTree(n);
  }

  lemma {:induction false} EncodeDataNormal(o: Obj)
    requires PlainData(o)
    ensures Normal(EncodeData(o))
    decreases o
  {
    var j := EncodeData(o);
    match o
    case OList(items) =>
      forall k | 0 <= k < |items| ensures Normal(j.items[k]) {
        EncodeDataNormal(items[k]);
      }
    case ODict(entries) =>
      forall k | 0 <= k < |entries| ensures Normal(j.members[k].1) {
        EncodeDataNormal(entries[k].1);
      }
      assert DistinctKeys(j.members) by {
        forall a, b | 0 <= a < b < |j.members| ensures j.members[a].0 != j.members[b].0 {
          assert j.members[a].0 == entries[a].0 && j.members[b].0 == entries[b].0;
        }
      }
    case _ =>
  }

  lemma {:induction false} EncodeNodeNormal(n: Node)
    requires Encodable(n)
    ensures Normal(EncodeNode(n))
    decreases n, 1
  {
    match n
    case Context(v, None) =>
      EncodeDataNormal(v);
      NormalObjectOfOne("value", EncodeData(v));
    case Context(v, Some(m)) =>
      EncodeDataNormal(v);
      EncodeNodeNormal(m);
      NormalObjectOfTwo("value", EncodeData(v), "modifiers", EncodeNode(m));
    case Modifiers(t, cs) =>
      EncodeChildrenNormal(n);
      NormalObjectOfTwo("type", JStr(t), "contexts", JObj(EncodeChildren(n, cs.Keys)));
  }

  lemma {:induction false} EncodeChildrenNormal(n: Node)
    requires n.Modifiers? && Encodable(n)
    ensures Normal(JObj(EncodeChildren(n, n.contexts.Keys)))
    decreases n, 0
  {
    var ms := EncodeChildren(n, n.contexts.Keys);
    EncodeChildrenItems(n, n.contexts.Keys, ms);
    EncodeChildrenKeys(n, n.contexts.Keys);
    forall i | 0 <= i < |ms| ensures Normal(ms[i].1) {
      EncodeNodeNormal(n.contexts[ms[i].0]);
    }
  }

  lemma NormalObjectOfOne(k: string, j: Json)
    requires Normal(j)
    ensures Normal(JObj([(k, j)]))
  {
  }

  lemma NormalObjectOfTwo(k1: string, j1: Json, k2: string, j2: Json)
    requires k1 != k2 && Normal(j1) && Normal(j2)
    ensures Normal(JObj([(k1, j1), (k2, j2)]))
  {
  }

  /** A `value` member, and a `modifiers` member when `m` is present, decode to a Context node. */
  lemma {:induction false} DecodeContextObject(v: Obj, jv: Json, m: Option<Node>, jm: Json)
    requires Convert(jv, SingleValueDecoder) == Success(v)
    requires m.Some? ==> Convert(jm, SingleValueDecoder) == Success(OTree(m.value))
    ensures var j := if m.None? then JObj([("value", jv)]) else JObj([("value", jv), ("modifiers", jm)]);
      Convert(j, SingleValueDecoder) == Success(OTree(Context(v, m)))
  {
    if m.None? {
      DecodeValueObject(SingleValueDecoder, v, v, jv);
    } else {
      DecodeValueModifiersObject(SingleValueDecoder, v, v, jv, m.value, jm);
    }
  }

  /**
    An object with only a `value` member gives a Context without modifiers
    whose value is what the value decoder makes of the decoded member.
   */
  lemma {:induction false} DecodeValueObject(dec: ValueDecoder, v: Obj, w: Obj, jv: Json)
    requires Convert(jv, dec) == Success(v) && DecodeValue(dec, v) == Success(w)
    ensures Convert(JObj([("value", jv)]), dec) == Success(OTree(Context(w, None)))
  {
    var j := JObj([("value", jv)]);
    var converted := [("value", v)];
    ConvertMembersEach(j, dec, 0, [v]);
    assert Renamed(j.members[0..], [v][0..]) == converted;
    FromPairsOfDistinct(converted);
    ConvertObject(j, dec, converted);
    assert ToMap(converted) == map["value" := v];
  }

  /**
    An object with a `value` and a `modifiers` member gives a Context with
    those modifiers, whose value is what the value decoder makes of the
    decoded `value` member.
   */
  lemma {:induction false} DecodeValueModifiersObject(dec: ValueDecoder, v: Obj, w: Obj, jv: Json, m: Node, jm: Json)
    requires Convert(jv, dec) == Success(v) && DecodeValue(dec, v) == Success(w)
    requires Convert(jm, dec) == Success(OTree(m))
    ensures Convert(JObj([("value", jv), ("modifiers", jm)]), dec) == Success(OTree(Context(w, Some(m))))
  {
    ConvertTwoMembers("value", jv, v, "modifiers", jm, OTree(m), dec);
    ToMapOfTwo("value", v, "modifiers", OTree(m));
  }

  /** An object of two members with distinct names goes to the hook as the two converted members. */
  lemma {:induction false} ConvertTwoMembers(k1: string, j1: Json, o1: Obj, k2: string, j2: Json, o2: Obj, dec: ValueDecoder)
    requires k1 != k2
    requires Convert(j1, dec) == Success(o1) && Convert(j2, dec) == Success(o2)
    ensures Convert(JObj([(k1, j1), (k2, j2)]), dec) == Hook([(k1, o1), (k2, o2)], dec)
  {
    var j := JObj([(k1, j1), (k2, j2)]);
    var converted := [(k1, o1), (k2, o2)];
    ConvertMembersEach(j, dec, 0, [o1, o2]);
    assert Renamed(j.members[0..], [o1, o2][0..]) == converted;
    FromPairsOfDistinct(converted);
    ConvertObject(j, dec, converted);
  }

  /** A `type` member and a `contexts` object whose members decode to the children give a Modifiers node. */
  lemma {:induction false} DecodeModifiersObject(t: string, cs: map<string, Node>, ms: seq<(string, Json)>)
    requires NoHookKey(cs) && DistinctKeys(ms)
    requires forall k :: k in cs <==> k in Keys(ms)
    requires forall i :: 0 <= i < |ms| ==> ms[i].0 in cs && Convert(ms[i].1, SingleValueDecoder) == Success(OTree(cs[ms[i].0]))
    ensures Convert(JObj([("type", JStr(t)), ("contexts", JObj(ms))]), SingleValueDecoder) == Success(OTree(Modifiers(t, cs)))
  {
    var pairs := DecodeContextsObject(cs, ms);
    ConvertTwoMembers("type", JStr(t), OStr(t), "contexts", JObj(ms), ODict(pairs), SingleValueDecoder);
    ToMapOfTwo("type", OStr(t), "contexts", ODict(pairs));
  }

  /**
    A `contexts` object whose members decode to the children stays a dict (no
    dimension value is a hook key) that maps each dimension value to its child.
   */
  lemma {:induction false} DecodeContextsObject(cs: map<string, Node>, ms: seq<(string, Json)>) returns (pairs: Dict<Obj>)
    requires NoHookKey(cs) && DistinctKeys(ms)
    requires forall k :: k in cs <==> k in Keys(ms)
    requires forall i :: 0 <= i < |ms| ==> ms[i].0 in cs && Convert(ms[i].1, SingleValueDecoder) == Success(OTree(cs[ms[i].0]))
    ensures Convert(JObj(ms), SingleValueDecoder) == Success(ODict(pairs))
    ensures ChildrenAreNodes(pairs) && Children(pairs) == cs
  {
    var dec := SingleValueDecoder;
    pairs := ConvertContextsMembers(cs, ms);
    FromPairsOfDistinct(pairs);
    ChildrenOfPairs(cs, ms, pairs);
    assert NoHookKey(ToMap(pairs));
    assert Hook(pairs, dec) == Success(ODict(pairs));
    assert Convert(JObj(ms), dec) == Hook(pairs, dec);
  }

  /** The members of a `contexts` object convert one by one to their children, keeping their distinct names. */
  lemma {:induction false} ConvertContextsMembers(cs: map<string, Node>, ms: seq<(string, Json)>) returns (pairs: Dict<Obj>)
    requires DistinctKeys(ms)
    requires forall i :: 0 <= i < |ms| ==> ms[i].0 in cs && Convert(ms[i].1, SingleValueDecoder) == Success(OTree(cs[ms[i].0]))
    ensures ConvertMembers(JObj(ms), SingleValueDecoder, 0) == Success(pairs)
    ensures DistinctKeys(pairs) && |pairs| == |ms|
    ensures forall i :: 0 <= i < |ms| ==> ms[i].0 in cs && pairs[i] == (ms[i].0, OTree(cs[ms[i].0]))
  {
    var dec := SingleValueDecoder;
    var children := JObj(ms);
    var outs := seq(|ms|, k requires 0 <= k < |ms| => OTree(cs[ms[k].0]));
    ConvertMembersEach(children, dec, 0, outs);
    pairs := ConvertMembers(children, dec, 0).value;
    forall a, b | 0 <= a < b < |pairs| ensures pairs[a].0 != pairs[b].0 {
      assert pairs[a].0 == ms[a].0 && pairs[b].0 == ms[b].0;
    }
  }

  /** The decoded `contexts` dict maps each dimension value to its child, and to nothing else. */
  lemma {:induction false} ChildrenOfPairs(cs: map<string, Node>, ms: seq<(string, Json)>, pairs: Dict<Obj>)
    requires DistinctKeys(pairs) && |pairs| == |ms|
    requires forall k :: k in cs <==> k in Keys(ms)
    requires forall i :: 0 <= i < |ms| ==> ms[i].0 in cs && pairs[i] == (ms[i].0, OTree(cs[ms[i].0]))
    ensures ChildrenAreNodes(pairs)
    ensures forall k :: k in ToMap(pairs) <==> k in cs
    ensures Children(pairs) == cs
  {
    ToMapKeys(pairs);
    assert Keys(pairs) == Keys(ms);
    forall k | k in ToMap(pairs) ensures ToMap(pairs)[k] == OTree(cs[k]) {
      var i :| 0 <= i < |pairs| && Keys(pairs)[i] == k;
      ToMapAt(pairs, i);
    }
    ChildrenOfMap(cs, pairs);
  }

  lemma ChildrenOfMap(cs: map<string, Node>, pairs: Dict<Obj>)
    requires forall k :: k in ToMap(pairs) <==> k in cs
    requires forall k :: k in ToMap(pairs) ==> ToMap(pairs)[k] == OTree(cs[k])
    ensures Children(pairs) == cs
  {
    var ch := Children(pairs);
    assert forall k :: k in ch <==> k in cs;
    assert forall k :: k in ch ==> ch[k] == cs[k];
  }

  /**
    The hook also runs on the `contexts` dict itself, so a dimension value
    named `value` turns that dict into a Context node. Python still builds the
    enclosing Modifiers node around it and fails only when the dimension is
    looked up (a TypeError at decoding with the object decoder, which cannot
    unpack a Context); the model reports the shape as Malformed at decoding.
   */
  lemma DimensionNamedValueIsNotDecoded()
    ensures Convert(
      JObj([("type", JStr("user")),
            ("contexts", JObj([("value", JObj([("value", JBool(true))]))]))]), SingleValueDecoder)
      == Failure(Malformed)
  {
    var dec := SingleValueDecoder;
    var child := JObj([("value", JBool(true))]);
    var contexts := JObj([("value", child)]);
    var childTree := OTree(Context(OBool(true), None));
    var contextsTree := OTree(Context(childTree, None));
    DecodeValueObject(dec, OBool(true), OBool(true), JBool(true));
    DecodeValueObject(dec, childTree, childTree, child);
    ConvertTwoMembers("type", JStr("user"), OStr("user"), "contexts", contexts, contextsTree, dec);
    ToMapOfTwo("type", OStr("user"), "contexts", contextsTree);
  }

  // ---------------------------------------------------------------------------
  // ConfigurationMapper.read_value

  /**
    The entries under `root` in a parsed document, as a dict. Text that is not
    JSON fails to parse; a document that is not an object cannot be indexed by a
    key (TypeError); a missing root is a KeyError; and a root value that is not
    an object has no items (AttributeError).
   */
  function Section(root: string, document: Option<Json>): (r: Result<Dict<Json>, Error>)
    ensures document.None? ==> r == Failure(JsonDecodeError)
    ensures document.Some? && !document.value.JObj? ==> r == Failure(TypeError)
    ensures r.Success? ==> DistinctKeys(r.value)
    ensures r.Success? <==>
      && document.Some? && document.value.JObj?
      && root in ToMap(document.value.members)
      && ToMap(document.value.members)[root].JObj?
    ensures r.Success? ==> ToMap(r.value) == ToMap(ToMap(document.value.members)[root].members)
  {
    match document
    case None => Failure(JsonDecodeError)
    case Some(JObj(members)) =>
      var tree := ToMap(FromPairs(members));
      if root !in tree then Failure(KeyError)
      else if tree[root].JObj? then Success(FromPairs(tree[root].members))
      else Failure(AttributeError)
    case Some(_) => Failure(TypeError)
  }

  /** The state of the loop over the entries: what it stored, how often it skipped, what it raised. */
  datatype MapperRun = MapperRun(configurations: map<string, Node>, skips: nat, error: Option<Error>)

  /** How the loop body decodes one entry, given its name and its JSON. */
  type EntryDecoder = (string, Json) -> Result<Node, Error>

  /** The entry decoder of a mapper: `DecodeEntry` with the mapper's factory. */
  function EntryDecoderOf(f: ValueDecoderFactory): (decode: EntryDecoder)
  {
    (name: string, j: Json) => DecodeEntry(f, name, j)
  }

  /** One pass of the loop body; after an exception the loop has ended and nothing changes. */
  function ReadEntry(decode: EntryDecoder, skip: bool, run: MapperRun, entry: (string, Json)): MapperRun
  {
    if run.error.Some? then run
    else match decode(entry.0, entry.1)
      case Success(n) => run.(configurations := run.configurations[entry.0 := n])
      case Failure(e) => if skip then run.(skips := run.skips + 1) else run.(error := Some(e))
  }

  /** The loop over `entries`, as a fold from the first entry to the last. */
  function ReadEntries(decode: EntryDecoder, skip: bool, entries: Dict<Json>): MapperRun
  {
    if entries == [] then MapperRun(map[], 0, None)
    else ReadEntry(decode, skip, ReadEntries(decode, skip, entries[..|entries| - 1]), entries[|entries| - 1])
  }

  /** What the entry `entries[i]` decodes to. */
  function EntryAt(decode: EntryDecoder, entries: Dict<Json>, i: nat): Result<Node, Error>
    requires i < |entries|
  {
    decode(entries[i].0, entries[i].1)
  }

  /**
    Every stored configuration is an entry of the section, decoded under its
    own name.
   */
  lemma {:induction false} ReadEntriesSound(decode: EntryDecoder, skip: bool, entries: Dict<Json>)
    requires DistinctKeys(entries)
    ensures var run := ReadEntries(decode, skip, entries);
      forall k :: k in run.configurations ==>
        k in ToMap(entries) && decode(k, ToMap(entries)[k]) == Success(run.configurations[k])
  {
    var run := ReadEntries(decode, skip, entries);
    ReadEntriesStored(decode, skip, entries);
    assert forall k :: k in ReadEntries(decode, skip, entries).configurations ==>
      StoredFrom(decode, entries, ReadEntries(decode, skip, entries).configurations, k);
    forall k | k in run.configurations
      ensures k in ToMap(entries) && decode(k, ToMap(entries)[k]) == Success(run.configurations[k])
    {
      var i :| 0 <= i < |entries| && entries[i].0 == k && decode(k, entries[i].1) == Success(run.configurations[k]);
      ToMapAt(entries, i);
    }
  }

  /** `configurations[k]` is what some entry named `k` decodes to. */
  ghost predicate StoredFrom(decode: EntryDecoder, entries: Dict<Json>, configurations: map<string, Node>, k: string) {
    k in configurations &&
    exists i :: 0 <= i < |entries| && entries[i].0 == k && decode(k, entries[i].1) == Success(configurations[k])
  }

  /** Every stored configuration is what some entry of that name decodes to. */
  lemma {:induction false} ReadEntriesStored(decode: EntryDecoder, skip: bool, entries: Dict<Json>)
    ensures var run := ReadEntries(decode, skip, entries);
      forall k :: k in run.configurations ==> StoredFrom(decode, entries, run.configurations, k)
  {
    if entries != [] {
      var front, last := entries[..|entries| - 1], entries[|entries| - 1];
      ReadEntriesStored(decode, skip, front);
      var prev := ReadEntries(decode, skip, front);
      var run := ReadEntries(decode, skip, entries);
      assert forall k :: k in ReadEntries(decode, skip, front).configurations ==>
        StoredFrom(decode, front, ReadEntries(decode, skip, front).configurations, k);
      forall k | k in run.configurations
        ensures StoredFrom(decode, entries, run.configurations, k)
      {
        if k in prev.configurations && run.configurations[k] == prev.configurations[k] {
          var i :| 0 <= i < |front| && front[i].0 == k && decode(k, front[i].1) == Success(prev.configurations[k]);
          assert entries[i] == front[i];
        } else {
          assert entries[|entries| - 1].0 == k;
        }
      }
    }
  }

  /** Unless the loop raised, every entry that decodes is stored. */
  lemma {:induction false} ReadEntriesComplete(decode: EntryDecoder, skip: bool, entries: Dict<Json>)
    ensures var run := ReadEntries(decode, skip, entries);
      run.error.None? ==>
        forall i :: 0 <= i < |entries| && EntryAt(decode, entries, i).Success? ==> entries[i].0 in run.configurations
  {
    if entries != [] {
      var front := entries[..|entries| - 1];
      ReadEntriesComplete(decode, skip, front);
      forall i | 0 <= i < |front| ensures EntryAt(decode, entries, i) == EntryAt(decode, front, i) { }
    }
  }

  /**
    With skipping on, the loop never raises, and every entry is either stored
    or counted as a skip.
   */
  lemma {:induction false} ReadEntriesSkipping(decode: EntryDecoder, entries: Dict<Json>)
    requires DistinctKeys(entries)
    ensures var run := ReadEntries(decode, true, entries);
      run.error.None? && |run.configurations| + run.skips == |entries|
  {
    if entries != [] {
      var front, last := entries[..|entries| - 1], entries[|entries| - 1];
      ReadEntriesSkipping(decode, front);
      ReadEntriesSound(decode, true, front);
      ToMapKeys(front);
      assert last.0 !in Keys(front);
    }
  }

  /**
    With skipping off, nothing is ever counted as a skip, and the loop raises
    exactly when some entry fails to decode: then it raises the error of the
    first entry that fails.
   */
  lemma {:induction false} ReadEntriesStrict(decode: EntryDecoder, entries: Dict<Json>)
    ensures var run := ReadEntries(decode, false, entries);
      && run.skips == 0
      && (run.error.None? <==> forall i :: 0 <= i < |entries| ==> EntryAt(decode, entries, i).Success?)
      && (run.error.Some? ==>
            exists i :: 0 <= i < |entries| && EntryAt(decode, entries, i) == Failure(run.error.value)
                     && forall j :: 0 <= j < i ==> EntryAt(decode, entries, j).Success?)
  {
    if entries != [] {
      var front := entries[..|entries| - 1];
      ReadEntriesStrict(decode, front);
      var run := ReadEntries(decode, false, front);
      forall i | 0 <= i < |front| ensures EntryAt(decode, entries, i) == EntryAt(decode, front, i) { }
      if run.error.Some? {
        var i :| 0 <= i < |front| && EntryAt(decode, front, i) == Failure(run.error.value)
                && forall j :: 0 <= j < i ==> EntryAt(decode, front, j).Success?;
        assert EntryAt(decode, entries, i) == Failure(run.error.value);
      } else if EntryAt(decode, entries, |front|).Failure? {
        assert EntryAt(decode, entries, |front|) == Failure(ReadEntries(decode, false, entries).error.value);
      }
    }
  }

  /** When no entry fails, the skipping policy makes no difference. */
  lemma {:induction false} ReadEntriesPoliciesAgree(decode: EntryDecoder, entries: Dict<Json>)
    requires forall i :: 0 <= i < |entries| ==> EntryAt(decode, entries, i).Success?
    ensures ReadEntries(decode, true, entries) == ReadEntries(decode, false, entries)
    ensures ReadEntries(decode, true, entries).skips == 0
  {
    if entries != [] {
      var front := entries[..|entries| - 1];
      forall i | 0 <= i < |front| ensures EntryAt(decode, front, i).Success? {
        assert EntryAt(decode, front, i) == EntryAt(decode, entries, i);
      }
      ReadEntriesPoliciesAgree(decode, front);
      assert EntryAt(decode, entries, |front|).Success?;
    }
  }

  /** Once the loop has raised, later entries change nothing. */
  lemma {:induction false} ReadEntriesRaisedStays(decode: EntryDecoder, skip: bool, entries: Dict<Json>, k: nat)
    requires k <= |entries| && ReadEntries(decode, skip, entries[..k]).error.Some?
    ensures ReadEntries(decode, skip, entries) == ReadEntries(decode, skip, entries[..k])
  {
    if k < |entries| {
      var front := entries[..|entries| - 1];
      assert front[..k] == entries[..k];
      ReadEntriesRaisedStays(decode, skip, front, k);
    } else {
      assert entries[..k] == entries;
    }
  }

  /** A mapper's settings: the root key, the decoder factory, the skip policy and the JSON parser. */
  datatype MapperConfig = MapperConfig(
    root: string,
    factory: ValueDecoderFactory,
    skipNonInstantiable: bool,
    parse: string -> Option<Json>)

  /** The outcome of `read_value`: its result or exception, and how many entries it skipped. */
  datatype MapperOutcome = MapperOutcome(result: Result<map<string, Node>, Error>, skips: nat)

  function ReadValueSpec(c: MapperConfig, content: string): MapperOutcome
  {
    match Section(c.root, c.parse(content))
    case Failure(e) => MapperOutcome(Failure(e), 0)
    case Success(entries) =>
      var run := ReadEntries(EntryDecoderOf(c.factory), c.skipNonInstantiable, entries);
      if run.error.Some? then MapperOutcome(Failure(run.error.value), run.skips)
      else MapperOutcome(Success(run.configurations), run.skips)
  }

  /**
    `read_value` fails with skipping on only when the document itself is
    unusable, and then skips nothing; otherwise each entry of the section is
    stored or skipped.
   */
  lemma {:induction false} ReadValueSkipping(c: MapperConfig, content: string)
    requires c.skipNonInstantiable
    ensures var out := ReadValueSpec(c, content);
      var section := Section(c.root, c.parse(content));
      && (out.result.Failure? <==> section.Failure?)
      && (out.result.Failure? ==> out.result.error == section.error && out.skips == 0)
      && (out.result.Success? ==> |out.result.value| + out.skips == |section.value|)
  {
    var section := Section(c.root, c.parse(content));
    if section.Success? {
      ReadEntriesSkipping(EntryDecoderOf(c.factory), section.value);
    }
  }

  /**
    Every configuration `read_value` returns is the decoding of the entry with
    the same name under the root key.
   */
  lemma {:induction false} ReadValueSound(c: MapperConfig, content: string)
    ensures var out := ReadValueSpec(c, content);
      out.result.Success? ==>
        var document := c.parse(content).value;
        var entries := ToMap(ToMap(document.members)[c.root].members);
        forall k :: k in out.result.value ==>
          k in entries && DecodeEntry(c.factory, k, entries[k]) == Success(out.result.value[k])
  {
    var section := Section(c.root, c.parse(content));
    if section.Success? {
      ReadEntriesSound(EntryDecoderOf(c.factory), c.skipNonInstantiable, section.value);
    }
  }

  /** `ConfigurationMapper`: reads the configurations under one root key of a JSON document. */
  class ConfigurationMapper {
    const root: string
    const valueDecoderFactory: ValueDecoderFactory
    const skipNonInstantiable: bool
    const metrics: Metrics.ManagerMetrics
    /** `json.loads` without a hook: the parsed document, or None when the text is not JSON. */
    const parse: string -> Option<Json>

    constructor (root: string, valueDecoderFactory: ValueDecoderFactory, skipNonInstantiable: bool,
                 metrics: Metrics.ManagerMetrics, parse: string -> Option<Json>)
      ensures Config() == MapperConfig(root, valueDecoderFactory, skipNonInstantiable, parse)
      ensures this.metrics == metrics
    {
      this.root := root;
      this.valueDecoderFactory := valueDecoderFactory;
      this.skipNonInstantiable := skipNonInstantiable;
      this.metrics := metrics;
      this.parse := parse;
    }

    function Config(): MapperConfig {
      MapperConfig(root, valueDecoderFactory, skipNonInstantiable, parse)
    }

    /**
      `read_value`: the configurations of the document, or the exception it
      raises; every entry skipped is counted once in the metrics.
     */
    method ReadValue(jsonContent: string) returns (r: Result<map<string, Node>, Error>)
      modifies metrics
      ensures r == ReadValueSpec(Config(), jsonContent).result
      ensures metrics.Counts() == old(metrics.Counts()).(
        nonInstantiableSkips := old(metrics.nonInstantiableSkips) + ReadValueSpec(Config(), jsonContent).skips)
    {
      var section := Section(root, parse(jsonContent));
      if section.Failure? {
        return Failure(section.error);
      }
      var run := ReadConfigurations(EntryDecoderOf(valueDecoderFactory), section.value);
      if run.error.Some? {
        return Failure(run.error.value);
      }
      return Success(run.configurations);
    }

    /**
      The loop of `read_value` over the entries under the root key; `decode`
      is the body's decoding of one entry, `EntryDecoderOf` of the mapper's factory.
     */
    method ReadConfigurations(decode: EntryDecoder, entries: Dict<Json>) returns (run: MapperRun)
      modifies metrics
      ensures run == ReadEntries(decode, skipNonInstantiable, entries)
      ensures metrics.Counts() == old(metrics.Counts()).(nonInstantiableSkips := old(metrics.nonInstantiableSkips) + run.skips)
    {
      var configurations: map<string, Node> := map[];
      var skips: nat := 0;
      var i := 0;
      while i < |entries|
        invariant 0 <= i <= |entries|
        invariant ReadEntries(decode, skipNonInstantiable, entries[..i]) == MapperRun(configurations, skips, None)
        invariant metrics.Counts() == old(metrics.Counts()).(nonInstantiableSkips := old(metrics.nonInstantiableSkips) + skips)
      {
        var (name, configuration) := entries[i];
        assert entries[..i + 1][..i] == entries[..i];
        var decoded := decode(name, configuration);
        if decoded.Success? {
          configurations := configurations[name := decoded.value];
        } else if skipNonInstantiable {
          metrics.IncrementNonInstantiableSkips();
          skips := skips + 1;
        } else {
          run := MapperRun(configurations, skips, Some(decoded.error));
          ReadEntriesRaisedStays(decode, skipNonInstantiable, entries, i + 1);
          return;
        }
        i := i + 1;
      }
      assert entries[..i] == entries;
      run := MapperRun(configurations, skips, None);
    }
  }
}
