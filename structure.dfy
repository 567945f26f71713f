/**
  The override-resolution tree of merci/structure.py: a Context holds a default
  value and optional modifiers; a Modifiers node dispatches on one key of the
  runtime context to a child node. Both kinds of node are evaluators, and either
  can stand wherever the source expects a RuntimeEvaluator.
 */
module Structure {
  import opened Wrappers
  import opened Dicts

  /**
    The Python objects a configuration value can be once its JSON is decoded:
    plain JSON data, a tree node the decoder's hook built, or an instance of a
    config class. `ONone` is Python's None, which the source also uses as the
    "no match" signal.
   */
  datatype Obj =
    | ONone
    | OBool(b: bool)
    | OInt(i: int)
    | OStr(s: string)
    | OList(items: seq<Obj>)
    | ODict(entries: Dict<Obj>)
    | OTree(node: Node)
    | OInstance(className: string, fields: map<string, Obj>)

  datatype Node =
    | Context(value: Obj, modifiers: Option<Node>)
    | Modifiers(contextType: string, contexts: map<string, Node>)

  /** A top-level, named binding of a configuration to its tree. */
  datatype Configuration = Configuration(name: string, context: Node)

  /** Who or where is asking: dimension name to dimension value. */
  type RuntimeContext = map<string, string>

  /**
    `Context.get_value` and `Modifiers.get_value`. A Context whose value is not
    None never evaluates to None.
   */
  function GetValue(n: Node, ctx: RuntimeContext): (r: Obj)
    ensures n.Context? && n.value != ONone ==> r != ONone
  {
    match n
    case Context(v, None) => v
    case Context(v, Some(m)) =>
      var fromModifiers := GetValue(m, ctx);
      if fromModifiers != ONone then fromModifiers else v
    case Modifiers(t, cs) =>
      if t !in ctx then ONone
      else if ctx[t] !in cs then ONone
      else GetValue(cs[ctx[t]], ctx)
  }

  /** `Configuration.get_value`: the value of the configuration's root context. */
  function ConfigurationValue(c: Configuration, ctx: RuntimeContext): (r: Obj)
    ensures c.context.Context? && c.context.value != ONone ==> r != ONone
  {
    GetValue(c.context, ctx)
  }

  // ---------------------------------------------------------------------------
  // An independent account of resolution: the most specific override wins.

  /**
    The values of the Context nodes that the runtime context selects, from the
    root down to the most specific one.
   */
  function Overrides(n: Node, ctx: RuntimeContext): seq<Obj>
  {
    match n
    case Context(v, None) => [v]
    case Context(v, Some(m)) => [v] + Overrides(m, ctx)
    case Modifiers(t, cs) =>
      if t in ctx && ctx[t] in cs then Overrides(cs[ctx[t]], ctx) else []
  }

  /** The last element of `s` that is not None, or None when there is none. */
  function LastNotNone(s: seq<Obj>): Obj
  {
    if s == [] then ONone
    else if s[|s| - 1] != ONone then s[|s| - 1]
    else LastNotNone(s[..|s| - 1])
  }

  lemma {:induction false} LastNotNonePrepend(v: Obj, s: seq<Obj>)
    ensures LastNotNone([v] + s) == if LastNotNone(s) != ONone then LastNotNone(s) else v
  {
    if s != [] {
      assert ([v] + s)[..|[v] + s| - 1] == [v] + s[..|s| - 1];
      if s[|s| - 1] == ONone {
        LastNotNonePrepend(v, s[..|s| - 1]);
      }
    }
  }

  /**
    Evaluation returns the value of the most specific selected Context whose
    value is not None; a None value, like a missing match, defers to the
    enclosing Context.
   */
  lemma {:induction false} GetValueIsMostSpecificOverride(n: Node, ctx: RuntimeContext)
    ensures GetValue(n, ctx) == LastNotNone(Overrides(n, ctx))
  {
    match n
    case Context(v, None) =>
      assert [v][..0] == [];
    case Context(v, Some(m)) =>
      GetValueIsMostSpecificOverride(m, ctx);
      LastNotNonePrepend(v, Overrides(m, ctx));
    case Modifiers(t, cs) =>
      if t in ctx && ctx[t] in cs {
        GetValueIsMostSpecificOverride(cs[ctx[t]], ctx);
      }
  }

  /** Evaluation of a Context without modifiers ignores the runtime context. */
  lemma ContextWithoutModifiersIsConstant(v: Obj, ctx1: RuntimeContext, ctx2: RuntimeContext)
    ensures GetValue(Context(v, None), ctx1) == GetValue(Context(v, None), ctx2) == v
  {
  }

  // ---------------------------------------------------------------------------
  // Only the dimensions a tree names can influence its value.

  /** `ctx1` and `ctx2` agree on every dimension that a Modifiers node of `n` dispatches on. */
  ghost predicate AgreeOnDimensions(n: Node, ctx1: RuntimeContext, ctx2: RuntimeContext)
  {
    match n
    case Context(_, None) => true
    case Context(_, Some(m)) => AgreeOnDimensions(m, ctx1, ctx2)
    case Modifiers(t, cs) =>
      && (t in ctx1 <==> t in ctx2)
      && (t in ctx1 ==> ctx1[t] == ctx2[t])
      && forall k :: k in cs ==> AgreeOnDimensions(cs[k], ctx1, ctx2)
  }

  lemma {:induction false} GetValueDependsOnlyOnDimensions(n: Node, ctx1: RuntimeContext, ctx2: RuntimeContext)
    requires AgreeOnDimensions(n, ctx1, ctx2)
    ensures GetValue(n, ctx1) == GetValue(n, ctx2)
  {
    match n
    case Context(_, None) =>
    case Context(_, Some(m)) =>
      GetValueDependsOnlyOnDimensions(m, ctx1, ctx2);
    case Modifiers(t, cs) =>
      if t in ctx1 && ctx1[t] in cs {
        GetValueDependsOnlyOnDimensions(cs[ctx1[t]], ctx1, ctx2);
      }
  }

  // ---------------------------------------------------------------------------
  // The trees and runtime contexts of the structure tests.

  function Message(text: string): Obj {
    OInstance("merci.tests.configs.MessageConfig", map["message" := OStr(text)])
  }

  /** Environment, then cluster, then user: the config tree of the structure tests. */
  function MessageTree(): Node {
    Context(Message("I just started."),
      Some(Modifiers("environment", map["qa" := QaBranch(), "prod" := Context(Message("Yeah. I made it."), None)])))
  }

  function QaBranch(): Node {
    Context(Message("I am almost there."), Some(Modifiers("cluster", map["cem341" := Cem341Branch()])))
  }

  function Cem341Branch(): Node {
    Context(Message("Someone is testing in cem341."),
      Some(Modifiers("user", map["joe" := Context(Message("I am testing in cem341, Joe."), None)])))
  }

  /** The feature flag that is true only for user joe in environment qa. */
  function OnlyJoeInQa(): Node {
    Context(OBool(false),
      Some(Modifiers("environment", map[
        "qa" := Context(OBool(false), Some(Modifiers("user", map["joe" := Context(OBool(true), None)]))),
        "prod" := Context(OBool(false), None)])))
  }

  /** The structure tests' lookups with no dimension or with the qa environment only. */
  lemma {:induction false} MessageTreeExpectations()
    ensures GetValue(MessageTree(), map[]) == Message("I just started.")
    ensures GetValue(MessageTree(), map["environment" := "qa"]) == Message("I am almost there.")
  {
  }

  /** The structure tests' lookup in prod. */
  lemma {:induction false} MessageTreeProdExpectations()
    ensures GetValue(MessageTree(), map["environment" := "prod"]) == Message("Yeah. I made it.")
  {
  }

  /** The structure tests' lookups on cluster cem1001 in prod: the cluster and the user have no override there. */
  lemma {:induction false} MessageTreeCem1001Expectations()
    ensures GetValue(MessageTree(), map["environment" := "prod", "cluster" := "cem1001"])
         == Message("Yeah. I made it.")
    ensures GetValue(MessageTree(), map["environment" := "prod", "cluster" := "cem1001", "user" := "joe"])
         == Message("Yeah. I made it.")
  {
  }

  /** The structure tests' lookup on cluster cem341 in qa without a user. */
  lemma {:induction false} MessageTreeQaExpectations()
    ensures GetValue(MessageTree(), map["environment" := "qa", "cluster" := "cem341"])
         == Message("Someone is testing in cem341.")
  {
    var cem341 := map["environment" := "qa", "cluster" := "cem341"];
    assert GetValue(Cem341Branch(), cem341) == Message("Someone is testing in cem341.");
    assert GetValue(QaBranch(), cem341) == Message("Someone is testing in cem341.");
  }

  /** Jack on cluster cem341 in qa has no override of his own and gets the cluster's message. */
  lemma {:induction false} MessageTreeJackExpectation()
    ensures GetValue(MessageTree(), map["environment" := "qa", "cluster" := "cem341", "user" := "jack"])
         == Message("Someone is testing in cem341.")
  {
    var jack := map["environment" := "qa", "cluster" := "cem341", "user" := "jack"];
    assert GetValue(Cem341Branch(), jack) == Message("Someone is testing in cem341.");
    assert GetValue(QaBranch(), jack) == Message("Someone is testing in cem341.");
  }

  /** Joe on cluster cem341 in qa gets the most specific message. */
  lemma {:induction false} MessageTreeJoeExpectation()
    ensures GetValue(MessageTree(), map["environment" := "qa", "cluster" := "cem341", "user" := "joe"])
         == Message("I am testing in cem341, Joe.")
  {
    var joe := map["environment" := "qa", "cluster" := "cem341", "user" := "joe"];
    assert GetValue(Cem341Branch(), joe) == Message("I am testing in cem341, Joe.");
    assert GetValue(QaBranch(), joe) == Message("I am testing in cem341, Joe.");
  }

  lemma {:induction false} OnlyJoeInQaExpectations()
    ensures GetValue(OnlyJoeInQa(), map[]) == OBool(false)
    ensures GetValue(OnlyJoeInQa(), map["environment" := "qa"]) == OBool(false)
    ensures GetValue(OnlyJoeInQa(), map["environment" := "prod"]) == OBool(false)
    ensures GetValue(OnlyJoeInQa(), map["environment" := "qa", "cluster" := "cem341"]) == OBool(false)
    ensures GetValue(OnlyJoeInQa(), map["environment" := "prod", "cluster" := "cem1001"]) == OBool(false)
    ensures GetValue(OnlyJoeInQa(), map["environment" := "prod", "cluster" := "cem1001", "user" := "joe"])
         == OBool(false)
    ensures GetValue(OnlyJoeInQa(), map["environment" := "qa", "cluster" := "cem341", "user" := "jack"])
         == OBool(false)
    ensures GetValue(OnlyJoeInQa(), map["environment" := "qa", "cluster" := "cem341", "user" := "joe"])
         == OBool(true)
    ensures ConfigurationValue(Configuration("enable-joe", OnlyJoeInQa()),
                               map["environment" := "qa", "cluster" := "cem341", "user" := "joe"]) == OBool(true)
    ensures ConfigurationValue(Configuration("enable-joe", OnlyJoeInQa()),
                               map["environment" := "prod", "cluster" := "cem1001", "user" := "joe"]) == OBool(false)
  {
  }
}
