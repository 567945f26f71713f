/**
  merci/managers.py: the in-memory store of configuration trees that the
  readers replace wholesale, and the two front ends that evaluate it, one for
  feature flags and one for config objects.
 */
module Managers {
  import opened Wrappers
  import opened Errors
  import opened Dicts
  import opened Structure
  import Deserialization

  /**
    `ConfigurationManager`: holds the current store. Readers swap in a whole new
    store; lookups evaluate the tree stored under a name.
   */
  class ConfigurationManager {
    var configurationStore: map<string, Node>

    constructor ()
      ensures configurationStore == map[]
    {
      configurationStore := map[];
    }

    /** `set_configuration_store`: the new store replaces the old one entirely. */
    method SetConfigurationStore(store: map<string, Node>)
      modifies this
      ensures configurationStore == store
    {
      configurationStore := store;
    }

    /**
      `get_object`: the default for a name the store does not have; otherwise the
      value the tree gives for the runtime context, which may be None.
     */
    function GetObject(name: string, ctx: RuntimeContext, default: Obj): (r: Obj)
      reads this
      ensures name !in configurationStore ==> r == default
      ensures name in configurationStore ==> r == LastNotNone(Overrides(configurationStore[name], ctx))
    {
      if name !in configurationStore then default
      else
        GetValueIsMostSpecificOverride(configurationStore[name], ctx);
        GetValue(configurationStore[name], ctx)
    }
  }

  /** `FeatureFlagManager`: reads feature flags through a shared configuration manager. */
  class FeatureFlagManager {
    const configurationStore: ConfigurationManager

    constructor (configurationStore: ConfigurationManager)
      ensures this.configurationStore == configurationStore
    {
      this.configurationStore := configurationStore;
    }

    /**
      `is_active`: the flag's value for the runtime context, or the default when
      the flag is unknown. The stored value is returned as it is, not converted
      to a boolean.
     */
    function IsActive(name: string, ctx: RuntimeContext, default: bool): (r: Obj)
      reads configurationStore
      ensures name !in configurationStore.configurationStore ==> r == OBool(default)
      ensures r == configurationStore.GetObject(name, ctx, OBool(default))
    {
      configurationStore.GetObject(name, ctx, OBool(default))
    }
  }

  /** A Python class as `get_config` sees it: its module, its qualified name, its initializer. */
  datatype PyClass = PyClass(moduleName: Option<string>, qualname: string, spec: Deserialization.ClassSpec)

  /**
    `_ClassUtil.full_class_name`: the qualified name alone for a class without a
    module or from `builtins`, otherwise the module and the qualified name
    joined by a dot.
   */
  function FullClassName(c: PyClass): (name: string)
    ensures c.moduleName.None? || c.moduleName == Some("builtins") ==> name == c.qualname
    ensures c.moduleName.Some? && c.moduleName != Some("builtins") ==>
      && |name| == |c.moduleName.value| + 1 + |c.qualname|
      && name[..|c.moduleName.value|] == c.moduleName.value
      && name[|c.moduleName.value|] == '.'
      && name[|c.moduleName.value| + 1..] == c.qualname
  {
    if c.moduleName.None? || c.moduleName == Some("builtins") then c.qualname
    else c.moduleName.value + "." + c.qualname
  }

  /**
    A class whose name the decoder could never find again: its full name has
    no dot, because it lives in `builtins` (or has no module) and its qualified
    name has none.
   */
  lemma {:induction false} UndottedClassIsNeverFound(c: PyClass, registry: Deserialization.Registry)
    requires c.moduleName.None? || c.moduleName == Some("builtins")
    requires '.' !in c.qualname
    ensures Deserialization.FindClass(registry, FullClassName(c)).Failure?
  {
    assert FullClassName(c) == c.qualname;
  }

  /** A class defined in a module always has a dotted full name. */
  lemma {:induction false} ModuleClassNameIsDotted(c: PyClass)
    requires c.moduleName.Some? && c.moduleName != Some("builtins")
    ensures '.' in FullClassName(c)
  {
    var m := c.moduleName.value;
    assert FullClassName(c)[|m|] == '.';
  }

  /**
    `_ClassUtil.instantiate_with_defaults`: calls the initializer with no
    arguments, which fails when a parameter has no default.
   */
  function InstantiateWithDefaults(c: PyClass): (r: Result<Obj, Error>)
    ensures r.Success? <==> forall p :: p in c.spec.params ==> c.spec.params[p].Some?
    ensures r.Failure? ==> r.error == TypeError
    ensures r.Success? ==>
      && r.value.OInstance? && r.value.className == FullClassName(c)
      && r.value.fields.Keys == c.spec.params.Keys
      && forall p :: p in c.spec.params ==> Some(r.value.fields[p]) == c.spec.params[p]
  {
    Deserialization.Construct(FullClassName(c), c.spec, [])
  }

  /** `ConfigManager`: reads config objects through a shared configuration manager. */
  class ConfigManager {
    const configurationStore: ConfigurationManager

    constructor (configurationStore: ConfigurationManager)
      ensures this.configurationStore == configurationStore
    {
      this.configurationStore := configurationStore;
    }

    /**
      `get_config`: the config object stored under the class's full name for
      the runtime context; when the store has none, or its tree gives None, a
      fresh instance with the class's defaults. It never returns None.
     */
    function GetConfig(c: PyClass, ctx: RuntimeContext): (r: Result<Obj, Error>)
      reads configurationStore
      ensures var found := configurationStore.GetObject(FullClassName(c), ctx, ONone);
        && (found != ONone ==> r == Success(found))
        && (found == ONone ==> r == InstantiateWithDefaults(c))
      ensures r.Success? ==> r.value != ONone
      ensures FullClassName(c) !in configurationStore.configurationStore ==> r == InstantiateWithDefaults(c)
    {
      var config := configurationStore.GetObject(FullClassName(c), ctx, ONone);
      if config == ONone then InstantiateWithDefaults(c) else Success(config)
    }
  }

  /**
    The feature-flag scenario of the manager tests: a feature flag manager
    created before the store is set sees the store once it is set, and the
    flag is on for Joe in qa only.
   */
  method WelcomeFlagScenario() returns (joeInQa: Obj, joeInProd: Obj, unknown: Obj)
    ensures joeInQa == OBool(true)
    ensures joeInProd == OBool(false)
    ensures unknown == OBool(false)
  {
    var manager := new ConfigurationManager();
    var flags := new FeatureFlagManager(manager);
    manager.SetConfigurationStore(map["enable-welcome" := OnlyJoeInQa()]);
    joeInQa := flags.IsActive("enable-welcome", map["environment" := "qa", "user" := "joe"], false);
    joeInProd := flags.IsActive("enable-welcome", map["environment" := "prod", "user" := "joe"], false);
    unknown := flags.IsActive("enable-farewell", map["environment" := "qa", "user" := "joe"], false);
  }
}
