/**
 * The `define` guard as the source writes it. `_oModulesData` is a plain
 * object, so `_oModulesData[sModuleName]` also finds what every object
 * inherits from `Object.prototype`: for a name such as "toString" the
 * lookup is a function, which is truthy, and `define` refuses the name
 * although no module of that name exists.
 */
module Findings {
  import opened Values
  import opened ModuleManager

  /** The properties of `Object.prototype`, which every plain object inherits. */
  const InheritedProperties: set<string> :=
    {"constructor", "hasOwnProperty", "isPrototypeOf", "propertyIsEnumerable",
     "toLocaleString", "toString", "valueOf", "__proto__",
     "__defineGetter__", "__defineSetter__", "__lookupGetter__", "__lookupSetter__"}

  /** Whether `define` goes on to store the module, as written. */
  function DefineGuardAsWritten(modules: map<string, ModuleData>, name: string, creator: Creator): bool
  {
    !(name in modules || name in InheritedProperties) && creator.isFunction
  }

  /**
   * The guard as written and the guard `Registry.Define` uses disagree
   * exactly on a callable creator under an inherited name no module has.
   */
  lemma GuardDifference(modules: map<string, ModuleData>, name: string, creator: Creator)
    ensures DefineGuardAsWritten(modules, name, creator) != (name !in modules && creator.isFunction)
            <==> name in InheritedProperties && name !in modules && creator.isFunction
  {
  }

  /** On an empty store, a valid creator under the name "toString" is refused. */
  lemma InheritedNameRefused(creator: Creator)
    requires creator.isFunction
    ensures !DefineGuardAsWritten(map[], "toString", creator)
  {
  }

  /** With the guard the registry uses, the same call succeeds. */
  method DefineInheritedName(creator: Creator) returns (ok: bool, ghost store: map<string, ModuleData>)
    requires creator.isFunction
    ensures ok
    ensures store == map["toString" := ModuleData(creator, [], map[])]
  {
    var reg := new Registry();
    ok := reg.Define("toString", [], creator);
    store := reg.modules;
  }
}
