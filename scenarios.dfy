/**
 * Properties of the module manager that span several calls, stated as
 * client methods whose postconditions follow from the operations'
 * contracts alone.
 */
module Scenarios {
  import opened Values
  import opened Injection
  import opened ModuleManager

  /**
   * Starting a module a second time changes nothing and gives the same
   * answer: no second `onStart`, no second instance.
   */
  method StartTwice(reg: Registry, name: string, data: StartData, again: StartData,
                    request: string -> Tool, debug: bool)
    returns (first: Result<bool>, second: Result<bool>,
             ghost afterFirst: map<string, ModuleData>, ghost eventsAfterFirst: seq<Event>)
    requires reg.Valid()
    modifies reg
    ensures reg.Valid()
    ensures second == first
    ensures reg.modules == afterFirst && reg.events == eventsAfterFirst
    ensures first.Ok? ==> first == Ok(true)
  {
    first := reg.Start(name, data, request, debug);
    afterFirst, eventsAfterFirst := reg.modules, reg.events;
    second := reg.Start(name, again, request, debug);
  }

  /**
   * A started module stopped and started again keeps the instance it was
   * first given: the creator runs once, and `onStart` runs once per start.
   */
  method RestartKeepsInstance(reg: Registry, name: string, data: StartData, again: StartData,
                              request: string -> Tool, debug: bool)
    returns (started: Result<bool>, stopped: Result<bool>, restarted: Result<bool>,
             ghost instance: Instance)
    requires reg.Valid() && name in reg.modules && name !in reg.modules[name].instances
    requires reg.modules[name].creator.makesOnStart
    modifies reg
    ensures started == Ok(true) && stopped == Ok(true) && restarted == Ok(true)
    ensures name in reg.modules && name in reg.modules[name].instances
    ensures reg.modules[name].instances[name] == InstanceData(instance, true)
    ensures BuiltFrom(instance, old(reg.modules)[name], request, debug)
    ensures reg.events == old(reg.events) + Requests(Reversed(old(reg.modules)[name].toolNames))
                          + [InstanceCreated(name), OnStartCalled(name, data)]
                          + (if instance.hasOnStop then [OnStopCalled(name)] else [])
                          + [OnStartCalled(name, again)]
  {
    started := reg.Start(name, data, request, debug);
    instance := reg.modules[name].instances[name].instance;
    stopped := reg.Stop(name, false);
    restarted := reg.Start(name, again, request, debug);
  }

  /**
   * Destroying a module that has an instance record succeeds whatever its
   * state, removes the module, and afterwards `start` and `getInstance`
   * report it as not defined.
   */
  method DestroyThenStart(reg: Registry, name: string, data: StartData,
                          request: string -> Tool, debug: bool)
    returns (destroyed: Result<bool>, restarted: Result<bool>, lookup: Result<Option<InstanceData>>)
    requires reg.Valid() && name in reg.modules && name in reg.modules[name].instances
    modifies reg
    ensures destroyed == Ok(true)
    ensures restarted == Err(ModuleNotDefined(name))
    ensures lookup == Err(ModuleNotDefined(name))
    ensures reg.modules == old(reg.modules) - {name}
  {
    destroyed := reg.Stop(name, true);
    restarted := reg.Start(name, data, request, debug);
    lookup := reg.GetInstance(name, None);
  }

  /**
   * The end-to-end run of a "logger" module with no tools and only an
   * `onStart` hook: define it, start it, look it up, stop it, destroy it,
   * then try to start it again.
   */
  method LoggerScenario(id: nat, data: StartData, request: string -> Tool, debug: bool)
    returns (defined: bool, started: Result<bool>, record: Result<Option<InstanceData>>,
             stopped: Result<bool>, destroyed: Result<bool>, restarted: Result<bool>,
             ghost log: seq<Event>)
    ensures defined
    ensures started == Ok(true)
    ensures record.Ok? && record.value.Some? && record.value.value.isStarted
    ensures record.value.value.instance.creator.id == id
    ensures stopped == Ok(true) && destroyed == Ok(true)
    ensures restarted == Err(ModuleNotDefined("logger"))
    ensures log == [InstanceCreated("logger"), OnStartCalled("logger", data)]
  {
    var reg := new Registry();
    var logger := Creator(id, true, true, false, false, map[]);
    defined := reg.Define("logger", [], logger);
    started := reg.Start("logger", data, request, debug);
    record := reg.GetInstance("logger", None);
    stopped := reg.Stop("logger", false);
    destroyed := reg.Stop("logger", true);
    restarted := reg.Start("logger", data, request, debug);
    log := reg.events;
  }
}
