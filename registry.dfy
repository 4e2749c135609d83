/**
 * The TinyCore module manager: the `_oModulesData` store and the operations
 * `define`, `instantiate`, `start`, `stop`, `getModules` and `getInstance`
 * that read and update it. The calls the manager makes into the toolbox, the
 * creators and the instances' hooks are appended to the ghost `events` log.
 */
module ModuleManager {
  import opened Values
  import opened Injection

  /** The object `instantiate` builds for module data `m`. */
  ghost predicate BuiltFrom(i: Instance, m: ModuleData, request: string -> Tool, debug: bool)
  {
    && i.creator == m.creator
    && |i.args| == |m.toolNames|
    && (forall k :: 0 <= k < |m.toolNames| ==> i.args[k] == request(m.toolNames[k]))
    && i.hasOnStart == m.creator.makesOnStart
    && i.hasOnStop == m.creator.makesOnStop
    && i.hasOnDestroy == m.creator.makesOnDestroy
    && i.wrapped == !debug
    && (debug ==>
          && (forall key :: key in i.exposedTools <==> key in m.creator.ownTools || key in m.toolNames)
          && (forall key :: key in m.creator.ownTools && key !in m.toolNames ==>
                i.exposedTools[key] == m.creator.ownTools[key])
          && (forall k :: 0 <= k < |m.toolNames| ==> i.exposedTools[m.toolNames[k]] == i.args[k]))
    && (!debug ==> i.exposedTools == m.creator.ownTools)
  }

  /**
   * What the registry keeps true of every module: the only instance name
   * ever materialised is the module's own, and that instance was made by the
   * module's creator with one argument per declared tool.
   */
  ghost predicate WellFormed(name: string, m: ModuleData)
  {
    forall iname :: iname in m.instances ==>
      && iname == name
      && m.instances[iname].instance.creator == m.creator
      && |m.instances[iname].instance.args| == |m.toolNames|
      && m.instances[iname].instance.hasOnStart == m.creator.makesOnStart
      && m.instances[iname].instance.hasOnStop == m.creator.makesOnStop
      && m.instances[iname].instance.hasOnDestroy == m.creator.makesOnDestroy
  }

  /**
   * Going from `before` to `after`, no module that is still there changed
   * its creator or its tool names, and no instance record lost its instance
   * or had it replaced.
   */
  ghost predicate Preserves(before: map<string, ModuleData>, after: map<string, ModuleData>)
  {
    forall name :: name in before && name in after ==>
      && after[name].creator == before[name].creator
      && after[name].toolNames == before[name].toolNames
      && (forall iname :: iname in before[name].instances ==>
            iname in after[name].instances &&
            after[name].instances[iname].instance == before[name].instances[iname].instance)
  }

  /** Every module record of store `s` is well formed. */
  ghost predicate ValidStore(s: map<string, ModuleData>)
  {
    forall name :: name in s ==> WellFormed(name, s[name])
  }

  /** Store `s` with the default instance record of module `name` set to `rec`. */
  ghost function WithRecord(s: map<string, ModuleData>, name: string, rec: InstanceData): map<string, ModuleData>
    requires name in s
  {
    s[name := s[name].(instances := s[name].instances[name := rec])]
  }

  /**
   * Storing a record whose instance was made by the module's creator keeps
   * the store well formed, and when the record replaces one it keeps that
   * record's instance, nothing is lost or reassigned.
   */
  lemma SetRecord(s: map<string, ModuleData>, name: string, rec: InstanceData)
    requires ValidStore(s) && name in s
    requires rec.instance.creator == s[name].creator
    requires |rec.instance.args| == |s[name].toolNames|
    requires rec.instance.hasOnStart == s[name].creator.makesOnStart
    requires rec.instance.hasOnStop == s[name].creator.makesOnStop
    requires rec.instance.hasOnDestroy == s[name].creator.makesOnDestroy
    requires name in s[name].instances ==> rec.instance == s[name].instances[name].instance
    ensures ValidStore(WithRecord(s, name, rec))
    ensures Preserves(s, WithRecord(s, name, rec))
  {
  }

  /** Writing back the record a store already holds changes nothing. */
  lemma KeepRecord(s: map<string, ModuleData>, name: string)
    requires name in s && name in s[name].instances
    ensures WithRecord(s, name, s[name].instances[name]) == s
  {
    var m := s[name];
    assert m.instances[name := m.instances[name]] == m.instances;
    assert m.(instances := m.instances) == m;
  }

  /** A second write to the same record replaces the first. */
  lemma OverwriteRecord(s: map<string, ModuleData>, name: string, first: InstanceData, second: InstanceData)
    requires name in s
    ensures WithRecord(WithRecord(s, name, first), name, second) == WithRecord(s, name, second)
  {
    assert s[name].instances[name := first][name := second] == s[name].instances[name := second];
  }

  /** Neither a module's definition nor an instance is lost over two steps that each keep them. */
  lemma PreservesTransitive(a: map<string, ModuleData>, b: map<string, ModuleData>, c: map<string, ModuleData>)
    requires Preserves(a, b) && Preserves(b, c)
    requires a.Keys <= b.Keys
    ensures Preserves(a, c)
  {
  }

  /** The hooks `stop` calls on instance record `rec` of module `name`. */
  ghost function StopHooks(name: string, rec: InstanceData, andDestroy: bool): seq<Event>
  {
    (if rec.isStarted && rec.instance.hasOnStop then [OnStopCalled(name)] else [])
    + (if andDestroy && rec.instance.hasOnDestroy then [OnDestroyCalled(name)] else [])
  }

  class Registry {
    /** `_oModulesData`: module name to its record. */
    var modules: map<string, ModuleData>
    /** Every call into the toolbox, a creator or a hook, oldest first. */
    ghost var events: seq<Event>

    ghost predicate Valid()
      reads this
    {
      ValidStore(modules)
    }

    constructor ()
      ensures Valid()
      ensures modules == map[] && events == []
    {
      modules := map[];
      events := [];
    }

    /**
     * `define`: refuses a name already in the store or a creator that is
     * not callable, and otherwise adds a record with no instances.
     */
    method Define(name: string, toolNames: seq<string>, creator: Creator) returns (ok: bool)
      requires Valid()
      modifies this`modules
      ensures Valid()
      ensures ok <==> name !in old(modules) && creator.isFunction
      ensures ok ==> modules == old(modules)[name := ModuleData(creator, toolNames, map[])]
      ensures !ok ==> modules == old(modules)
    {
      if name in modules || !creator.isFunction {
        return false;
      }
      modules := modules[name := ModuleData(creator, toolNames, map[])];
      return true;
    }

    /**
     * `instantiate`: requests the declared tools from the toolbox (last to
     * first), calls the creator with them in declaration order and, in debug
     * mode, exposes them by name; otherwise marks the instance as wrapped.
     * The store itself is not touched.
     */
    method Instantiate(name: string, request: string -> Tool, debug: bool) returns (r: Result<Instance>)
      modifies this`events
      ensures name !in modules ==> r == Err(ModuleNotDefined(name)) && events == old(events)
      ensures name in modules ==>
                && r.Ok?
                && BuiltFrom(r.value, modules[name], request, debug)
                && events == old(events) + Requests(Reversed(modules[name].toolNames))
                                         + [InstanceCreated(name)]
    {
      if name !in modules {
        return Err(ModuleNotDefined(name));
      }
      var m := modules[name];
      var tools, requested := BuildTools(m.toolNames, request);
      events := events + Requests(requested) + [InstanceCreated(name)];
      var c := m.creator;
      var exposed := c.ownTools;
      if debug {
        exposed := ExposeTools(c.ownTools, m.toolNames, tools);
        forall k | 0 <= k < |m.toolNames|
          ensures exposed[m.toolNames[k]] == tools[k]
        {
          ExposedMatchesRequests(exposed, m.toolNames, tools, request, k);
        }
      }
      r := Ok(Instance(c, tools, c.makesOnStart, c.makesOnStop, c.makesOnDestroy, exposed, !debug));
    }

    /**
     * `start`: creates the default instance record on first use, then calls
     * `onStart` once unless the instance is already started.
     */
    method Start(name: string, data: StartData, request: string -> Tool, debug: bool)
      returns (r: Result<bool>)
      requires Valid()
      modifies this
      ensures Valid()
      ensures Preserves(old(modules), modules)
      ensures name !in old(modules) ==>
                r == Err(ModuleNotDefined(name)) && modules == old(modules) && events == old(events)
      // A started record: nothing happens and the answer is still true.
      ensures name in old(modules) && name in old(modules)[name].instances
              && old(modules)[name].instances[name].isStarted ==>
                r == Ok(true) && modules == old(modules) && events == old(events)
      // A stopped record: onStart is called once and the flag is set.
      ensures name in old(modules) && name in old(modules)[name].instances
              && !old(modules)[name].instances[name].isStarted ==>
                var rec := old(modules)[name].instances[name];
                if rec.instance.hasOnStart then
                  && r == Ok(true)
                  && modules == WithRecord(old(modules), name, rec.(isStarted := true))
                  && events == old(events) + [OnStartCalled(name, data)]
                else
                  r == Err(OnStartMissing(name)) && modules == old(modules) && events == old(events)
      // No record yet: exactly one is created, under the module's own name.
      ensures name in old(modules) && name !in old(modules)[name].instances ==>
                var m := old(modules)[name];
                && name in modules && name in modules[name].instances
                && var rec := modules[name].instances[name];
                && modules == WithRecord(old(modules), name, rec)
                && BuiltFrom(rec.instance, m, request, debug)
                && rec.isStarted == rec.instance.hasOnStart
                && r == (if rec.isStarted then Ok(true) else Err(OnStartMissing(name)))
                && events == old(events) + Requests(Reversed(m.toolNames)) + [InstanceCreated(name)]
                                         + (if rec.isStarted then [OnStartCalled(name, data)] else [])
    {
      var found := GetInstance(name, None);
      if found.Err? {
        return Err(found.error);
      }
      var rec: InstanceData;
      if found.value.None? {
        var made := Instantiate(name, request, debug);
        rec := InstanceData(made.value, false);
        var m := modules[name];
        SetRecord(modules, name, rec);
        modules := modules[name := m.(instances := m.instances[name := rec])];
      } else {
        rec := found.value.value;
      }
      ghost var created := modules;
      if !rec.isStarted {
        if !rec.instance.hasOnStart {
          return Err(OnStartMissing(name));
        }
        events := events + [OnStartCalled(name, data)];
        rec := rec.(isStarted := true);
        var m := modules[name];
        SetRecord(modules, name, rec);
        modules := modules[name := m.(instances := m.instances[name := rec])];
        assert WithRecord(created, name, rec) == modules;
        if found.value.None? {
          OverwriteRecord(old(modules), name, created[name].instances[name], rec);
        }
        PreservesTransitive(old(modules), created, modules);
      }
      return Ok(rec.isStarted);
    }

    /**
     * `stop`: without an instance record, answers false and does nothing.
     * Otherwise calls `onStop` on a started instance that has it and clears
     * the flag; with `andDestroy` it then calls `onDestroy` if present and
     * removes the whole module record.
     */
    method Stop(name: string, andDestroy: bool) returns (r: Result<bool>)
      requires Valid()
      modifies this
      ensures Valid()
      ensures Preserves(old(modules), modules)
      ensures name !in old(modules) ==>
                r == Err(ModuleNotDefined(name)) && modules == old(modules) && events == old(events)
      ensures name in old(modules) && name !in old(modules)[name].instances ==>
                r == Ok(false) && modules == old(modules) && events == old(events)
      ensures name in old(modules) && name in old(modules)[name].instances ==>
                var rec := old(modules)[name].instances[name];
                && r == Ok(true)
                && events == old(events) + StopHooks(name, rec, andDestroy)
                && modules == if andDestroy then old(modules) - {name}
                              else WithRecord(old(modules), name, rec.(isStarted := false))
    {
      var found := GetInstance(name, None);
      if found.Err? {
        return Err(found.error);
      }
      if found.value.None? {
        return Ok(false);
      }
      var rec := found.value.value;
      if rec.isStarted {
        if rec.instance.hasOnStop {
          events := events + [OnStopCalled(name)];
        }
        rec := rec.(isStarted := false);
        var m := modules[name];
        SetRecord(modules, name, rec);
        modules := modules[name := m.(instances := m.instances[name := rec])];
      } else {
        KeepRecord(modules, name);
      }
      if andDestroy {
        if rec.instance.hasOnDestroy {
          events := events + [OnDestroyCalled(name)];
        }
        modules := modules - {name};
        assert modules == old(modules) - {name};
        return Ok(true);
      }
      return Ok(!rec.isStarted);
    }

    /** `getModules`: the whole store. */
    function GetModules(): (r: map<string, ModuleData>)
      reads this
      ensures r.Keys == modules.Keys
      ensures forall name :: name in r ==> r[name] == modules[name]
    {
      modules
    }

    /**
     * `getInstance`: the record of instance `instanceName` (by default the
     * module's own name) of module `name`; absent when that instance was
     * never created, a failure when the module is not defined.
     */
    function GetInstance(name: string, instanceName: Option<string>): (r: Result<Option<InstanceData>>)
      reads this
      ensures r.Err? <==> name !in modules
      ensures r.Err? ==> r.error == ModuleNotDefined(name)
      ensures name in modules ==>
                var key := instanceName.GetOr(name);
                && (r == Ok(None) <==> key !in modules[name].instances)
                && (key in modules[name].instances ==> r == Ok(Some(modules[name].instances[key])))
    {
      if name !in modules then
        Err(ModuleNotDefined(name))
      else
        var key := if instanceName.None? then name else instanceName.value;
        if key in modules[name].instances then Ok(Some(modules[name].instances[key])) else Ok(None)
    }
  }
}
