/**
 * The values the TinyCore module registry stores and passes around:
 * creators, instances, the per-instance and per-module records, the
 * failures an operation can end in and the hook calls it makes.
 */
module Values {

  /** A service object handed out by the toolbox; its contents are opaque here. */
  type Tool

  /** The data a caller passes to `start`, forwarded untouched to `onStart`. */
  type StartData

  /**
   * A module's factory. `id` identifies it; `isFunction` is whether the
   * value passed to `define` is callable at all. The remaining fields say
   * what every object this factory creates exposes: which lifecycle hooks it
   * has as methods, and the `__tools__` property it already carries (empty
   * when it has none).
   */
  datatype Creator = Creator(
    id: nat,
    isFunction: bool,
    makesOnStart: bool,
    makesOnStop: bool,
    makesOnDestroy: bool,
    ownTools: map<string, Tool>)

  /**
   * A module instance: the creator that made it, the tools it was given as
   * positional arguments, its hook capabilities, its `__tools__` property
   * and whether its methods were wrapped for fault isolation.
   */
  datatype Instance = Instance(
    creator: Creator,
    args: seq<Tool>,
    hasOnStart: bool,
    hasOnStop: bool,
    hasOnDestroy: bool,
    exposedTools: map<string, Tool>,
    wrapped: bool)

  /** One entry of a module's `oInstances`: `{ oInstance, bIsStarted }`. */
  datatype InstanceData = InstanceData(instance: Instance, isStarted: bool)

  /** One entry of the store: `{ fpCreator, oInstances, aToolsNames }`. */
  datatype ModuleData = ModuleData(
    creator: Creator,
    toolNames: seq<string>,
    instances: map<string, InstanceData>)

  /** Why an operation did not succeed. */
  datatype Fault =
    | ModuleNotDefined(moduleName: string)
    | OnStartMissing(moduleName: string)

  datatype Option<T> = None | Some(value: T) {
    function GetOr(default: T): T {
      match this
      case Some(v) => v
      case None => default
    }
  }

  datatype Result<T> = Ok(value: T) | Err(error: Fault)

  /** The calls the registry makes into code outside it. */
  datatype Event =
    | ToolRequested(tool: string)
    | InstanceCreated(moduleName: string)
    | OnStartCalled(moduleName: string, data: StartData)
    | OnStopCalled(moduleName: string)
    | OnDestroyCalled(moduleName: string)
}
