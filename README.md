# TinyCore module manager in Dafny

This project models the module manager of TinyCore.js
(`src/TinyCore.Module.js`): the registry `_oModulesData`, which maps each
module name to its tool names, its creator and its instances, and the
operations that change it or read it:

- `define` adds a module.
- `instantiate` resolves the module's tools through the toolbox and calls its creator.
- `start` creates the default instance on first use and calls `onStart`.
- `stop` calls `onStop` and, when destroying, `onDestroy`, then removes the module.
- `getModules` and `getInstance` only read.

The model is imperative, as the source is:

- `ModuleManager.Registry` is a class. Its field `modules: map<string, ModuleData>` is the store, and its methods reassign that field.
- A ghost field `events` logs, oldest first, every call into the toolbox, a creator or a hook (`onStart`, `onStop`, `onDestroy`). Calls into `Utils` and `Error.report` are not logged.
- The two `while ( nToolIndex-- )` loops of `instantiate` are the methods `Injection.BuildTools` and `Injection.ExposeTools`. Each has loop invariants and is proved against its specification.

Outside collaborators become values:

- `Toolbox.request` is a function-valued parameter `request: string -> Tool`.
- `TinyCore.debugMode` is a `debug: bool` parameter.
- A creator is a `Values.Creator`. It carries whether it is callable (`Utils.isFunction`) and what the objects it creates expose: which hooks, and an existing `__tools__` property.
- The data `start` forwards to `onStart` is an opaque `StartData`.

An operation on a module that is not in the store ends in
`Err(ModuleNotDefined(name))` and changes nothing. In the source,
`getInstance` reports the error and then reads a property of `undefined`.
`instantiate` reads `oModuleData.aToolsNames` before its own check. Either
way the call throws, and the model treats that as an abort. A missing
`onStart` on an instance ends `start` in `Err(OnStartMissing(name))`. The
instance record created just before stays in the store, not started,
because the source stores it before calling the hook.

Two behaviours of the source are easy to misread:

- The loop at lines 136-140 walks the tool names from the last to the first, so the toolbox is asked in reverse declaration order (`Injection.BuildTools`, `requested == Reversed(names)`). The argument list still ends up in declaration order.
- `stop(name, true)` does not always remove the module. The early return at lines 90-93 comes first: a module that was defined but never started has no instance record, so the call answers false and keeps the module. Only a module with an instance record is destroyed, started or stopped alike.

## Model

| member | source | states |
|---|---|---|
| `ModuleManager.Registry.constructor` | src/TinyCore.Module.js:23 | the store starts empty, with nothing logged |
| `ModuleManager.Registry.Define` | src/TinyCore.Module.js:37-51 | true exactly when the name is new and the creator callable; then the store gains exactly that entry, with the given creator, the given tool names and no instances; otherwise the store is unchanged |
| `ModuleManager.Registry.Instantiate` | src/TinyCore.Module.js:122-166 | undefined module: failure, nothing logged. Otherwise the instance is built by the module's creator, with `args[i] == request(toolNames[i])`. In debug mode `__tools__` maps every declared name to its tool and keeps the creator's other entries. Outside debug mode the instance is wrapped. Logged: the toolbox requests last to first, then the creator call. The store is untouched |
| `ModuleManager.Registry.Start` | src/TinyCore.Module.js:59-78 | undefined: failure, no change. Started: true, no change, no hook. Stopped: one `onStart(data)` call and the flag set. No record: exactly one record created under the module's own name, built as `Instantiate` builds it. Keeps the store well formed, and no existing instance is replaced |
| `ModuleManager.Registry.Stop` | src/TinyCore.Module.js:86-115 | undefined: failure. No record: false, no hook, no change. Otherwise true. Logs `onStop` only for a started instance that has it, then `onDestroy` only when destroying and present. Either removes exactly that module or clears the flag in place |
| `ModuleManager.Registry.GetModules` | src/TinyCore.Module.js:173-176 | exactly the defined modules with their records |
| `ModuleManager.Registry.GetInstance` | src/TinyCore.Module.js:186-199 | failure exactly when the module is undefined. Otherwise the record under the instance name (the module name when omitted), or absent exactly when there is no such record |
| `Injection.BuildTools` | src/TinyCore.Module.js:124-140 | the tool list has one entry per declared name, each the toolbox's answer for that name, in declaration order; the requests are issued in exactly the reverse order |
| `Injection.ReversedAt` | src/TinyCore.Module.js:136-139 | entry `j` of the request order is declared name `n - 1 - j` |
| `Injection.Requests` | src/TinyCore.Module.js:139 | one toolbox-request event per tool name, in the given order |
| `Injection.ExposeTools` | src/TinyCore.Module.js:144-152 | `__tools__` ends with exactly the existing keys plus the declared names. The existing entries for other names are kept. Each declared name holds the tool of its first declaration |
| `Injection.ExposedMatchesRequests` | src/TinyCore.Module.js:136-151 | when every tool is the toolbox's answer for its name, every declared name, repeated ones included, maps to its own position's tool |
| `ModuleManager.SetRecord` | src/TinyCore.Module.js:66-74 | storing a default-instance record made by the module's creator keeps the store well formed, and loses or replaces no instance |
| `Scenarios.StartTwice` | src/TinyCore.Module.js:71-77 | a second `start` gives the first one's answer and changes neither the store nor the log |
| `Scenarios.RestartKeepsInstance` | src/TinyCore.Module.js:61-102 | start, stop, start: the creator runs once, each start calls `onStart` with its own data, `onStop` runs only if present, and the record keeps its first instance |
| `Scenarios.DestroyThenStart` | src/TinyCore.Module.js:104-112 | destroying a module with an instance record answers true and removes just that module; afterwards `start` and `getInstance` fail as not defined |
| `Scenarios.LoggerScenario` | src/TinyCore.Module.js:37-115 | a "logger" with no tools and only `onStart`: define true, start true, the looked-up record is started, stop true, destroy true, a later start fails as not defined; the log holds one creator call and one `onStart` |
| `Findings.GuardDifference` | src/TinyCore.Module.js:39-42 | for every store, name and creator, the source's guard and the guard `Registry.Define` uses disagree exactly when the creator is callable and the name is inherited from `Object.prototype` and not stored |
| `Findings.InheritedNameRefused` | src/TinyCore.Module.js:39-42 | on an empty store the source's guard refuses "toString" with a valid creator |
| `Findings.DefineInheritedName` | src/TinyCore.Module.js:39-50 | the model's `define` accepts "toString" on an empty store and stores exactly that one module |

## Findings

| source | as written | input that shows it | evidently intended | confidence | as-written member | corrected member |
|---|---|---|---|---|---|---|
| src/TinyCore.Module.js:39 | `_oModulesData[sModuleName]` is a property read on a plain object, so names inherited from `Object.prototype` look defined | `define("toString", [], creator)` with a callable creator on an empty registry returns false | only names actually defined are refused | not executed; the inheritance is standard JavaScript property lookup | `Findings.DefineGuardAsWritten`, `Findings.GuardDifference`, `Findings.InheritedNameRefused` | `ModuleManager.Registry.Define`, `Findings.DefineInheritedName` |

## Left out

- Fault-isolation wrapping (`Utils.forEach` with `Utils.tryCatchDecorator`, lines 155-162): it enumerates the object's own properties at run time and catches exceptions. The model only records `wrapped == !debug` on the instance. It leaves out which methods are wrapped, the error messages, and the swallowing of errors thrown by hooks.
- `Error.report`: an outside error sink. The model does not log reports. Every operation on a module that is not defined ends in a failure with no state change. That is what the source ends in too, because the call throws on the missing record.
- `Toolbox.request` is not part of this model. It is the `request` parameter, a total function, so a failing tool lookup is not modelled.
- `Utils.createModuleObject` and `Utils.isFunction` are not part of this model. The creator's callability and what its objects expose are fields of `Creator`.
- The bodies of user hooks and creators: their calls are events in the ghost log. A hook that throws, or one that changes the registry, is not modelled.
- Aliasing: `getModules` returns the live store and `define` keeps the caller's tool-name array by reference. The model works on values, so changes made through those references are not modelled.
- Names inherited from `Object.prototype` in `start`, `stop` and `getInstance`: the registry treats a module name as defined exactly when it is in the map. The as-written `define` guard is modelled in `Findings`.
- ModuleManager.Registry.GetInstance: `oInstances` is also a plain object (line 46), so `getInstance("m", "toString")` on a defined module `m` returns `Object.prototype.toString` (line 198), where the model returns `Ok(None)`. The model treats an instance name as present exactly when it is in the instance map.
- Named instances other than the default: `getInstance` accepts any instance name, but no operation ever creates another one. The invariant `WellFormed` records that.
- The IIFE that publishes the manager as `TinyCore.Module` is module plumbing.
- ModuleManager.Registry.Stop: a creator is assumed to always return an object, so the second test at line 90 (`!oInstanceData.oInstance`) is never true in the model. If `Utils.createModuleObject` returned nothing, the source's `stop` would answer false and `stop(name, true)` would keep the module. For that case the model answers `Ok(true)` and removes the module.
