# NoneBot plugin identity registry, in Dafny

This project models the bookkeeping in `nonebot/plugin/__init__.py` that records
which plugins are loaded and where each sits in the plugin tree:

- the short name of a plugin (the last dot-separated segment of its module name);
- its full path, computed from the chain of plugins currently being loaded and
  from the precedence of plugin managers (their order in `_managers`);
- registration (`_new_plugin`) and rollback (`_revert_plugin`) in the dictionary
  `_plugins`, which holds every plugin under two keys, its short name and its
  full path;
- lookup by key, by module name (a submodule belongs to the plugin of its
  nearest enclosing module), and the queries for loaded and available plugins.

Files:

- `wrappers.dfy` — `Option` and `Result`.
- `module_names.dfy` — `ShortName`, the `rsplit(".", 1)` step (`SplitLast`) and
  the enclosing-module relation walked by the module lookup.
- `model.dfy` — registry keys (`Name(str)` or `Path(tuple)`), the errors raised,
  the `Manager` and `Plugin` classes, and the consistency of the dictionary with
  lemmas showing that registering and deleting keys keep it.
- `resolver.dfy` — `FullPath` and its manager-precedence scan `NestUnder`, with
  lemmas that characterise their result and their failure.
- `registry.dfy` — class `Registry`, holding `plugins` (the dictionary
  `_plugins`) and `managers` (the list `_managers`), with the operations.
- `scenarios.dfy` — a client whose verification walks the two-manager nesting
  scenario (load `weather`, load `alerts` beneath it, revert `alerts`) through
  the contracts.

Plugins and managers are classes: the source compares both by identity (the
plugin dataclass and the manager list lookup use object identity). A plugin's
name, module name, manager and full path never change after construction and
are `const` fields; `subPlugins` is a mutable field. The chain of plugins being
loaded (a context variable in the source) is an explicit `seq<Plugin>` argument;
pushing and popping it is the caller's business. A plugin's parent is the plugin
registered under its full path without the last element (`ParentIn`).
The registry's invariant `PluginModel.Consistent`, which `Registry.Valid()`
wraps, says that each dictionary entry sits under its own short name or its
own full path, that every plugin's full path ends in its short name, and that
every registered plugin is found under its full path.

Every exception of the source is an `Err` of `Result`: `DuplicatePlugin` and
`PluginNotFound` (the two `RuntimeError`s), `ManagerNotRegistered` (the
`ValueError` of `list.index` inside the precedence scan, raised only once the
scan reaches a chain plugin), `FullPathMissing` and `NotASubPlugin` (the
`KeyError`s of `del _plugins[plugin.plugin_fullpath]` and of
`sub_plugins.remove`).

The model follows the code in these points, where one might expect otherwise:

- Registration does not add the new plugin to its parent's `sub_plugins` in
  this file; the plugin constructor in `nonebot/plugin/model.py` does, and that
  file is not part of this model. The scenario client performs that step itself.
- Rollback is not all-or-nothing: the name key is deleted before the full-path
  key is looked up, and both keys are deleted before the plugin is removed
  from its parent's `sub_plugins`. A later failure leaves the earlier deletions
  in place, and `RevertPlugin` says so.
- Rollback deletes whatever sits under the plugin's short name. When a later
  plugin with the same short name has taken over that entry, it is that plugin's
  name entry that disappears. That plugin stays loaded under its full path.
- Rollback does not remove descendants: every other plugin stays reachable by
  its full path.

## Model

| member | source | states |
|---|---|---|
| `ModuleNames.LastDot` | nonebot/plugin/__init__.py:52 | the cut made by `rsplit(".", 1)`: a position holding '.' with no '.' after it, or none when the name has no '.' |
| `ModuleNames.ShortName` | nonebot/plugin/__init__.py:51-52 | the short name is a suffix of the module name without any '.', and is preceded by '.' when it is not the whole name |
| `ModuleNames.ShortNameIsLongest` | nonebot/plugin/__init__.py:51-52 | every dot-free suffix of the module name is at most as long as the short name: it is the longest one |
| `ModuleNames.ShortNameOfJoin` | nonebot/plugin/__init__.py:51-52 | the short name of `pkg + "." + n` is `n` when `n` has no '.' |
| `ModuleNames.SplitLast` | nonebot/plugin/__init__.py:115 | `rsplit(".", 1)` as (head, has_parent): has_parent iff the name has a '.', and then head + "." + short name gives the name back; otherwise head is the name |
| `ModuleNames.EnclosingStep` | nonebot/plugin/__init__.py:112-115 | one loop step: the modules enclosing a name are the name itself plus the modules enclosing its head; with no '.', only the name itself |
| `PluginModel.Plugin.constructor` | nonebot/plugin/__init__.py:75 | a new plugin carries the given short name, module name, manager and full path (which ends in the short name), and has no sub-plugins |
| `PluginModel.Registered` | nonebot/plugin/__init__.py:76-77 | after inserting both keys, the name key and the full-path key give the plugin and every other key keeps its plugin |
| `PluginModel.Unregistered` | nonebot/plugin/__init__.py:84-85 | after deleting both keys, exactly those two keys are gone and every remaining key keeps its plugin |
| `PluginModel.ParentIn` | nonebot/plugin/__init__.py:86-87 | the parent is a registered plugin whose full path is the plugin's full path without its last element, and there is one exactly when some registered plugin has that full path |
| `PluginModel.FullPathsUnique` | nonebot/plugin/__init__.py:73-77 | in a consistent dictionary no two distinct registered plugins share a full path |
| `PluginModel.RegisteredConsistent` | nonebot/plugin/__init__.py:73-77 | registering a plugin under a full path not yet taken keeps the dictionary consistent, even when its name key overwrites another plugin's |
| `PluginModel.UnregisteredConsistent` | nonebot/plugin/__init__.py:84-85 | deleting the name key alone, or both keys, keeps the dictionary consistent |
| `PluginModel.UnregisterKeepsOthers` | nonebot/plugin/__init__.py:84-85 | rollback leaves every plugin with a different full path registered, descendants included |
| `PluginModel.UnregisterKeepsParent` | nonebot/plugin/__init__.py:84-86 | deleting a plugin's own keys does not change which plugin is its parent |
| `PluginModel.UnregisterUndoesRegister` | nonebot/plugin/__init__.py:76-85 | deleting both keys right after inserting them gives back the dictionary without the name key, and exactly the old dictionary when no plugin had that name |
| `PluginModel.ParentIsOneLevelUp` | nonebot/plugin/__init__.py:86 | the parent's full path followed by the plugin's name is the plugin's full path |
| `Resolver.IndexOf` | nonebot/plugin/__init__.py:62 | `_managers.index(m)`: the first position holding `m`; absent (Python raises) exactly when `m` is not in the list |
| `Resolver.ChainNames` | nonebot/plugin/__init__.py:60 | the names of the chain plugins, in chain order |
| `Resolver.NestUnder` | nonebot/plugin/__init__.py:61-65 | the manager scan ends in the short name when it succeeds, and can fail only with the `index` error |
| `Resolver.FullPath` | nonebot/plugin/__init__.py:55-65 | the full path always ends in the short name; with no manager it is the chain names followed by the short name, one longer than the chain |
| `Resolver.NestUnderResult` | nonebot/plugin/__init__.py:61-65 | a successful scan gives `(short name,)` when no chain plugin's manager precedes the given one, and otherwise the innermost such plugin's full path plus the short name |
| `Resolver.NestUnderFails` | nonebot/plugin/__init__.py:61-65 | the scan raises exactly when, going from innermost outward, it meets a chain plugin whose manager or the given manager is not in the list before it meets one that outranks |
| `Resolver.IndexOfAppend` | nonebot/plugin/__init__.py:45 | appending to the manager list keeps every earlier manager's position and puts a new manager last |
| `Resolver.CrossManagerPrecedence` | nonebot/plugin/__init__.py:61-65 | with managers registered in the order first, second: a plugin of second loaded inside a plugin of first nests under it; in the opposite roles it is top-level |
| `PluginRegistry.Registry.constructor` | nonebot/plugin/__init__.py:44-45 | the registry starts with no plugins and no managers |
| `PluginRegistry.Registry.AddManager` | nonebot/plugin/__init__.py:45 | a manager joins the end of the list, earlier managers keep their precedence, and the available keys grow by its advertised plugins |
| `PluginRegistry.Registry.NewPlugin` | nonebot/plugin/__init__.py:68-78 | propagates the full-path error; refuses an already registered full path leaving the dictionary unchanged; otherwise returns a fresh plugin found by its name and its full path, with every other key unchanged |
| `PluginRegistry.Registry.RevertPlugin` | nonebot/plugin/__init__.py:81-87 | refuses a plugin whose name key is missing, unchanged; otherwise deletes the name key, then fails if the full-path key is missing, else deletes it and removes the plugin from its parent's sub-plugins (failing if it is not there); other plugins stay loaded |
| `PluginRegistry.Registry.GetPlugin` | nonebot/plugin/__init__.py:90-99 | a hit exactly when the key is registered; the plugin found has the looked-up name or full path and is the plugin its own full path finds |
| `PluginRegistry.Registry.GetLoadedPlugins` | nonebot/plugin/__init__.py:118-120 | the loaded plugins are exactly the plugins registered under full paths, each once |
| `PluginRegistry.Registry.ModuleNamesLoaded` | nonebot/plugin/__init__.py:110 | the module names of the registered plugins |
| `PluginRegistry.Registry.GetPluginByModuleName` | nonebot/plugin/__init__.py:102-115 | terminates; returns a registered plugin whose module is the longest enclosing module of the query (the query itself first) among registered module names, and None exactly when no enclosing module is registered |
| `PluginRegistry.Registry.AvailableKeys` | nonebot/plugin/__init__.py:125-129 | the keys advertised by some manager in the list |
| `PluginRegistry.Registry.GetAvailablePluginNames` | nonebot/plugin/__init__.py:123-131 | a name is available exactly when some manager advertises it as a name key |
| `PluginRegistry.Registry.GetAvailablePluginFullpaths` | nonebot/plugin/__init__.py:134-142 | a full path is available exactly when some manager advertises it as a path key |
| `PluginRegistry.Registry.AvailableKeysSplit` | nonebot/plugin/__init__.py:123-142 | the two queries together account for every advertised key, each under its own kind |
| `Scenarios.LoadWeather` | nonebot/plugin/__init__.py:55-78 | with managers first, second and an empty chain, `plugins.weather` via first is registered top-level with full path (weather) |
| `Scenarios.LoadAlerts` | nonebot/plugin/__init__.py:61-78 | with managers first, second and `weather` of first loading, `subpkg.alerts` via second gets full path (weather, alerts) and `weather` as parent |
| `Scenarios.RevertAlerts` | nonebot/plugin/__init__.py:81-87 | reverting `alerts` makes its full path unknown, keeps `weather`, and takes `alerts` out of `weather`'s sub-plugins |

## Left out

- Per-task isolation of the load chain (a `ContextVar`): the chain is a parameter, and pushing or popping it is left to the caller.
- Concurrency: the registry is modelled as used by one sequential caller.
- Manager registration and `available_plugins`: both live in the plugin manager, which is not part of this model. `AddManager` stands in for the append to `_managers`, and `availablePlugins` is a plain field.
- The plugin dataclass in `nonebot/plugin/model.py` is not part of this model: its metadata, its matchers, and its adding a new plugin to the parent's `sub_plugins` at construction. `NewPlugin` therefore leaves `sub_plugins` alone, as this file does.
- Module handles (`ModuleType`): opaque references with no behaviour; `NewPlugin` takes no module argument.
- The re-exports at the end of the file (`on_*`, `load_*`, `require`, `CommandGroup`, `MatcherGroup`, `PluginMetadata`, `inherit_supported_adapters`): glue to modules that are not part of this model.
- PluginRegistry.Registry.GetPluginByModuleName: when two registered plugins share a module name, the source's dictionary comprehension keeps the one that comes last in the dictionary's insertion order; the model does not track that order and promises only some registered plugin with that module name.
