/** The registry state of `nonebot.plugin`: the dictionary `_plugins`, keyed by
    short name and by full path, and the manager list `_managers`, whose order is
    the managers' precedence; with the operations that register, revert and look
    up plugins. */
module PluginRegistry {
  import opened Wrappers
  import opened ModuleNames
  import opened PluginModel
  import opened Resolver

  class Registry {
    var plugins: map<Key, Plugin>
    var managers: seq<Manager>

    ghost predicate Valid()
      reads this
    {
      Consistent(plugins)
    }

    constructor ()
      ensures Valid() && plugins == map[] && managers == []
    {
      plugins := map[];
      managers := [];
    }

    /** A new manager joins the end of the manager list; earlier managers keep
        their precedence over it. */
    method AddManager(m: Manager)
      requires Valid()
      modifies this
      ensures Valid() && plugins == old(plugins)
      ensures managers == old(managers) + [m]
      ensures forall m' | m' in old(managers) :: IndexOf(managers, m') == IndexOf(old(managers), m')
      ensures m !in old(managers) ==> IndexOf(managers, m) == Some(|old(managers)|)
      ensures AvailableKeys() == old(AvailableKeys()) + m.availablePlugins
    {
      forall m' | m' in managers + [m] ensures m' in managers ==> IndexOf(managers + [m], m') == IndexOf(managers, m') {
        IndexOfAppend(managers, m, m');
      }
      IndexOfAppend(managers, m, m);
      ghost var before := AvailableKeys();
      managers := managers + [m];
      forall k ensures k in AvailableKeys() <==> k in before || k in m.availablePlugins {
        if k in before {
          var i :| 0 <= i < |old(managers)| && k in old(managers)[i].availablePlugins;
          assert managers[i] == old(managers)[i];
        }
        if k in m.availablePlugins {
          assert managers[|managers| - 1] == m;
        }
        if k in AvailableKeys() {
          var i :| 0 <= i < |managers| && k in managers[i].availablePlugins;
          if i < |old(managers)| {
            assert managers[i] == old(managers)[i];
          }
        }
      }
    }

    /** `_new_plugin`: computes the short name and the full path, refuses a full
        path that is already registered, and otherwise registers a new plugin
        under both keys; the name key replaces any plugin of the same short name. */
    method NewPlugin(moduleName: string, manager: Manager, chain: seq<Plugin>) returns (r: Result<Plugin, Error>)
      requires Valid()
      modifies this
      ensures Valid() && managers == old(managers)
      ensures var fp := FullPath(ShortName(moduleName), Some(manager), chain, old(managers));
        && (fp.Err? ==> r == Err(fp.error) && plugins == old(plugins))
        && (fp.Ok? && Path(fp.value) in old(plugins) ==> r == Err(DuplicatePlugin) && plugins == old(plugins))
        && (fp.Ok? && Path(fp.value) !in old(plugins) ==>
              && r.Ok? && fresh(r.value)
              && r.value.name == ShortName(moduleName) && r.value.moduleName == moduleName
              && r.value.manager == manager && r.value.fullpath == fp.value
              && r.value.subPlugins == {}
              && plugins == Registered(old(plugins), r.value))
      ensures r.Ok? ==> GetPlugin(Name(r.value.name)) == Some(r.value)
      ensures r.Ok? ==> GetPlugin(Path(r.value.fullpath)) == Some(r.value)
      ensures r.Ok? ==> forall k | k != Name(r.value.name) && k != Path(r.value.fullpath) :: GetPlugin(k) == old(GetPlugin(k))
    {
      var name := ShortName(moduleName);
      var fp := FullPath(name, Some(manager), chain, managers);
      if fp.Err? {
        return Err(fp.error);
      }
      if Path(fp.value) in plugins {
        return Err(DuplicatePlugin);
      }
      var p := new Plugin(name, moduleName, manager, fp.value);
      RegisteredConsistent(plugins, p);
      plugins := plugins[Name(name) := p];
      plugins := plugins[Path(fp.value) := p];
      r := Ok(p);
    }

    /** `_revert_plugin`: refuses a plugin whose short name is not registered;
        otherwise deletes the name key, then the full-path key, then takes the
        plugin out of its parent's `sub_plugins`. Each later step raises when its
        key or member is missing, and what earlier steps deleted stays deleted.
        Plugins below the reverted one stay registered. */
    method RevertPlugin(p: Plugin) returns (r: Result<(), Error>)
      requires Valid() && p.WellFormed()
      modifies this, plugins.Values
      ensures Valid() && managers == old(managers)
      ensures Name(p.name) !in old(plugins) ==> r == Err(PluginNotFound) && plugins == old(plugins)
      ensures Name(p.name) in old(plugins) && Path(p.fullpath) !in old(plugins) ==>
        r == Err(FullPathMissing) && plugins == old(plugins) - {Name(p.name)}
      ensures Name(p.name) in old(plugins) && Path(p.fullpath) in old(plugins) ==>
        && plugins == Unregistered(old(plugins), p)
        && ParentIn(plugins, p) == old(ParentIn(plugins, p))
        && (ParentIn(plugins, p).None? ==> r == Ok(()))
        && (ParentIn(plugins, p).Some? ==>
              var parent := ParentIn(plugins, p).value;
              if p in old(parent.subPlugins) then
                r == Ok(()) && parent.subPlugins == old(parent.subPlugins) - {p}
              else
                r == Err(NotASubPlugin))
      ensures forall q | q in old(plugins.Values) ::
        q.subPlugins == old(q.subPlugins) || (r == Ok(()) && Some(q) == ParentIn(plugins, p))
      ensures forall q | q in old(GetLoadedPlugins()) && q.fullpath != p.fullpath :: q in GetLoadedPlugins()
    {
      ghost var before := plugins;
      UnregisteredConsistent(plugins, p);
      UnregisterKeepsParent(plugins, p);
      forall q | q in before.Values && q.fullpath != p.fullpath
        ensures q in (before - {Name(p.name)}).Values && q in Unregistered(before, p).Values
      {
        UnregisterKeepsOthers(before, p, q);
      }
      if Name(p.name) !in plugins {
        return Err(PluginNotFound);
      }
      plugins := plugins - {Name(p.name)};
      if Path(p.fullpath) !in plugins {
        return Err(FullPathMissing);
      }
      plugins := plugins - {Path(p.fullpath)};
      assert plugins == Unregistered(before, p);
      var parent := ParentIn(plugins, p);
      if parent.Some? {
        if p !in parent.value.subPlugins {
          return Err(NotASubPlugin);
        }
        parent.value.subPlugins := parent.value.subPlugins - {p};
      }
      r := Ok(());
    }

    /** `get_plugin`: the plugin under a short name or a full path, if any. A
        found plugin carries the name or the full path it was looked up by, and
        is also the plugin registered under its own full path. */
    function GetPlugin(k: Key): (r: Option<Plugin>)
      reads this
      ensures r.Some? <==> k in plugins
      ensures Valid() && r.Some? ==> k.Name? ==> r.value.name == k.name
      ensures Valid() && r.Some? ==> k.Path? ==> r.value.fullpath == k.path
      ensures Valid() && r.Some? ==> Path(r.value.fullpath) in plugins && plugins[Path(r.value.fullpath)] == r.value
    {
      if k in plugins then Some(plugins[k]) else None
    }

    /** `get_loaded_plugins`: each registered plugin once, although it sits under
        two keys; these are exactly the plugins their own full path finds. */
    function GetLoadedPlugins(): (r: set<Plugin>)
      reads this
      ensures Valid() ==> forall p | p in r :: Path(p.fullpath) in plugins && plugins[Path(p.fullpath)] == p
      ensures forall fp | Path(fp) in plugins :: plugins[Path(fp)] in r
    {
      plugins.Values
    }

    /** The module names of the registered plugins: the keys of `loaded` in
        `get_plugin_by_module_name`. */
    function ModuleNamesLoaded(): (r: set<string>)
      reads this
      ensures forall n :: n in r <==> exists p | p in plugins.Values :: p.moduleName == n
    {
      set p | p in plugins.Values :: p.moduleName
    }

    /** `get_plugin_by_module_name`: tries the module name, then each enclosing
        package from the innermost outward, and returns a plugin of the first
        that is a registered plugin's module; None when none is. */
    method GetPluginByModuleName(moduleName: string) returns (r: Option<Plugin>)
      ensures r.Some? ==> r.value in plugins.Values
      ensures r.Some? ==> EnclosingModule(r.value.moduleName, moduleName)
      ensures r.Some? ==> forall q | EnclosingModule(q, moduleName) && |q| > |r.value.moduleName| :: q !in ModuleNamesLoaded()
      ensures r.None? ==> forall q | EnclosingModule(q, moduleName) :: q !in ModuleNamesLoaded()
    {
      var loaded := ModuleNamesLoaded();
      var current := moduleName;
      var hasParent := true;
      while hasParent
        invariant EnclosingModule(current, moduleName)
        invariant forall q | EnclosingModule(q, moduleName) && !EnclosingModule(q, current) :: q !in loaded
        invariant !hasParent ==> forall q | EnclosingModule(q, moduleName) :: q !in loaded
        decreases |current| + (if hasParent then 1 else 0)
      {
        if current in loaded {
          var p :| p in plugins.Values && p.moduleName == current;
          return Some(p);
        }
        var split := SplitLast(current);
        forall q ensures EnclosingModule(q, current) <==> q == current || (split.1 && EnclosingModule(q, split.0)) {
          EnclosingStep(q, current);
        }
        current, hasParent := split.0, split.1;
      }
      return None;
    }

    /** Every plugin key advertised by some manager in the manager list. */
    function AvailableKeys(): (r: set<Key>)
      reads this, managers
      ensures forall k :: k in r <==> exists i | 0 <= i < |managers| :: k in managers[i].availablePlugins
    {
      set i, k | 0 <= i < |managers| && k in managers[i].availablePlugins :: k
    }

    /** `get_available_plugin_names`: the short names some manager advertises. */
    function GetAvailablePluginNames(): (r: set<string>)
      reads this, managers
      ensures forall n :: n in r <==> exists i | 0 <= i < |managers| :: Name(n) in managers[i].availablePlugins
    {
      set k | k in AvailableKeys() && k.Name? :: k.name
    }

    /** `get_available_plugin_fullpaths`: the full paths some manager advertises. */
    function GetAvailablePluginFullpaths(): (r: set<seq<string>>)
      reads this, managers
      ensures forall fp :: fp in r <==> exists i | 0 <= i < |managers| :: Path(fp) in managers[i].availablePlugins
    {
      set k | k in AvailableKeys() && k.Path? :: k.path
    }

    /** Between them the two queries report every advertised key, each under
        exactly its own kind. */
    lemma AvailableKeysSplit()
      ensures AvailableKeys() ==
        (set n | n in GetAvailablePluginNames() :: Name(n)) + (set fp | fp in GetAvailablePluginFullpaths() :: Path(fp))
    {
      var names := GetAvailablePluginNames();
      var paths := GetAvailablePluginFullpaths();
      forall k | k in AvailableKeys()
        ensures k in (set n | n in names :: Name(n)) + (set fp | fp in paths :: Path(fp))
      {
        if k.Name? { assert k.name in names; } else { assert k.path in paths; }
      }
    }
  }
}
