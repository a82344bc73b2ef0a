/** The entities the plugin registry keeps: the two kinds of registry key, the
    errors its operations raise, plugin managers and plugins, and what the
    registry's dictionary must look like for lookups by name and by full path to
    agree with the plugins they return. */
module PluginModel {
  import opened Wrappers

  /** A key of the registry dictionary and an element of a manager's
      `available_plugins`: a short name (a Python `str`) or a full path (a tuple). */
  datatype Key = Name(name: string) | Path(path: seq<string>)

  /** The exceptions the registry's operations raise. */
  datatype Error =
    | DuplicatePlugin       // RuntimeError: the full path is already registered
    | PluginNotFound        // RuntimeError: the short name is not registered
    | ManagerNotRegistered  // ValueError from `_managers.index`
    | FullPathMissing       // KeyError from deleting the full-path key
    | NotASubPlugin         // KeyError from removing the plugin from its parent's `sub_plugins`

  /** A source of loadable plugins. Only what the registry reads of it is kept:
      the plugins it advertises as available. Its identity is its place in the
      manager list. */
  class Manager {
    var availablePlugins: set<Key>

    constructor (available: set<Key>)
      ensures availablePlugins == available
    {
      availablePlugins := available;
    }
  }

  /** A loaded plugin. Plugins are compared by identity, so two plugins with the
      same fields are still two plugins. */
  class Plugin {
    const name: string
    const moduleName: string
    const manager: Manager
    const fullpath: seq<string>
    var subPlugins: set<Plugin>

    /** A plugin's full path ends with its own short name. */
    predicate WellFormed() {
      |fullpath| > 0 && fullpath[|fullpath| - 1] == name
    }

    constructor (name: string, moduleName: string, manager: Manager, fullpath: seq<string>)
      requires |fullpath| > 0 && fullpath[|fullpath| - 1] == name
      ensures WellFormed()
      ensures this.name == name && this.moduleName == moduleName
      ensures this.manager == manager && this.fullpath == fullpath
      ensures subPlugins == {}
    {
      this.name := name;
      this.moduleName := moduleName;
      this.manager := manager;
      this.fullpath := fullpath;
      subPlugins := {};
    }
  }

  /** The registry dictionary is consistent when each entry sits under a key that
      names it (its short name or its full path) and every registered plugin can
      be found under its full path. */
  ghost predicate Consistent(plugins: map<Key, Plugin>) {
    forall k | k in plugins ::
      && plugins[k].WellFormed()
      && (k.Name? ==> plugins[k].name == k.name)
      && (k.Path? ==> plugins[k].fullpath == k.path)
      && Path(plugins[k].fullpath) in plugins
      && plugins[Path(plugins[k].fullpath)] == plugins[k]
  }

  /** The dictionary after `_plugins[name] = plugin; _plugins[fullpath] = plugin`. */
  function Registered(plugins: map<Key, Plugin>, p: Plugin): (r: map<Key, Plugin>)
    ensures r.Keys == plugins.Keys + {Name(p.name), Path(p.fullpath)}
    ensures r[Name(p.name)] == p && r[Path(p.fullpath)] == p
    ensures forall k | k in plugins && k != Name(p.name) && k != Path(p.fullpath) :: r[k] == plugins[k]
  {
    plugins[Name(p.name) := p][Path(p.fullpath) := p]
  }

  /** The dictionary after `del _plugins[name]; del _plugins[fullpath]`. */
  function Unregistered(plugins: map<Key, Plugin>, p: Plugin): (r: map<Key, Plugin>)
    ensures r.Keys == plugins.Keys - {Name(p.name), Path(p.fullpath)}
    ensures forall k | k in r :: r[k] == plugins[k]
  {
    plugins - {Name(p.name), Path(p.fullpath)}
  }

  /** `parent_plugin`: the plugin registered under the full path one shorter than
      `p`'s, if there is one. */
  function ParentIn(plugins: map<Key, Plugin>, p: Plugin): (r: Option<Plugin>)
    ensures r.Some? ==> |p.fullpath| > 0 && r.value in plugins.Values
    ensures Consistent(plugins) && r.Some? ==> r.value.fullpath == p.fullpath[..|p.fullpath| - 1]
    ensures Consistent(plugins) && |p.fullpath| > 0 ==>
      (r.Some? <==> exists q | q in plugins.Values :: q.fullpath == p.fullpath[..|p.fullpath| - 1])
  {
    if |p.fullpath| > 0 && Path(p.fullpath[..|p.fullpath| - 1]) in plugins then
      Some(plugins[Path(p.fullpath[..|p.fullpath| - 1])])
    else
      None
  }

  /** No two registered plugins share a full path. */
  lemma FullPathsUnique(plugins: map<Key, Plugin>, p: Plugin, q: Plugin)
    requires Consistent(plugins)
    requires p in plugins.Values && q in plugins.Values
    requires p.fullpath == q.fullpath
    ensures p == q
  {
    var kp :| kp in plugins && plugins[kp] == p;
    var kq :| kq in plugins && plugins[kq] == q;
  }

  /** Registering a well-formed plugin under a full path that is not yet taken
      keeps the dictionary consistent, whatever name entry it overwrites. */
  lemma RegisteredConsistent(plugins: map<Key, Plugin>, p: Plugin)
    requires Consistent(plugins) && p.WellFormed()
    requires Path(p.fullpath) !in plugins
    ensures Consistent(Registered(plugins, p))
  {
    var r := Registered(plugins, p);
    forall k | k in r
      ensures Path(r[k].fullpath) in r && r[Path(r[k].fullpath)] == r[k]
    {
      if k != Name(p.name) && k != Path(p.fullpath) {
        var q := plugins[k];
        assert Path(q.fullpath) in plugins;
        assert Path(q.fullpath) != Path(p.fullpath);
      }
    }
  }

  /** Deleting the name key of a well-formed plugin keeps the dictionary
      consistent, and so does deleting its name key and its full-path key. */
  lemma UnregisteredConsistent(plugins: map<Key, Plugin>, p: Plugin)
    requires Consistent(plugins) && p.WellFormed()
    ensures Consistent(plugins - {Name(p.name)})
    ensures Consistent(Unregistered(plugins, p))
  {
    var r := Unregistered(plugins, p);
    forall k | k in r
      ensures Path(r[k].fullpath) in r
    {
      var q := plugins[k];
      assert Path(q.fullpath) in plugins;
    }
  }

  /** Reverting a plugin leaves every plugin with another full path registered
      (reachable by its full path), its descendants included. */
  lemma UnregisterKeepsOthers(plugins: map<Key, Plugin>, p: Plugin, q: Plugin)
    requires Consistent(plugins) && p.WellFormed()
    requires q in plugins.Values && q.fullpath != p.fullpath
    ensures q in (plugins - {Name(p.name)}).Values
    ensures q in Unregistered(plugins, p).Values
  {
    var k :| k in plugins && plugins[k] == q;
    var rest := plugins - {Name(p.name)};
    assert Path(q.fullpath) in rest && rest[Path(q.fullpath)] == q;
    assert Path(q.fullpath) in Unregistered(plugins, p);
  }

  /** Deleting a plugin's own two keys does not change which plugin is its parent. */
  lemma UnregisterKeepsParent(plugins: map<Key, Plugin>, p: Plugin)
    ensures ParentIn(Unregistered(plugins, p), p) == ParentIn(plugins, p)
  {
    if |p.fullpath| > 0 {
      assert p.fullpath[..|p.fullpath| - 1] != p.fullpath;
    }
  }

  /** Removing a plugin right after registering it gives back the dictionary as
      it was, except that a same-named entry it had overwritten is gone too. */
  lemma UnregisterUndoesRegister(plugins: map<Key, Plugin>, p: Plugin)
    requires Path(p.fullpath) !in plugins
    ensures Unregistered(Registered(plugins, p), p) == plugins - {Name(p.name)}
    ensures Name(p.name) !in plugins ==> Unregistered(Registered(plugins, p), p) == plugins
  {
    assert Unregistered(Registered(plugins, p), p).Keys == (plugins - {Name(p.name)}).Keys;
  }

  /** In a consistent dictionary the parent's full path is the plugin's full path
      without its last element, so the plugin sits one level below its parent. */
  lemma ParentIsOneLevelUp(plugins: map<Key, Plugin>, p: Plugin)
    requires Consistent(plugins) && p.WellFormed()
    requires ParentIn(plugins, p).Some?
    ensures ParentIn(plugins, p).value.fullpath + [p.name] == p.fullpath
  {
    var fp := p.fullpath;
    assert fp == fp[..|fp| - 1] + [fp[|fp| - 1]];
  }
}
