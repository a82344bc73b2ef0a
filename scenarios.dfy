/** A client of the registry that checks, from the contracts alone, the nesting
    scenario across two managers: `first` is registered before `second`;
    `weather` loads through `first`; while it is loading, `alerts` loads through
    `second` and nests under it; reverting `alerts` removes both of its keys and
    takes it out of `weather`'s sub-plugins. */
module Scenarios {
  import opened Wrappers
  import opened ModuleNames
  import opened PluginModel
  import opened Resolver
  import opened PluginRegistry

  method NestedLoadAndRevert() {
    var reg := new Registry();
    var first := new Manager({});
    var second := new Manager({Name("alerts")});
    reg.AddManager(first);
    reg.AddManager(second);
    assert reg.managers == [first, second];
    assert reg.GetAvailablePluginNames() == {"alerts"} by {
      assert Name("alerts") in reg.managers[1].availablePlugins;
    }
    var weather := LoadWeather(reg, first, second);
    var alerts := LoadAlerts(reg, first, second, weather);
    // The plugin constructor of the plugin model adds a new plugin to its
    // parent's sub-plugins; that constructor is not part of this model.
    weather.subPlugins := weather.subPlugins + {alerts};
    RevertAlerts(reg, weather, alerts);
  }

  method LoadWeather(reg: Registry, first: Manager, second: Manager) returns (weather: Plugin)
    requires reg.Valid() && reg.plugins == map[] && reg.managers == [first, second]
    modifies reg
    ensures reg.Valid() && reg.managers == [first, second] && fresh(weather)
    ensures weather.fullpath == ["weather"] && weather.manager == first && weather.subPlugins == {}
    ensures reg.plugins == Registered(map[], weather)
  {
    ShortNameOfJoin("plugins", "weather");
    assert "plugins" + "." + "weather" == "plugins.weather";
    assert NestUnder("weather", first, [], [first, second]) == Ok(["weather"]);
    var r := reg.NewPlugin("plugins.weather", first, []);
    weather := r.value;
  }

  method LoadAlerts(reg: Registry, first: Manager, second: Manager, weather: Plugin) returns (alerts: Plugin)
    requires reg.Valid() && reg.managers == [first, second] && first != second
    requires weather.manager == first && weather.fullpath == ["weather"]
    requires reg.plugins == Registered(map[], weather)
    modifies reg
    ensures reg.Valid() && fresh(alerts)
    ensures alerts.fullpath == ["weather", "alerts"]
    ensures reg.plugins == Registered(Registered(map[], weather), alerts)
    ensures ParentIn(reg.plugins, alerts) == Some(weather)
  {
    ShortNameOfJoin("subpkg", "alerts");
    assert "subpkg" + "." + "alerts" == "subpkg.alerts";
    assert ShortName("subpkg.alerts") == "alerts";
    CrossManagerPrecedence(first, second, weather, "alerts");
    assert weather.fullpath + ["alerts"] == ["weather", "alerts"];
    assert FullPath("alerts", Some(second), [weather], [first, second]) == Ok(["weather", "alerts"]);
    assert Path(["weather", "alerts"]) !in reg.plugins by {
      assert ["weather", "alerts"] != ["weather"];
    }
    var r := reg.NewPlugin("subpkg.alerts", second, [weather]);
    alerts := r.value;
    assert alerts.fullpath[..1] == ["weather"];
  }

  method RevertAlerts(reg: Registry, weather: Plugin, alerts: Plugin)
    requires reg.Valid() && weather != alerts
    requires alerts.fullpath == ["weather", "alerts"] && alerts.name == "alerts"
    requires weather.fullpath == ["weather"] && weather.name == "weather"
    requires reg.plugins == Registered(Registered(map[], weather), alerts)
    requires alerts in weather.subPlugins
    modifies reg, weather, alerts
    ensures reg.GetPlugin(Path(["weather", "alerts"])) == None
    ensures reg.GetPlugin(Path(["weather"])) == Some(weather)
    ensures alerts !in weather.subPlugins
  {
    assert reg.plugins.Values == {weather, alerts};
    assert alerts.fullpath[..1] == ["weather"];
    assert ParentIn(reg.plugins, alerts) == Some(weather);
    var r := reg.RevertPlugin(alerts);
  }
}
