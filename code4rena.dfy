/**
 * src/plugins/code4rena.rs: the Code4rena plugin, whose only state is
 * whether it is running; its main work runs only while it is.
 */
module Code4rena {
  import opened Wrappers
  import opened Lifecycle
  import Plugin

  /** The Code4rena plugin's metadata: enabled by default, by the Amadeus Team, a high-priority security plugin. */
  function Metadata(): (m: Plugin.PluginMetadata)
    ensures m.name == "code4rena" && m.version == "0.1.0"
    ensures m.enabledByDefault && m.author == Some("Amadeus Team")
    ensures m.properties == map["category" := "security", "priority" := "high"]
  {
    var m := Plugin.NewMetadata("code4rena", "Code4rena 漏洞扫描和分析插件", "0.1.0");
    Plugin.WithProperty(Plugin.WithProperty(Plugin.Author(Plugin.EnabledByDefault(m, true), "Amadeus Team"),
                                            "category", "security"), "priority", "high")
  }

  class Code4renaPlugin {
    const metadata: Plugin.PluginMetadata
    var isRunning: bool

    /** `Code4renaPlugin::new` (and `default`): not running. */
    constructor ()
      ensures metadata == Metadata() && !isRunning
    {
      metadata := Metadata();
      isRunning := false;
    }

    /** `init`: succeeds and changes nothing. */
    method Init() returns (r: Outcome)
      ensures r.Ok?
    {
      r := Ok(Unit);
    }

    /** `start`: the plugin is running afterwards. */
    method Start() returns (r: Outcome)
      modifies this
      ensures r.Ok? && isRunning
    {
      isRunning := true;
      r := Ok(Unit);
    }

    /** `run`: succeeds either way and changes nothing; `scanned` says whether the main work ran, which is when the plugin is running. */
    method Run() returns (r: Outcome, scanned: bool)
      ensures r.Ok? && (scanned <==> isRunning)
    {
      if !isRunning {
        return Ok(Unit), false;
      }
      r, scanned := Ok(Unit), true;
    }

    /** `stop`: the plugin is no longer running. */
    method Stop() returns (r: Outcome)
      modifies this
      ensures r.Ok? && !isRunning
    {
      isRunning := false;
      r := Ok(Unit);
    }
  }

  /** The main work runs between a start and a stop, and not before or after. */
  method Session() returns (before: bool, during: bool, after: bool)
    ensures !before && during && !after
  {
    var p := new Code4renaPlugin();
    var _, b := p.Run();
    var _ := p.Start();
    var _, d := p.Run();
    var _ := p.Stop();
    var _, a := p.Run();
    before, during, after := b, d, a;
  }
}
