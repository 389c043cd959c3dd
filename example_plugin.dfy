/**
 * src/plugins/example_plugin/mod.rs: the example plugin, which owns a
 * configuration and a data handler and may start only once initialised.
 */
module ExamplePlugin {
  import opened Wrappers
  import opened Lifecycle
  import Plugin
  import ExampleConfig
  import ExampleHandler

  const NOT_INITIALIZED: string := "插件未初始化"

  /** The three items `start` processes. */
  const SAMPLE_DATA: seq<string> := ["数据1", "数据2", "数据3"]

  /** The example plugin's metadata: disabled by default, by the Amadeus Team, an example in several files. */
  function Metadata(): (m: Plugin.PluginMetadata)
    ensures m.name == "example_plugin" && m.version == "0.1.0"
    ensures !m.enabledByDefault && m.author == Some("Amadeus Team")
    ensures m.properties == map["category" := "example", "complexity" := "multi-file"]
  {
    var m := Plugin.NewMetadata("example_plugin", "一个示例插件，展示多文件插件结构", "0.1.0");
    Plugin.WithProperty(Plugin.WithProperty(Plugin.Author(Plugin.EnabledByDefault(m, false), "Amadeus Team"),
                                            "category", "example"), "complexity", "multi-file")
  }

  class ExamplePlugin {
    const metadata: Plugin.PluginMetadata
    var config: ExampleConfig.PluginConfig
    const handler: ExampleHandler.DataHandler
    var isInitialized: bool

    /** `ExamplePlugin::new`: default configuration, a fresh handler, not initialised. */
    constructor ()
      ensures metadata == Metadata() && config == ExampleConfig.Default()
      ensures fresh(handler) && handler.processedCount == 0 && !isInitialized
    {
      metadata := Metadata();
      config := ExampleConfig.Default();
      handler := new ExampleHandler.DataHandler();
      isInitialized := false;
    }

    /** `init`: loads the configuration, initialises the handler, and only then marks the plugin initialised. */
    method Init() returns (r: Outcome)
      modifies this, handler
      ensures r.Ok? && isInitialized && handler.processedCount == 0
      ensures config == ExampleConfig.Load(old(config)).0
    {
      var (c, loaded) := ExampleConfig.Load(config);
      config := c;
      if loaded.Err? {
        return loaded;
      }
      r := handler.Init();
      if r.Err? {
        return;
      }
      isInitialized := true;
    }

    /**
     * `start`: refuses when not initialised, changing nothing; otherwise
     * starts the handler and processes the three sample items.
     */
    method Start() returns (r: Outcome)
      modifies handler
      ensures !isInitialized ==> r == Err(NOT_INITIALIZED) && handler.processedCount == old(handler.processedCount)
      ensures isInitialized ==> r.Ok? && handler.processedCount == old(handler.processedCount) + 3
    {
      if !isInitialized {
        return Err(NOT_INITIALIZED);
      }
      r := handler.Start();
      if r.Err? {
        return;
      }
      r := handler.Process(SAMPLE_DATA);
    }

    /** `stop`: cleans the handler up and leaves the plugin uninitialised. */
    method Stop() returns (r: Outcome)
      modifies this, handler
      ensures r.Ok? && !isInitialized && handler.processedCount == 0
      ensures config == old(config)
    {
      r := handler.Cleanup();
      if r.Err? {
        return;
      }
      isInitialized := false;
    }
  }

  /**
   * A fresh plugin refuses to start; once initialised it starts and counts
   * three items, and after a stop it refuses again with its count back at zero.
   */
  method Session() returns (refused: Outcome, counted: nat, stopped: nat, again: Outcome)
    ensures refused == Err(NOT_INITIALIZED) && counted == 3 && stopped == 0 && again == Err(NOT_INITIALIZED)
  {
    var p := new ExamplePlugin();
    refused := p.Start();
    var _ := p.Init();
    var _ := p.Start();
    counted := p.handler.processedCount;
    var _ := p.Stop();
    stopped := p.handler.processedCount;
    again := p.Start();
  }
}
