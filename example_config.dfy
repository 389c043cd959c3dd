/**
 * src/plugins/example_plugin/config.rs: the example plugin's settings, their
 * defaults, a load that keeps them, and the check that both limits are
 * positive.
 */
module ExampleConfig {
  import opened Wrappers
  import opened Lifecycle

  datatype PluginConfig = PluginConfig(maxWorkers: nat, timeoutSeconds: nat, enableLogging: bool)

  const NO_WORKERS: string := "max_workers 必须大于 0"
  const NO_TIMEOUT: string := "timeout_seconds 必须大于 0"

  /** `PluginConfig::default`: four workers, a thirty-second timeout, logging on; a configuration `validate` accepts. */
  function Default(): (c: PluginConfig)
    ensures c.maxWorkers == 4 && c.timeoutSeconds == 30 && c.enableLogging
    ensures Validate(c).Ok?
  {
    PluginConfig(4, 30, true)
  }

  /** `load`: reads nothing in this version, so the configuration stays as it is and loading succeeds. */
  function Load(c: PluginConfig): (r: (PluginConfig, Outcome))
    ensures r.0 == c && r.1.Ok?
  {
    (c, Ok(Unit))
  }

  /** `validate`: fails exactly when a limit is zero, naming the worker limit first. */
  function Validate(c: PluginConfig): (r: Outcome)
    ensures r.Ok? <==> c.maxWorkers > 0 && c.timeoutSeconds > 0
    ensures c.maxWorkers == 0 ==> r == Err(NO_WORKERS)
    ensures c.maxWorkers > 0 && c.timeoutSeconds == 0 ==> r == Err(NO_TIMEOUT)
  {
    if c.maxWorkers == 0 then Err(NO_WORKERS)
    else if c.timeoutSeconds == 0 then Err(NO_TIMEOUT)
    else Ok(Unit)
  }

  /** Whether logging is on does not affect validation. */
  lemma ValidateIgnoresLogging(c: PluginConfig, logging: bool)
    ensures Validate(c.(enableLogging := logging)) == Validate(c)
  {
  }
}
