/**
 * src/plugins/example_plugin/handler.rs: the example plugin's data handler,
 * which counts the items it has processed.
 */
module ExampleHandler {
  import opened Wrappers
  import opened Lifecycle

  class DataHandler {
    /** `processed_count`, without the `usize` bound. */
    var processedCount: nat

    /** `DataHandler::new`: nothing processed yet. */
    constructor ()
      ensures processedCount == 0
    {
      processedCount := 0;
    }

    /** `init`: resets the count and succeeds. */
    method Init() returns (r: Outcome)
      modifies this
      ensures r.Ok? && processedCount == 0
    {
      processedCount := 0;
      r := Ok(Unit);
    }

    /** `start`: succeeds and leaves the count alone. */
    method Start() returns (r: Outcome)
      ensures r.Ok?
    {
      r := Ok(Unit);
    }

    /** `process(data)`: one increment per item, so the count grows by the number of items. */
    method Process(data: seq<string>) returns (r: Outcome)
      modifies this
      ensures r.Ok? && processedCount == old(processedCount) + |data|
    {
      for idx := 0 to |data|
        invariant processedCount == old(processedCount) + idx
      {
        processedCount := processedCount + 1;
      }
      r := Ok(Unit);
    }

    /** `cleanup`: resets the count and succeeds. */
    method Cleanup() returns (r: Outcome)
      modifies this
      ensures r.Ok? && processedCount == 0
    {
      processedCount := 0;
      r := Ok(Unit);
    }
  }

  /** Processing two batches counts the items of both. */
  method ProcessTwice(h: DataHandler, a: seq<string>, b: seq<string>)
    modifies h
    ensures h.processedCount == old(h.processedCount) + |a + b|
  {
    var _ := h.Process(a);
    var _ := h.Process(b);
  }
}
