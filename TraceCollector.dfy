/**
 * `LegacyFlickerTraceCollector`: four trace slots, each of which may be
 * assigned while it is still empty, and a getter that hands out the four
 * traces once they are all present.
 */
module TraceCollector {
  import opened Wrappers
  import opened DeviceStateDumps
  import opened Transitions

  /** `ITracesCollector.Traces`. */
  datatype Traces = Traces(
    wmTrace: seq<TraceEntry>,
    layersTrace: seq<TraceEntry>,
    transitionsTrace: seq<Transition>,
    transactionsTrace: seq<TransactionsTraceEntry>)

  class LegacyFlickerTraceCollector {
    var wmTrace: Option<seq<TraceEntry>>
    var layersTrace: Option<seq<TraceEntry>>
    var transitionsTrace: Option<seq<Transition>>
    var transactionsTrace: Option<seq<TransactionsTraceEntry>>

    /** All four traces start unset. */
    constructor ()
      ensures wmTrace.None? && layersTrace.None? && transitionsTrace.None? && transactionsTrace.None?
    {
      wmTrace := None;
      layersTrace := None;
      transitionsTrace := None;
      transactionsTrace := None;
    }

    /** The `wmTrace` setter: fails once a trace is stored; otherwise stores `value`, which may be null. */
    method SetWmTrace(value: Option<seq<TraceEntry>>) returns (status: Status)
      modifies this
      ensures old(wmTrace).Some? ==> status == Failed("wmTrace already set") && wmTrace == old(wmTrace)
      ensures old(wmTrace).None? ==> status == Ok && wmTrace == value
      ensures layersTrace == old(layersTrace) && transitionsTrace == old(transitionsTrace)
      ensures transactionsTrace == old(transactionsTrace)
    {
      if wmTrace.Some? {
        return Failed("wmTrace already set");
      }
      wmTrace := value;
      status := Ok;
    }

    method SetLayersTrace(value: Option<seq<TraceEntry>>) returns (status: Status)
      modifies this
      ensures old(layersTrace).Some? ==> status == Failed("layersTrace already set") && layersTrace == old(layersTrace)
      ensures old(layersTrace).None? ==> status == Ok && layersTrace == value
      ensures wmTrace == old(wmTrace) && transitionsTrace == old(transitionsTrace)
      ensures transactionsTrace == old(transactionsTrace)
    {
      if layersTrace.Some? {
        return Failed("layersTrace already set");
      }
      layersTrace := value;
      status := Ok;
    }

    method SetTransitionsTrace(value: Option<seq<Transition>>) returns (status: Status)
      modifies this
      ensures old(transitionsTrace).Some? ==> status == Failed("transitionsTrace already set") && transitionsTrace == old(transitionsTrace)
      ensures old(transitionsTrace).None? ==> status == Ok && transitionsTrace == value
      ensures wmTrace == old(wmTrace) && layersTrace == old(layersTrace)
      ensures transactionsTrace == old(transactionsTrace)
    {
      if transitionsTrace.Some? {
        return Failed("transitionsTrace already set");
      }
      transitionsTrace := value;
      status := Ok;
    }

    method SetTransactionsTrace(value: Option<seq<TransactionsTraceEntry>>) returns (status: Status)
      modifies this
      ensures old(transactionsTrace).Some? ==> status == Failed("transactionsTrace already set") && transactionsTrace == old(transactionsTrace)
      ensures old(transactionsTrace).None? ==> status == Ok && transactionsTrace == value
      ensures wmTrace == old(wmTrace) && layersTrace == old(layersTrace)
      ensures transitionsTrace == old(transitionsTrace)
    {
      if transactionsTrace.Some? {
        return Failed("transactionsTrace already set");
      }
      transactionsTrace := value;
      status := Ok;
    }

    /** `start()` and `stop()` do nothing: they may change no state at all. */
    method Start()
    {
    }

    method Stop()
    {
    }

    /** `getCollectedTraces()`: the first unset trace, in declaration order, is reported; otherwise the four stored traces. */
    function GetCollectedTraces(): (r: Result<Traces>)
      reads this
      ensures r.Success? <==> wmTrace.Some? && layersTrace.Some? && transitionsTrace.Some? && transactionsTrace.Some?
      ensures r.Success? ==> r.value == Traces(wmTrace.value, layersTrace.value, transitionsTrace.value, transactionsTrace.value)
      ensures wmTrace.None? ==> r == Failure("wmTrace not set")
      ensures wmTrace.Some? && layersTrace.None? ==> r == Failure("layersTrace not set")
      ensures wmTrace.Some? && layersTrace.Some? && transitionsTrace.None? ==> r == Failure("transitionsTrace not set")
      ensures wmTrace.Some? && layersTrace.Some? && transitionsTrace.Some? && transactionsTrace.None? ==>
        r == Failure("transactionsTrace not set")
    {
      if wmTrace.None? then Failure("wmTrace not set")
      else if layersTrace.None? then Failure("layersTrace not set")
      else if transitionsTrace.None? then Failure("transitionsTrace not set")
      else if transactionsTrace.None? then Failure("transactionsTrace not set")
      else Success(Traces(wmTrace.value, layersTrace.value, transitionsTrace.value, transactionsTrace.value))
    }
  }

  /** A collector filled once hands back exactly what it was given, and refuses a second assignment. */
  method CollectOnce(wm: seq<TraceEntry>, layers: seq<TraceEntry>, transitions: seq<Transition>,
                     transactions: seq<TransactionsTraceEntry>)
  {
    var collector := new LegacyFlickerTraceCollector();
    assert collector.GetCollectedTraces() == Failure("wmTrace not set");
    var status := collector.SetWmTrace(Some(wm));
    status := collector.SetLayersTrace(Some(layers));
    status := collector.SetTransitionsTrace(None);
    assert collector.GetCollectedTraces() == Failure("transitionsTrace not set");
    status := collector.SetTransitionsTrace(Some(transitions));
    assert status == Ok;
    status := collector.SetTransactionsTrace(Some(transactions));
    collector.Start();
    collector.Stop();
    assert collector.GetCollectedTraces() == Success(Traces(wm, layers, transitions, transactions));
    status := collector.SetWmTrace(Some([]));
    assert status == Failed("wmTrace already set");
    assert collector.GetCollectedTraces() == Success(Traces(wm, layers, transitions, transactions));
  }
}
