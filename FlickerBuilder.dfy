/**
 * `FlickerBuilder`: the mutable configuration of a flicker test.  Each
 * configuration call changes the builder in place and may throw on a broken
 * `require`; a call that throws leaves the builder as it was at the throw
 * point, which for some calls is part-way through the update.
 */
module FlickerBuilders {
  import opened Wrappers
  import DeviceStateDumps

  /** A test, setup, teardown or transition command; its content is not modelled. */
  datatype Command = Command(id: int)

  /** The trace files `usingExistingTraces` reads from, by path. */
  datatype TraceFiles = TraceFiles(wmTrace: string, layersTrace: string, transactions: string, transitions: string)

  /** The slot of the trace collector a `NoTraceMonitor` fills from a file. */
  datatype TraceSlot = WmSlot | LayersSlot | TransactionsSlot | TransitionsSlot

  /** A trace monitor, with the output directory it writes into. */
  datatype Monitor =
    | WindowManagerTraceMonitor(outputDir: string)
    | LayersTraceMonitor(outputDir: string)
    | TransitionsTraceMonitor(outputDir: string)
    | TransactionsTraceMonitor(outputDir: string)
    | ScreenRecorder(outputDir: string)
    | EventLogMonitor
    | NoTraceMonitor(slot: TraceSlot, file: string)

  /** The monitor classes that `with*Tracing` and `withScreenRecorder` replace. */
  datatype MonitorKind = WindowManagerTracing | LayerTracing | TransitionTracing | TransactionsTracing | ScreenRecording

  predicate IsOfKind(m: Monitor, kind: MonitorKind)
  {
    match kind
    case WindowManagerTracing => m.WindowManagerTraceMonitor?
    case LayerTracing => m.LayersTraceMonitor?
    case TransitionTracing => m.TransitionsTraceMonitor?
    case TransactionsTracing => m.TransactionsTraceMonitor?
    case ScreenRecording => m.ScreenRecorder?
  }

  /** `traceMonitors.removeIf { it is Kind }`. */
  function RemoveKind(monitors: seq<Monitor>, kind: MonitorKind): (r: seq<Monitor>)
    ensures forall m :: m in r <==> m in monitors && !IsOfKind(m, kind)
    ensures |r| <= |monitors|
    ensures (forall i | 0 <= i < |monitors| :: !IsOfKind(monitors[i], kind)) ==> r == monitors
    ensures DeviceStateDumps.Subsequence(r, monitors)
    ensures forall m | !IsOfKind(m, kind) :: multiset(r)[m] == multiset(monitors)[m]
  {
    if monitors == [] then []
    else
      var rest := RemoveKind(monitors[1..], kind);
      assert monitors == [monitors[0]] + monitors[1..];
      assert multiset(monitors) == multiset([monitors[0]]) + multiset(monitors[1..]);
      if IsOfKind(monitors[0], kind) then
        DeviceStateDumps.SubsequenceWeaken(rest, monitors);
        rest
      else
        var r := [monitors[0]] + rest;
        assert r[1..] == rest;
        r
  }

  /** How many monitors of a kind a list holds. */
  function CountKind(monitors: seq<Monitor>, kind: MonitorKind): (n: nat)
    ensures n <= |monitors|
    ensures n == 0 <==> forall i | 0 <= i < |monitors| :: !IsOfKind(monitors[i], kind)
  {
    if monitors == [] then 0
    else (if IsOfKind(monitors[0], kind) then 1 else 0) + CountKind(monitors[1..], kind)
  }

  lemma {:induction false} CountKindAppend(a: seq<Monitor>, b: seq<Monitor>, kind: MonitorKind)
    ensures CountKind(a + b, kind) == CountKind(a, kind) + CountKind(b, kind)
    decreases |a|
  {
    if a == [] {
      assert a + b == b;
    } else {
      assert (a + b)[1..] == a[1..] + b;
      CountKindAppend(a[1..], b, kind);
    }
  }

  /** Removing a kind twice is removing it once. */
  lemma {:induction false} RemoveKindIsIdempotent(monitors: seq<Monitor>, kind: MonitorKind)
    ensures RemoveKind(RemoveKind(monitors, kind), kind) == RemoveKind(monitors, kind)
  {
    var r := RemoveKind(monitors, kind);
    assert forall i | 0 <= i < |r| :: r[i] in r;
  }

  /** The order in which two kinds are removed does not matter. */
  lemma {:induction false} RemoveKindsCommute(monitors: seq<Monitor>, a: MonitorKind, b: MonitorKind)
    ensures RemoveKind(RemoveKind(monitors, a), b) == RemoveKind(RemoveKind(monitors, b), a)
    decreases |monitors|
  {
    if monitors != [] {
      RemoveKindsCommute(monitors[1..], a, b);
    }
  }

  /**
   * After `with*Tracing` given a monitor, the builder holds exactly one monitor
   * of that kind, whatever it held before, and the monitors of other kinds
   * are kept.
   */
  lemma WithTracingLeavesOne(monitors: seq<Monitor>, kind: MonitorKind, m: Monitor)
    requires IsOfKind(m, kind)
    ensures CountKind(RemoveKind(monitors, kind) + [m], kind) == 1
    ensures forall x | x in monitors && !IsOfKind(x, kind) :: x in RemoveKind(monitors, kind) + [m]
  {
    var r := RemoveKind(monitors, kind);
    assert forall i | 0 <= i < |r| :: r[i] in r;
    CountKindAppend(r, [m], kind);
    assert [m][1..] == [];
  }

  /** The default monitor list has one monitor of every kind. */
  lemma DefaultMonitorsHaveOneOfEach(outputDir: string, kind: MonitorKind)
    ensures CountKind(DefaultMonitors(outputDir), kind) == 1
  {
    var d := DefaultMonitors(outputDir);
    assert CountKind(d[5..], kind) == 0;
    assert CountKind(d[4..], kind) == (if kind == ScreenRecording then 1 else 0) by { assert d[4..][1..] == d[5..]; }
    assert CountKind(d[3..], kind) == (if kind in {ScreenRecording, TransactionsTracing} then 1 else 0) by { assert d[3..][1..] == d[4..]; }
    assert CountKind(d[2..], kind) == (if kind in {ScreenRecording, TransactionsTracing, TransitionTracing} then 1 else 0) by { assert d[2..][1..] == d[3..]; }
    assert CountKind(d[1..], kind) == (if kind == WindowManagerTracing then 0 else 1) by { assert d[1..][1..] == d[2..]; }
  }

  /** The monitors the default constructor installs. */
  function DefaultMonitors(outputDir: string): seq<Monitor>
  {
    [ WindowManagerTraceMonitor(outputDir), LayersTraceMonitor(outputDir), TransitionsTraceMonitor(outputDir),
      TransactionsTraceMonitor(outputDir), ScreenRecorder(outputDir), EventLogMonitor ]
  }

  /** The four monitors `usingExistingTraces` installs, in the order it adds them. */
  function ExistingTraceMonitors(files: TraceFiles): seq<Monitor>
  {
    [ NoTraceMonitor(WmSlot, files.wmTrace), NoTraceMonitor(LayersSlot, files.layersTrace),
      NoTraceMonitor(TransactionsSlot, files.transactions), NoTraceMonitor(TransitionsSlot, files.transitions) ]
  }

  /** What `build()` hands to the `Flicker` runner. */
  datatype Flicker = Flicker(
    outputDir: string,
    testName: string,
    iterations: int,
    traceMonitors: seq<Monitor>,
    setupCommands: seq<Command>,
    teardownCommands: seq<Command>,
    transitionCommands: seq<Command>,
    faasEnabled: bool)

  const NameHasSpace := "The test tag can not contain spaces since it is a part of the file name"
  const RepeatWithExistingTraces := "Repetitions are not supported with usingExistingTraces"
  const RepeatTooSmall := "Number of repetitions should be greater or equal to 1"
  const TransitionsAfterExistingTraces := "Can't update transition after calling usingExistingTraces"
  const MonitorAfterExistingTraces := "Can't add monitors after calling usingExistingTraces"
  const NoTestName := "Test name must be provided by calling .withTestName {} on builder"

  class FlickerBuilder {
    var outputDir: string
    var testName: string
    var iterations: int
    var setupCommands: seq<Command>
    var teardownCommands: seq<Command>
    var transitionCommands: seq<Command>
    var traceMonitors: seq<Monitor>
    var faasEnabled: bool
    var usingExistingTraces: bool

    /**
     * At least one iteration; once existing traces are in use there is one
     * iteration, no transition command and no monitor but no-trace monitors.
     */
    ghost predicate Valid()
      reads this
    {
      iterations >= 1 &&
      (usingExistingTraces ==>
        iterations == 1 && transitionCommands == [] &&
        forall i | 0 <= i < |traceMonitors| :: traceMonitors[i].NoTraceMonitor?)
    }

    /** The default constructor. */
    constructor (outputDir: string)
      ensures Valid()
      ensures this.outputDir == outputDir && testName == "" && iterations == 1
      ensures setupCommands == [] && teardownCommands == [] && transitionCommands == []
      ensures traceMonitors == DefaultMonitors(outputDir)
      ensures !faasEnabled && !usingExistingTraces
    {
      this.outputDir := outputDir;
      testName := "";
      iterations := 1;
      setupCommands := [];
      teardownCommands := [];
      transitionCommands := [];
      traceMonitors := DefaultMonitors(outputDir);
      faasEnabled := false;
      usingExistingTraces := false;
    }

    /** The default constructor given an explicit monitor list. */
    constructor WithMonitors(outputDir: string, traceMonitors: seq<Monitor>)
      ensures Valid()
      ensures this.outputDir == outputDir && testName == "" && iterations == 1
      ensures setupCommands == [] && teardownCommands == [] && transitionCommands == []
      ensures this.traceMonitors == traceMonitors
      ensures !faasEnabled && !usingExistingTraces
    {
      this.outputDir := outputDir;
      testName := "";
      iterations := 1;
      setupCommands := [];
      teardownCommands := [];
      transitionCommands := [];
      this.traceMonitors := traceMonitors;
      faasEnabled := false;
      usingExistingTraces := false;
    }

    /** The copy constructor: every list is copied; existing-traces mode is not carried over. */
    constructor Copy(other: FlickerBuilder)
      requires other.Valid()
      ensures Valid()
      ensures outputDir == other.outputDir && testName == other.testName && iterations == other.iterations
      ensures setupCommands == other.setupCommands && teardownCommands == other.teardownCommands
      ensures transitionCommands == other.transitionCommands && traceMonitors == other.traceMonitors
      ensures faasEnabled == other.faasEnabled && !usingExistingTraces
    {
      outputDir := other.outputDir;
      testName := other.testName;
      iterations := other.iterations;
      setupCommands := other.setupCommands;
      teardownCommands := other.teardownCommands;
      transitionCommands := other.transitionCommands;
      traceMonitors := other.traceMonitors;
      faasEnabled := other.faasEnabled;
      usingExistingTraces := false;
    }

    /** `withTestName`: a name with a space is refused; otherwise the last name given wins. */
    method WithTestName(name: string) returns (status: Status)
      requires Valid()
      modifies this
      ensures Valid()
      ensures ' ' in name ==> status == Failed(NameHasSpace) && testName == old(testName)
      ensures ' ' !in name ==> status == Ok && testName == name
      ensures iterations == old(iterations) && traceMonitors == old(traceMonitors)
      ensures transitionCommands == old(transitionCommands) && usingExistingTraces == old(usingExistingTraces)
      ensures setupCommands == old(setupCommands) && teardownCommands == old(teardownCommands)
      ensures faasEnabled == old(faasEnabled) && outputDir == old(outputDir)
    {
      if ' ' in name {
        return Failed(NameHasSpace);
      }
      testName := name;
      status := Ok;
    }

    /** `addMonitor`: refused in existing-traces mode; a null monitor is dropped. */
    method AddMonitor(monitor: Option<Monitor>) returns (status: Status)
      requires Valid()
      modifies this
      ensures Valid()
      ensures old(usingExistingTraces) ==> status == Failed(MonitorAfterExistingTraces) && traceMonitors == old(traceMonitors)
      ensures !old(usingExistingTraces) ==> (status == Ok &&
        traceMonitors == old(traceMonitors) + (if monitor.Some? then [monitor.value] else []))
      ensures testName == old(testName) && iterations == old(iterations)
      ensures transitionCommands == old(transitionCommands) && usingExistingTraces == old(usingExistingTraces)
      ensures setupCommands == old(setupCommands) && teardownCommands == old(teardownCommands)
      ensures faasEnabled == old(faasEnabled) && outputDir == old(outputDir)
    {
      if usingExistingTraces {
        return Failed(MonitorAfterExistingTraces);
      }
      if monitor.Some? {
        traceMonitors := traceMonitors + [monitor.value];
      }
      status := Ok;
    }

    /**
     * `withWindowManagerTracing`, `withLayerTracing`, `withTransitionTracing`,
     * `withTransactionsTracing` and `withScreenRecorder`: every monitor of the
     * kind is removed, then the new one, if any, is added.  In existing-traces
     * mode the removal happens and the addition fails.
     */
    method WithTracing(kind: MonitorKind, monitor: Option<Monitor>) returns (status: Status)
      requires Valid()
      requires monitor.Some? ==> IsOfKind(monitor.value, kind)
      modifies this
      ensures Valid()
      ensures old(usingExistingTraces) ==> (status == Failed(MonitorAfterExistingTraces) &&
        traceMonitors == RemoveKind(old(traceMonitors), kind))
      ensures !old(usingExistingTraces) ==> (status == Ok &&
        traceMonitors == RemoveKind(old(traceMonitors), kind) + (if monitor.Some? then [monitor.value] else []))
      ensures testName == old(testName) && iterations == old(iterations)
      ensures transitionCommands == old(transitionCommands) && usingExistingTraces == old(usingExistingTraces)
      ensures setupCommands == old(setupCommands) && teardownCommands == old(teardownCommands)
      ensures faasEnabled == old(faasEnabled) && outputDir == old(outputDir)
    {
      ghost var before := traceMonitors;
      traceMonitors := RemoveKind(traceMonitors, kind);
      assert forall i | 0 <= i < |traceMonitors| :: traceMonitors[i] in before;
      status := AddMonitor(monitor);
    }

    /** `withoutWindowManagerTracing` and the other `without*` calls: `with*` given no monitor. */
    method WithoutTracing(kind: MonitorKind) returns (status: Status)
      requires Valid()
      modifies this
      ensures Valid()
      ensures traceMonitors == RemoveKind(old(traceMonitors), kind)
      ensures status.Failed? <==> old(usingExistingTraces)
      ensures testName == old(testName) && iterations == old(iterations)
      ensures transitionCommands == old(transitionCommands) && usingExistingTraces == old(usingExistingTraces)
      ensures setupCommands == old(setupCommands) && teardownCommands == old(teardownCommands)
      ensures faasEnabled == old(faasEnabled) && outputDir == old(outputDir)
    {
      status := WithTracing(kind, None);
    }

    /** `repeat`: existing-traces mode allows only 1; any count must be at least 1. */
    method Repeat(count: int) returns (status: Status)
      requires Valid()
      modifies this
      ensures Valid()
      ensures old(usingExistingTraces) && count != 1 ==> status == Failed(RepeatWithExistingTraces)
      ensures !(old(usingExistingTraces) && count != 1) && count < 1 ==> status == Failed(RepeatTooSmall)
      ensures status.Failed? ==> iterations == old(iterations)
      ensures status == Ok <==> count >= 1 && (!old(usingExistingTraces) || count == 1)
      ensures status == Ok ==> iterations == count
      ensures testName == old(testName) && traceMonitors == old(traceMonitors)
      ensures transitionCommands == old(transitionCommands) && usingExistingTraces == old(usingExistingTraces)
      ensures setupCommands == old(setupCommands) && teardownCommands == old(teardownCommands)
      ensures faasEnabled == old(faasEnabled) && outputDir == old(outputDir)
    {
      if usingExistingTraces && count != 1 {
        return Failed(RepeatWithExistingTraces);
      }
      if count < 1 {
        return Failed(RepeatTooSmall);
      }
      iterations := count;
      status := Ok;
    }

    /** `withFlickerAsAService`. */
    method WithFlickerAsAService(enabled: bool)
      requires Valid()
      modifies this
      ensures Valid()
      ensures faasEnabled == enabled
      ensures testName == old(testName) && iterations == old(iterations) && traceMonitors == old(traceMonitors)
      ensures transitionCommands == old(transitionCommands) && usingExistingTraces == old(usingExistingTraces)
      ensures setupCommands == old(setupCommands) && teardownCommands == old(teardownCommands)
      ensures outputDir == old(outputDir)
    {
      faasEnabled := enabled;
    }

    /** `setup { ... }`: the commands are added to the setup commands. */
    method Setup(commands: seq<Command>)
      requires Valid()
      modifies this
      ensures Valid()
      ensures setupCommands == old(setupCommands) + commands
      ensures testName == old(testName) && iterations == old(iterations) && traceMonitors == old(traceMonitors)
      ensures transitionCommands == old(transitionCommands) && usingExistingTraces == old(usingExistingTraces)
      ensures teardownCommands == old(teardownCommands)
      ensures faasEnabled == old(faasEnabled) && outputDir == old(outputDir)
    {
      setupCommands := setupCommands + commands;
    }

    /** `teardown { ... }`. */
    method Teardown(commands: seq<Command>)
      requires Valid()
      modifies this
      ensures Valid()
      ensures teardownCommands == old(teardownCommands) + commands
      ensures testName == old(testName) && iterations == old(iterations) && traceMonitors == old(traceMonitors)
      ensures transitionCommands == old(transitionCommands) && usingExistingTraces == old(usingExistingTraces)
      ensures setupCommands == old(setupCommands)
      ensures faasEnabled == old(faasEnabled) && outputDir == old(outputDir)
    {
      teardownCommands := teardownCommands + commands;
    }

    /** `transitions { ... }`: refused in existing-traces mode. */
    method Transitions(command: Command) returns (status: Status)
      requires Valid()
      modifies this
      ensures Valid()
      ensures old(usingExistingTraces) ==> (status == Failed(TransitionsAfterExistingTraces) &&
        transitionCommands == old(transitionCommands))
      ensures !old(usingExistingTraces) ==> status == Ok && transitionCommands == old(transitionCommands) + [command]
      ensures testName == old(testName) && iterations == old(iterations) && traceMonitors == old(traceMonitors)
      ensures usingExistingTraces == old(usingExistingTraces)
      ensures setupCommands == old(setupCommands) && teardownCommands == old(teardownCommands)
      ensures faasEnabled == old(faasEnabled) && outputDir == old(outputDir)
    {
      if usingExistingTraces {
        return Failed(TransitionsAfterExistingTraces);
      }
      transitionCommands := transitionCommands + [command];
      status := Ok;
    }

    /**
     * `usingExistingTraces`: the monitors are replaced by four no-trace
     * monitors reading the given files, the transitions are dropped and one
     * iteration is set.  A second call clears the monitors and then fails at
     * the first `addMonitor`.
     */
    method UsingExistingTraces(files: TraceFiles) returns (status: Status)
      requires Valid()
      modifies this
      ensures Valid()
      ensures !old(usingExistingTraces) ==> (status == Ok && usingExistingTraces &&
        traceMonitors == ExistingTraceMonitors(files) && transitionCommands == [] && iterations == 1)
      ensures old(usingExistingTraces) ==> (status == Failed(MonitorAfterExistingTraces) && usingExistingTraces &&
        traceMonitors == [] && transitionCommands == old(transitionCommands) && iterations == old(iterations))
      ensures testName == old(testName)
      ensures setupCommands == old(setupCommands) && teardownCommands == old(teardownCommands)
      ensures faasEnabled == old(faasEnabled) && outputDir == old(outputDir)
    {
      traceMonitors := [];
      var monitors := ExistingTraceMonitors(files);
      var i := 0;
      while i < |monitors|
        invariant 0 <= i <= |monitors|
        invariant traceMonitors == monitors[..i]
        invariant testName == old(testName) && iterations == old(iterations) && usingExistingTraces == old(usingExistingTraces)
        invariant transitionCommands == old(transitionCommands)
        invariant setupCommands == old(setupCommands) && teardownCommands == old(teardownCommands)
        invariant faasEnabled == old(faasEnabled) && outputDir == old(outputDir)
        invariant Valid()
        invariant usingExistingTraces ==> i == 0
      {
        status := AddMonitor(Some(monitors[i]));
        if status.Failed? {
          return;
        }
        i := i + 1;
      }
      transitionCommands := [];
      iterations := 1;
      usingExistingTraces := true;
      status := Ok;
    }

    /** `build()`: requires a test name; otherwise a runner with this configuration. */
    function Build(): (r: Result<Flicker>)
      reads this
      ensures r.Failure? <==> testName == ""
      ensures r.Failure? ==> r.error == NoTestName
      ensures r.Success? ==> (r.value.testName == testName && r.value.iterations == iterations &&
        r.value.traceMonitors == traceMonitors && r.value.transitionCommands == transitionCommands)
      ensures r.Success? ==> r.value.setupCommands == setupCommands && r.value.teardownCommands == teardownCommands
      ensures r.Success? ==> r.value.faasEnabled == faasEnabled && r.value.outputDir == outputDir
    {
      if testName == "" then Failure(NoTestName)
      else Success(Flicker(outputDir, testName, iterations, traceMonitors, setupCommands, teardownCommands, transitionCommands, faasEnabled))
    }

    /** `copy { }`: a new builder with this one's configuration and not in existing-traces mode. */
    method CopyBuilder() returns (copy: FlickerBuilder)
      requires Valid()
      ensures fresh(copy) && copy.Valid()
      ensures copy.testName == testName && copy.iterations == iterations && copy.traceMonitors == traceMonitors
      ensures copy.transitionCommands == transitionCommands && !copy.usingExistingTraces
      ensures copy.setupCommands == setupCommands && copy.teardownCommands == teardownCommands
      ensures copy.faasEnabled == faasEnabled && copy.outputDir == outputDir
    {
      copy := new FlickerBuilder.Copy(this);
    }
  }

  /**
   * A client: a test name with a space is refused; after `usingExistingTraces`
   * transitions and repetitions are refused and leave the configuration alone.
   */
  method ExistingTracesClient(outputDir: string, files: TraceFiles)
  {
    var b := new FlickerBuilder(outputDir);
    var status := b.WithTestName("open app");
    assert status == Failed(NameHasSpace) && b.testName == "";
    var built := b.Build();
    assert built == Failure(NoTestName);
    status := b.WithTestName("openApp");
    status := b.Transitions(Command(7));
    assert status == Ok && b.transitionCommands == [Command(7)];
    status := b.UsingExistingTraces(files);
    assert status == Ok && b.transitionCommands == [] && b.traceMonitors == ExistingTraceMonitors(files);
    status := b.Transitions(Command(8));
    assert status == Failed(TransitionsAfterExistingTraces);
    status := b.Repeat(2);
    assert status == Failed(RepeatWithExistingTraces) && b.iterations == 1;
  }

  /**
   * A client: in existing-traces mode a tracing change is refused and the
   * monitors stay the no-trace ones.
   */
  method ExistingTracesTracingClient(outputDir: string, files: TraceFiles)
  {
    var b := new FlickerBuilder(outputDir);
    var status := b.UsingExistingTraces(files);
    assert b.traceMonitors == ExistingTraceMonitors(files);
    status := b.WithTracing(LayerTracing, Some(LayersTraceMonitor(outputDir)));
    assert status == Failed(MonitorAfterExistingTraces);
    assert b.traceMonitors == ExistingTraceMonitors(files);
  }

  /** A client: a copy starts outside existing-traces mode and changing it leaves the original untouched. */
  method ExistingTracesCopyClient(outputDir: string, files: TraceFiles)
  {
    var b := new FlickerBuilder(outputDir);
    var status := b.WithTestName("openApp");
    status := b.UsingExistingTraces(files);
    assert status == Ok && b.iterations == 1;
    var c := b.CopyBuilder();
    status := c.Repeat(3);
    assert status == Ok && c.iterations == 3 && b.iterations == 1;
    var built := b.Build();
    assert built.Success? && built.value.iterations == 1 && built.value.testName == "openApp";
  }
}
