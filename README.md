# Flicker and flag-helper core, modelled in Dafny

This project models the sequential, integer-valued core of the Android `platform_testing`
flicker library and its flag-override test helpers, and proves the properties their code
and tests promise.

- **Regions** (`RectAlgebra.dfy`, `Region.dfy`, `RegionScenarios.dfy`) cover integer
  rectangles and the mutable `Region`. `set`, `setEmpty`, `union`, the three forms of `op`
  and the three-argument `op(a, b, kind)` each change the receiver in place and return
  "result is non-empty".
  - The kinds are DIFFERENCE, INTERSECT, UNION, XOR, REVERSE_DIFFERENCE and REPLACE.
  - Point membership is half-open.
  - Every operation is specified pointwise and proved against a rectangle-list algebra.
  - The client methods replay the region test class's sample points.
- **Dump list and tag generation** (`DeviceStateDumps.dfy`, `TagGeneration.dfy`) cover
  `TransitionProcessor`.
  - `createDumpList` is the as-of join of the window-manager and layers traces over the
    sorted union of their timestamps, de-duplicated on the timestamp pair.
  - `generateTags` is the previous/current/next loop over that list. It drives an abstract
    scenario state until the state returns none.
  - `buildTagTrace` turns the tag map into tag states.
- **Transitions** (`Transitions.dfy`) cover the field-wise merge of partial transition
  records (a field present in the argument wins) and the start/finish transaction lookup.
  A direct id match is tried first, then a merged-into match.
- **Split-screen bounds** (`SplitAppBounds.dfy`) cover:
  - the active display;
  - the expected half-screen region, using Kotlin 32-bit `Int` arithmetic and truncating
    division;
  - the primary/secondary flag choice;
  - the per-entry `coversAtMost` check.
- **Trace collector** (`TraceCollector.dfy`): four write-once trace fields and
  `getCollectedTraces`. `start` and `stop` carry no `modifies` clause, so they change
  nothing.
- **FlickerBuilder** (`FlickerBuilder.dfy`) covers the builder's `require` guards, monitor
  replacement, the `usingExistingTraces` mode, `build` and the copy constructor.
  - A failing `require` returns a `Failed` status.
  - Fields already changed before the throw stay changed.
- **Flag helpers** (`FlagNames.dfy`, `FeatureFlags.dfy`, `SetFlagsRule.dfy`) cover:
  - the nullable flag map `FeatureFlagsImpl`, where reading a null or missing flag throws;
  - `MockFlagsRule`;
  - `SetFlagsRule` with its fake feature-flag object. The fake has two default modes and a
    read-only set.

`Wrappers.dfy` holds `Option`, `Result` and `Status`. A thrown exception is a `Failure`
(or `Failed`) carrying its message.

Two behaviours of the code are kept as written:
- `createDumpList` on two empty traces returns an empty list; it does not fail.
- `buildTagTrace` emits the tag states in the map's insertion order, not sorted by
  timestamp.

## Model

| member | source | states |
|---|---|---|
| RectAlgebra.EmptyIffNoPoint | libraries/flicker/utils/test/src/android/tools/datatypes/RegionTest.kt:206-211 | a rectangle such as (0,0,0,0) is empty exactly when it contains no point |
| RectAlgebra.Keep | libraries/flicker/utils/test/src/android/tools/datatypes/RegionTest.kt:221-230 | dropping empty rectangles keeps exactly the same points |
| RectAlgebra.Intersection | libraries/flicker/utils/test/src/android/tools/datatypes/RegionTest.kt:267-298 | a point is in the intersection rectangle iff it is in both |
| RectAlgebra.SubtractRect | libraries/flicker/utils/test/src/android/tools/datatypes/RegionTest.kt:232-265 | the pieces cover exactly the points of a that are not in b |
| RectAlgebra.Minus | libraries/flicker/utils/test/src/android/tools/datatypes/RegionTest.kt:232-265 | list difference covers exactly the points of a not covered by b |
| RectAlgebra.IntersectAll | libraries/flicker/utils/test/src/android/tools/datatypes/RegionTest.kt:267-298 | list intersection covers exactly the points covered by both |
| RectAlgebra.Combine | libraries/flicker/utils/test/src/android/tools/datatypes/RegionTest.kt:232-432 | for every kind, a point is covered iff the kind's boolean combination of receiver and operand membership holds |
| RectAlgebra.BoundsOf | libraries/flicker/utils/test/src/android/tools/datatypes/RegionTest.kt:71-98 | every rectangle lies within the bounds; no rectangles gives the empty rectangle |
| RectAlgebra.BoundsTouch | libraries/flicker/utils/test/src/android/tools/datatypes/RegionTest.kt:71-98 | each edge of the bounds is an edge of some rectangle |
| RectAlgebra.BoundsAreTight | libraries/flicker/utils/test/src/android/tools/datatypes/RegionTest.kt:71-98 | the bounds contain every covered point, and a covered point lies on each of its four edges |
| RectAlgebra.BoundsDependOnlyOnArea | libraries/flicker/utils/test/src/android/tools/datatypes/RegionTest.kt:407-432 | two lists covering the same points have the same bounds |
| RectAlgebra.EdgesWithin | libraries/flicker/utils/test/src/android/tools/datatypes/RegionTest.kt:855-886 | the bounds of one list lie within the bounds of any list covering the same points |
| RectAlgebra.SingleRectIffAreaIsBounds | libraries/flicker/utils/test/src/android/tools/datatypes/RegionTest.kt:101-122 | a list is one rectangle iff it is non-empty and covers exactly its bounds |
| RectAlgebra.AreaIsRect | libraries/flicker/utils/test/src/android/tools/datatypes/RegionTest.kt:101-106 | a list covering exactly a non-empty rectangle is a single rectangle with that rectangle as bounds |
| RectAlgebra.ResultEmptyIffNoPoint | libraries/flicker/utils/test/src/android/tools/datatypes/RegionTest.kt:221-230 | an op's result list is empty iff no point satisfies the op |
| RectAlgebra.EmptyOperandsGiveEmpty | libraries/flicker/utils/test/src/android/tools/datatypes/RegionTest.kt:221-230 | every kind applied to two empty operands gives the empty result |
| RectAlgebra.IntersectDisjointIsEmpty | libraries/flicker/utils/test/src/android/tools/datatypes/RegionTest.kt:295-297 | INTERSECT with a disjoint operand gives the empty result |
| RectAlgebra.ReverseDifferenceInsideIsEmpty | libraries/flicker/utils/test/src/android/tools/datatypes/RegionTest.kt:383-387 | REVERSE_DIFFERENCE with an operand inside the receiver gives the empty result |
| RectAlgebra.EmptyOperandKeepsReceiver | libraries/flicker/utils/test/src/android/tools/datatypes/RegionTest.kt:243-244 | DIFFERENCE, UNION and XOR with an empty operand keep the receiver's points |
| Regions.Region.constructor | libraries/flicker/utils/test/src/android/tools/datatypes/RegionTest.kt:54-69 | a new region holds no rectangle |
| Regions.Region.FromRect | libraries/flicker/utils/test/src/android/tools/datatypes/RegionTest.kt:101-106 | `Region.from(rect)` contains exactly the rectangle's points |
| Regions.Region.FromBounds | libraries/flicker/utils/test/src/android/tools/datatypes/RegionTest.kt:642-648 | `Region.from(l, t, r, b)` contains exactly that rectangle's points |
| Regions.Region.FromRegion | libraries/flicker/utils/test/src/android/tools/datatypes/RegionTest.kt:92-98 | a copied region has the same points and the same bounds |
| Regions.Region.IsEmpty | libraries/flicker/utils/test/src/android/tools/datatypes/RegionTest.kt:197-203 | empty iff no point is contained |
| Regions.Region.Bounds | libraries/flicker/utils/test/src/android/tools/datatypes/RegionTest.kt:71-98 | the empty rectangle for an empty region; otherwise the tight box: it contains every point and a point touches each edge |
| Regions.Region.IsRect | libraries/flicker/utils/test/src/android/tools/datatypes/RegionTest.kt:101-106 | a rect iff non-empty and equal, point for point, to its bounds |
| Regions.Region.IsComplex | libraries/flicker/utils/test/src/android/tools/datatypes/RegionTest.kt:108-122 | complex iff non-empty and some point of its bounds is outside it |
| Regions.Region.SetEmpty | libraries/flicker/utils/test/src/android/tools/datatypes/RegionTest.kt:197-203 | afterwards the region is empty |
| Regions.Region.Set | libraries/flicker/utils/test/src/android/tools/datatypes/RegionTest.kt:71-80 | the region becomes exactly the rectangle; it returns true iff the rectangle is non-empty, and then the region is a rect with those bounds |
| Regions.Region.SetBounds | libraries/flicker/utils/test/src/android/tools/datatypes/RegionTest.kt:82-90 | the same for `set(l, t, r, b)` |
| Regions.Region.SetRegion | libraries/flicker/utils/test/src/android/tools/datatypes/RegionTest.kt:92-98 | the region takes the other's points and bounds; it returns true iff non-empty |
| Regions.Region.Union | libraries/flicker/utils/test/src/android/tools/datatypes/RegionTest.kt:125-163 | the new points are the old points or the rectangle's; it returns true iff non-empty |
| Regions.Region.OpRect | libraries/flicker/utils/test/src/android/tools/datatypes/RegionTest.kt:206-432 | the new points are the kind's pointwise combination of old and operand; the result means non-empty; REPLACE is false iff the operand is empty, else bounds equal the operand |
| Regions.Region.OpBounds | libraries/flicker/utils/test/src/android/tools/datatypes/RegionTest.kt:435-640 | the same for `op(l, t, r, b, kind)` |
| Regions.Region.OpRegion | libraries/flicker/utils/test/src/android/tools/datatypes/RegionTest.kt:642-886 | the same with a region operand; REPLACE takes the operand's bounds |
| Regions.Region.OpRectRegion | libraries/flicker/utils/test/src/android/tools/datatypes/RegionTest.kt:889-1114 | `op(rect, region, kind)` computes rect OP region, whatever the receiver held |
| Regions.Region.OpRegions | libraries/flicker/utils/test/src/android/tools/datatypes/RegionTest.kt:1116-1352 | `op(a, b, kind)` computes a OP b from their old contents, also when the receiver is one of them |
| RegionScenarios.TwoSquaresBounds | libraries/flicker/utils/test/src/android/tools/datatypes/RegionTest.kt:125-163 | any list covering exactly (1,1,2,2) and (3,3,5,5) has bounds (1,1,5,5) |
| DeviceStateDumps.Insert | libraries/flicker/src/com/android/server/wm/traces/common/service/processors/TransitionProcessor.kt:101 | inserting into a strictly increasing list keeps it strictly increasing and adds just that element |
| DeviceStateDumps.SortedDistinct | libraries/flicker/src/com/android/server/wm/traces/common/service/processors/TransitionProcessor.kt:101 | `setOf(...).sorted()` is strictly increasing, with the same elements as its input |
| DeviceStateDumps.SortedSetIsUnique | libraries/flicker/src/com/android/server/wm/traces/common/service/processors/TransitionProcessor.kt:101 | two strictly increasing lists with the same elements are equal, so the sorted set is well defined |
| DeviceStateDumps.LastAtOrBefore | libraries/flicker/src/com/android/server/wm/traces/common/service/processors/TransitionProcessor.kt:106 | the index of the last entry with timestamp at most t, or -1 when there is none |
| DeviceStateDumps.AsOf | libraries/flicker/src/com/android/server/wm/traces/common/service/processors/TransitionProcessor.kt:105-110 | `lastOrNull { ts <= t } ?: first()`; empty traces fail in `first()` |
| DeviceStateDumps.AsOfIsLatestNotAfter | libraries/flicker/src/com/android/server/wm/traces/common/service/processors/TransitionProcessor.kt:105-110 | the chosen entry is in the trace and is not after t unless no entry is; no later entry is at or before t |
| DeviceStateDumps.AsOfIsMonotone | libraries/flicker/src/com/android/server/wm/traces/common/service/processors/TransitionProcessor.kt:105-110 | on a time-sorted trace, a later time never picks an earlier entry |
| DeviceStateDumps.DistinctFrom | libraries/flicker/src/com/android/server/wm/traces/common/service/processors/TransitionProcessor.kt:112 | the result has distinct keys, none already seen, and is a subsequence of the input |
| DeviceStateDumps.DistinctByKey | libraries/flicker/src/com/android/server/wm/traces/common/service/processors/TransitionProcessor.kt:112 | `distinctBy` on the timestamp pair: distinct keys, in order |
| DeviceStateDumps.DistinctByKeyKeepsEveryKey | libraries/flicker/src/com/android/server/wm/traces/common/service/processors/TransitionProcessor.kt:112 | every input key appears in the result |
| DeviceStateDumps.DistinctByKeyKeepsFirst | libraries/flicker/src/com/android/server/wm/traces/common/service/processors/TransitionProcessor.kt:112 | every kept dump is the first input dump with its key |
| DeviceStateDumps.CandidateTimes | libraries/flicker/src/com/android/server/wm/traces/common/service/processors/TransitionProcessor.kt:99-101 | strictly increasing, and t is in it iff some entry of either trace has timestamp t |
| DeviceStateDumps.CreateDumpList | libraries/flicker/src/com/android/server/wm/traces/common/service/processors/TransitionProcessor.kt:95-113 | fails iff exactly one trace is empty; otherwise distinct keys, at most one dump per candidate time, empty iff the traces are |
| DeviceStateDumps.DumpsAreAsOfCandidates | libraries/flicker/src/com/android/server/wm/traces/common/service/processors/TransitionProcessor.kt:103-111 | every dump is the as-of pair of both traces at some candidate time |
| DeviceStateDumps.EveryCandidateIsRepresented | libraries/flicker/src/com/android/server/wm/traces/common/service/processors/TransitionProcessor.kt:103-112 | for every candidate time, a dump with that time's key is in the list |
| DeviceStateDumps.SubsequenceKeepsOrder | libraries/flicker/src/com/android/server/wm/traces/common/service/processors/TransitionProcessor.kt:112 | de-duplicating keeps the relative order of the dumps |
| DeviceStateDumps.DumpsFollowTime | libraries/flicker/src/com/android/server/wm/traces/common/service/processors/TransitionProcessor.kt:101-112 | on time-sorted traces the dumps' wm and layer timestamps never decrease along the list |
| TagGeneration.Drive | libraries/flicker/src/com/android/server/wm/traces/common/service/processors/TransitionProcessor.kt:72-79 | the loop from step k: it fails only with "Current state shouldn't be null", and always fails once past the last dump |
| TagGeneration.Run | libraries/flicker/src/com/android/server/wm/traces/common/service/processors/TransitionProcessor.kt:62-79 | an empty dump list fails at the first `next()`; a first step that stops yields its tag map |
| TagGeneration.NeverStoppingFails | libraries/flicker/src/com/android/server/wm/traces/common/service/processors/TransitionProcessor.kt:72-78 | a state that always continues ends in `requireNotNull(current)` failing |
| TagGeneration.StoppingAtLastDumpSucceeds | libraries/flicker/src/com/android/server/wm/traces/common/service/processors/TransitionProcessor.kt:72-78 | a state that stops whenever it sees no next dump always succeeds |
| TagGeneration.GenerateTags | libraries/flicker/src/com/android/server/wm/traces/common/service/processors/TransitionProcessor.kt:57-82 | the imperative window loop returns the tag trace of `Run` (or its error) |
| TagGeneration.GenerateTagsForTraces | libraries/flicker/src/com/android/server/wm/traces/common/service/processors/TransitionProcessor.kt:57-82 | `generateTags` from the two traces: the dump-list failure when exactly one trace is empty, the first `next()` failure when both are, and otherwise the loop's tag trace over `createDumpList` |
| TagGeneration.FormatNat | libraries/flicker/src/com/android/server/wm/traces/common/service/processors/TransitionProcessor.kt:89 | decimal digits with no leading zero |
| TagGeneration.FormatLong | libraries/flicker/src/com/android/server/wm/traces/common/service/processors/TransitionProcessor.kt:89 | `Long.toString()`: a leading minus exactly for negative values |
| TagGeneration.ParseFormatNat | libraries/flicker/src/com/android/server/wm/traces/common/service/processors/TransitionProcessor.kt:89 | parsing the digits gives back the number |
| TagGeneration.ParseFormatLong | libraries/flicker/src/com/android/server/wm/traces/common/service/processors/TransitionProcessor.kt:89 | parsing the timestamp string gives back the timestamp |
| TagGeneration.FormatLongIsInjective | libraries/flicker/src/com/android/server/wm/traces/common/service/processors/TransitionProcessor.kt:89 | different timestamps give different strings |
| TagGeneration.BuildTagTrace | libraries/flicker/src/com/android/server/wm/traces/common/service/processors/TransitionProcessor.kt:84-92 | one tag state per map entry, in map order; each timestamp string parses back to its key, with that key's tags |
| TagGeneration.TagTraceTimestampsDistinct | libraries/flicker/src/com/android/server/wm/traces/common/service/processors/TransitionProcessor.kt:84-92 | no two tag states share a timestamp string |
| TagGeneration.ToTagTrace | libraries/flicker/src/com/android/server/wm/traces/common/service/processors/TransitionProcessor.kt:81 | success and error carry over; one tag state per map entry |
| Transitions.Prefer | libraries/flicker/test/src/android/tools/common/traces/wm/TransitionTest.kt:70-136 | a field of a merge is present iff either side's is; the argument's value wins when present |
| Transitions.Merge | libraries/flicker/test/src/android/tools/common/traces/wm/TransitionTest.kt:32-136 | merging is field-wise, with the argument preferred; different ids fail |
| Transitions.MergeAll | libraries/flicker/test/src/android/tools/common/traces/wm/TransitionTest.kt:32-68 | successive merges of records with one id succeed and keep that id |
| Transitions.MergeAllAppend | libraries/flicker/test/src/android/tools/common/traces/wm/TransitionTest.kt:32-68 | merging one more record onto a chain is one more merge step |
| Transitions.MergeWmPrecedence | libraries/flicker/test/src/android/tools/common/traces/wm/TransitionTest.kt:70-129 | for create, send, abort and finish times and both transaction ids, the argument's value wins, else the receiver's is kept |
| Transitions.MergeShellPrecedence | libraries/flicker/test/src/android/tools/common/traces/wm/TransitionTest.kt:122-136 | the same for dispatch, merge-request, merge and abort times, handler and mergedInto |
| Transitions.FullRecordOverrides | libraries/flicker/test/src/android/tools/common/traces/wm/TransitionTest.kt:70-136 | merging in a record with every field set gives that record |
| Transitions.DisjointRecordsCommute | libraries/flicker/test/src/android/tools/common/traces/wm/TransitionTest.kt:32-68 | records setting disjoint fields merge to the same result in either order |
| Transitions.MergeIsAssociative | libraries/flicker/test/src/android/tools/common/traces/wm/TransitionTest.kt:32-68 | `t1.merge(t2).merge(t3)` equals `t1.merge(t2.merge(t3))` |
| Transitions.MergeIdentityAndIdempotence | libraries/flicker/test/src/android/tools/common/traces/wm/TransitionTest.kt:32-68 | merging a blank record changes nothing, and merging a record with itself gives itself |
| Transitions.BatchAt | libraries/flicker/test/src/android/tools/common/traces/wm/TransitionTest.kt:161-176 | the first batch whose timestamp is the send time, or none when no batch has it |
| Transitions.FindDirect | libraries/flicker/test/src/android/tools/common/traces/wm/TransitionTest.kt:139-176 | the first transaction of the batch with the target id; none iff no transaction has it |
| Transitions.FindIndirect | libraries/flicker/test/src/android/tools/common/traces/wm/TransitionTest.kt:216-254 | the first transaction whose merged ids contain the target; none iff there is none |
| Transitions.FindTransaction | libraries/flicker/test/src/android/tools/common/traces/wm/TransitionTest.kt:139-254 | in the batch at the send time: the first direct match, else the first merged-into match; none iff the batch holds no match (or there is no batch) |
| Transitions.GetStartTransaction | libraries/flicker/test/src/android/tools/common/traces/wm/TransitionTest.kt:139-254 | none without a send time or start id; otherwise a match present in the batch at the send time is always found, and a direct match wins over a merged-into one |
| Transitions.GetFinishTransaction | libraries/flicker/test/src/android/tools/common/traces/wm/TransitionTest.kt:256-371 | the same on the finish id |
| Transitions.FinishLookupIsStartLookup | libraries/flicker/test/src/android/tools/common/traces/wm/TransitionTest.kt:256-371 | the finish lookup is the start lookup applied to the finish id |
| SplitAppBounds.Wrap32 | libraries/flicker/src/android/tools/common/flicker/assertors/assertions/SplitAppLayerBoundsBecomesVisible.kt:103 | a Kotlin `Int` result: in range, congruent modulo 2^32, the identity in range |
| SplitAppBounds.Half | libraries/flicker/src/android/tools/common/flicker/assertors/assertions/SplitAppLayerBoundsBecomesVisible.kt:103 | `/ 2` truncates toward zero, for negative sums too |
| SplitAppBounds.MidpointBetween | libraries/flicker/src/android/tools/common/flicker/assertors/assertions/SplitAppLayerBoundsBecomesVisible.kt:103 | without overflow, the midpoint of a and b lies between them |
| SplitAppBounds.MidpointWraps | libraries/flicker/src/android/tools/common/flicker/assertors/assertions/SplitAppLayerBoundsBecomesVisible.kt:103 | with overflow, the midpoint of two `Int.MAX_VALUE` edges is -1 |
| SplitAppBounds.ActiveDisplay | libraries/flicker/src/android/tools/common/flicker/assertors/assertions/SplitAppLayerBoundsBecomesVisible.kt:88-90 | the first display that is on and not virtual; the error iff there is none |
| SplitAppBounds.ExpectedBounds | libraries/flicker/src/android/tools/common/flicker/assertors/assertions/SplitAppLayerBoundsBecomesVisible.kt:98-130 | the four expected regions: landscape left or right of the divider's midline, portrait above or below it |
| SplitAppBounds.SnapFlags | libraries/flicker/src/android/tools/common/flicker/assertors/assertions/SplitAppLayerBoundsBecomesVisible.kt:40-49 | both flags false for the primary app, both true for the secondary |
| SplitAppBounds.HalvesTileDisplay | libraries/flicker/src/android/tools/common/flicker/assertors/assertions/SplitAppLayerBoundsBecomesVisible.kt:98-130 | with the divider inside the display, the primary and secondary regions are disjoint and together make up the display |
| SplitAppBounds.ExpectedWithinDisplay | libraries/flicker/src/android/tools/common/flicker/assertors/assertions/SplitAppLayerBoundsBecomesVisible.kt:98-130 | each expected region lies within the display, its split edge on the divider |
| SplitAppBounds.CoversAtMost | libraries/flicker/src/android/tools/common/flicker/assertors/assertions/SplitAppLayerBoundsBecomesVisible.kt:96-97 | holds iff every point of the region is in the expected rectangle |
| SplitAppBounds.CheckEntry | libraries/flicker/src/android/tools/common/flicker/assertors/assertions/SplitAppLayerBoundsBecomesVisible.kt:82-133 | no active display and a missing divider region are errors; it passes iff the app region lies inside the expected region |
| SplitAppBounds.CheckAll | libraries/flicker/src/android/tools/common/flicker/assertors/assertions/SplitAppLayerBoundsBecomesVisible.kt:62 | `forAllEntries`: passes iff every entry passes; otherwise the outcome of the first entry that does not pass |
| SplitAppBounds.Evaluate | libraries/flicker/src/android/tools/common/flicker/assertors/assertions/SplitAppLayerBoundsBecomesVisible.kt:40-62 | passes iff every entry passes with the app's flags |
| TraceCollector.LegacyFlickerTraceCollector.constructor | libraries/flicker/src/com/android/server/wm/flicker/LegacyFlickerTraceCollector.kt:28-46 | all four traces start unset |
| TraceCollector.LegacyFlickerTraceCollector.SetWmTrace | libraries/flicker/src/com/android/server/wm/flicker/LegacyFlickerTraceCollector.kt:28-32 | fails with "wmTrace already set", changing nothing, once set; otherwise stores the value; the other fields are unchanged |
| TraceCollector.LegacyFlickerTraceCollector.SetLayersTrace | libraries/flicker/src/com/android/server/wm/flicker/LegacyFlickerTraceCollector.kt:34-38 | the same for the layers trace |
| TraceCollector.LegacyFlickerTraceCollector.SetTransitionsTrace | libraries/flicker/src/com/android/server/wm/flicker/LegacyFlickerTraceCollector.kt:40-44 | the same for the transitions trace |
| TraceCollector.LegacyFlickerTraceCollector.SetTransactionsTrace | libraries/flicker/src/com/android/server/wm/flicker/LegacyFlickerTraceCollector.kt:46-50 | the same for the transactions trace |
| TraceCollector.LegacyFlickerTraceCollector.GetCollectedTraces | libraries/flicker/src/com/android/server/wm/flicker/LegacyFlickerTraceCollector.kt:60-73 | fails with the first unset field's "not set" message, in the source's order; otherwise returns exactly the four stored traces |
| FlickerBuilders.RemoveKind | libraries/flicker/src/com/android/server/wm/flicker/dsl/FlickerBuilder.kt:154-231 | `removeIf { it is Kind }`: the result holds exactly the monitors not of the kind, as a subsequence of the input (their order kept) and with each one's multiplicity kept; never longer than the input; unchanged when no monitor is of the kind |
| FlickerBuilders.CountKind | libraries/flicker/src/com/android/server/wm/flicker/dsl/FlickerBuilder.kt:154-231 | zero iff the list holds no monitor of the kind |
| FlickerBuilders.RemoveKindIsIdempotent | libraries/flicker/src/com/android/server/wm/flicker/dsl/FlickerBuilder.kt:154-231 | removing a kind twice is removing it once |
| FlickerBuilders.RemoveKindsCommute | libraries/flicker/src/com/android/server/wm/flicker/dsl/FlickerBuilder.kt:154-231 | the order of two `without*` calls does not matter |
| FlickerBuilders.WithTracingLeavesOne | libraries/flicker/src/com/android/server/wm/flicker/dsl/FlickerBuilder.kt:154-231 | after `with*` given a monitor, exactly one monitor of that kind remains, and other monitors are kept |
| FlickerBuilders.DefaultMonitorsHaveOneOfEach | libraries/flicker/src/com/android/server/wm/flicker/dsl/FlickerBuilder.kt:47-60 | the default list holds one monitor of every replaceable kind |
| FlickerBuilders.FlickerBuilder.constructor | libraries/flicker/src/com/android/server/wm/flicker/dsl/FlickerBuilder.kt:47-61 | the defaults: no name, one iteration, no commands, the six default monitors, neither mode set |
| FlickerBuilders.FlickerBuilder.WithMonitors | libraries/flicker/src/com/android/server/wm/flicker/dsl/FlickerBuilder.kt:47-61 | the same with a given monitor list |
| FlickerBuilders.FlickerBuilder.Copy | libraries/flicker/src/com/android/server/wm/flicker/dsl/FlickerBuilder.kt:111-124 | the copy has the same configuration, but never existing-traces mode |
| FlickerBuilders.FlickerBuilder.WithTestName | libraries/flicker/src/com/android/server/wm/flicker/dsl/FlickerBuilder.kt:131-137 | a name containing a space fails and changes nothing; otherwise the name is stored |
| FlickerBuilders.FlickerBuilder.AddMonitor | libraries/flicker/src/com/android/server/wm/flicker/dsl/FlickerBuilder.kt:340-346 | fails in existing-traces mode; otherwise appends the monitor if there is one |
| FlickerBuilders.FlickerBuilder.WithTracing | libraries/flicker/src/com/android/server/wm/flicker/dsl/FlickerBuilder.kt:154-231 | removes the kind, then adds the new monitor; in existing-traces mode the removal stays and the call fails |
| FlickerBuilders.FlickerBuilder.WithoutTracing | libraries/flicker/src/com/android/server/wm/flicker/dsl/FlickerBuilder.kt:142-207 | removes the kind; fails iff in existing-traces mode |
| FlickerBuilders.FlickerBuilder.Repeat | libraries/flicker/src/com/android/server/wm/flicker/dsl/FlickerBuilder.kt:236-245 | succeeds iff n >= 1 and, in existing-traces mode, n == 1, with the source's failure order and messages; it then sets the iterations |
| FlickerBuilders.FlickerBuilder.WithFlickerAsAService | libraries/flicker/src/com/android/server/wm/flicker/dsl/FlickerBuilder.kt:247-249 | sets only the FaaS flag |
| FlickerBuilders.FlickerBuilder.Setup | libraries/flicker/src/com/android/server/wm/flicker/dsl/FlickerBuilder.kt:255-259 | appends to the setup commands only |
| FlickerBuilders.FlickerBuilder.Teardown | libraries/flicker/src/com/android/server/wm/flicker/dsl/FlickerBuilder.kt:261-265 | appends to the teardown commands only |
| FlickerBuilders.FlickerBuilder.Transitions | libraries/flicker/src/com/android/server/wm/flicker/dsl/FlickerBuilder.kt:270-275 | fails in existing-traces mode; otherwise appends the command |
| FlickerBuilders.FlickerBuilder.UsingExistingTraces | libraries/flicker/src/com/android/server/wm/flicker/dsl/FlickerBuilder.kt:287-305 | exactly the four no-trace monitors, no transitions, one iteration, mode set; a second call clears the monitors and fails |
| FlickerBuilders.FlickerBuilder.Build | libraries/flicker/src/com/android/server/wm/flicker/dsl/FlickerBuilder.kt:311-333 | fails iff the test name is empty; otherwise a runner with this builder's output directory, test name, iterations, monitors, setup, teardown and transition commands and FaaS flag |
| FlickerBuilders.FlickerBuilder.CopyBuilder | libraries/flicker/src/com/android/server/wm/flicker/dsl/FlickerBuilder.kt:338 | a fresh builder, so changing it leaves this one alone, with this configuration and not in existing-traces mode |
| FlagNames.LastDot | libraries/flag-helpers/junit/test/src/android/platform/test/flag/junit/MockFlagsRuleTest.java:63-70 | none iff the name has no '.'; otherwise the position of a '.' with none after it |
| FlagNames.PackageOf | libraries/flag-helpers/junit/test/src/android/platform/test/flag/junit/SetFlagsRuleTest.java:93-105 | none iff there is no '.'; otherwise the prefix before the last '.' |
| FlagNames.SimpleName | libraries/flag-helpers/junit/test/src/android/platform/test/flag/junit/SetFlagsRuleTest.java:93-105 | the part after the last '.': it has no '.', and package, '.' and simple name rebuild the original |
| FlagNames.PackageOfQualified | libraries/flag-helpers/junit/test/src/android/platform/test/flag/junit/SetFlagsRuleTest.java:93-105 | a name built from a package and a dot-free simple name splits back into them |
| FlagNames.AcceptedPrefix | libraries/flag-helpers/junit/test/src/android/platform/test/flag/junit/MockFlagsRuleTest.java:48-70 | the names before the first refused one are all accepted, and the next one is refused |
| FlagNames.SetAll | libraries/flag-helpers/junit/test/src/android/platform/test/flag/junit/SetFlagsRuleTest.java:82-91 | every listed name reads the value; other keys keep their values; no other key appears |
| FlagNames.LaterCallWins | libraries/flag-helpers/junit/test/src/android/platform/test/flag/junit/SetFlagsRuleTest.java:61-74 | of two calls naming one flag, the later call's value is read |
| FlagNames.SetAllIsIdempotent | libraries/flag-helpers/junit/test/src/android/platform/test/flag/junit/SetFlagsRuleTest.java:61-74 | repeating the same call changes nothing more |
| MockFlags.Unbox | libraries/flag-helpers/junit/test/src/android/platform/test/flag/junit/FeatureFlagsImpl.java:33-41 | a read succeeds iff the key is present with a non-null value, and returns it; otherwise NullPointerException |
| MockFlags.SetFlagReadsBack | libraries/flag-helpers/junit/test/src/android/platform/test/flag/junit/FeatureFlagsImpl.java:43-45 | after `setFlag(k, v)`, k reads v and every other key reads as before |
| MockFlags.FeatureFlagsImpl.constructor | libraries/flag-helpers/junit/test/src/android/platform/test/flag/junit/FeatureFlagsImpl.java:26-29 | both known keys are present with a null value |
| MockFlags.FeatureFlagsImpl.FlagName3 | libraries/flag-helpers/junit/test/src/android/platform/test/flag/junit/FeatureFlagsImpl.java:32-35 | succeeds iff the stored flagName3 value is present and non-null, and returns it; otherwise NullPointerException |
| MockFlags.FeatureFlagsImpl.FlagName4 | libraries/flag-helpers/junit/test/src/android/platform/test/flag/junit/FeatureFlagsImpl.java:38-41 | the same for flagName4 |
| MockFlags.FeatureFlagsImpl.SetFlag | libraries/flag-helpers/junit/test/src/android/platform/test/flag/junit/FeatureFlagsImpl.java:43-45 | the map with that key set to the value |
| MockFlags.FeatureFlagsImpl.ResetAll | libraries/flag-helpers/junit/test/src/android/platform/test/flag/junit/FeatureFlagsImpl.java:47-49 | the map is empty, so both reads fail |
| MockFlags.MockFlagsRule.constructor | libraries/flag-helpers/junit/test/src/android/platform/test/flag/junit/MockFlagsRuleTest.java:32 | the rule starts on a fresh flag map |
| MockFlags.MockFlagsRule.SetFlags | libraries/flag-helpers/junit/test/src/android/platform/test/flag/junit/MockFlagsRuleTest.java:35-70 | the names up to the first one without a package are set to the value; it fails with FlagSetException iff such a name exists |
| MockFlags.MockFlagsRule.AfterTest | libraries/flag-helpers/junit/test/src/android/platform/test/flag/junit/MockFlagsRuleTest.java:42-46 | every override is gone, so reads fail |
| MockFlags.KnownKeysHavePackage | libraries/flag-helpers/junit/test/src/android/platform/test/flag/junit/MockFlagsRuleTest.java:63-70 | the two qualified keys have a package and differ; the bare "flagName3" has none |
| SetFlags.FakeRead | libraries/flag-helpers/junit/test/src/android/platform/test/flag/junit/SetFlagsRuleTest.java:119-163 | an override if one is set; otherwise the device value under DEVICE_DEFAULT and NullPointerException under NULL_DEFAULT |
| SetFlags.ModesDifferOnlyOnUnsetFlags | libraries/flag-helpers/junit/test/src/android/platform/test/flag/junit/SetFlagsRuleTest.java:119-163 | NULL_DEFAULT fails exactly on unset flags and otherwise agrees with DEVICE_DEFAULT, which never fails |
| SetFlags.FakeFeatureFlagsImpl.constructor | libraries/flag-helpers/junit/test/src/android/platform/test/flag/junit/SetFlagsRuleTest.java:44-51 | no override and no read-only flag, in the given mode |
| SetFlags.FakeFeatureFlagsImpl.Read | libraries/flag-helpers/junit/test/src/android/platform/test/flag/junit/SetFlagsRuleTest.java:108-163 | an override set on this fake is read back; an unset flag reads its device value under DEVICE_DEFAULT and throws NullPointerException under NULL_DEFAULT |
| SetFlags.FakeFeatureFlagsImpl.SetFlag | libraries/flag-helpers/junit/test/src/android/platform/test/flag/junit/SetFlagsRuleTest.java:108-117 | stores the override and keeps the read-only set |
| SetFlags.FakeFeatureFlagsImpl.AddReadOnly | libraries/flag-helpers/junit/test/src/android/platform/test/flag/junit/SetFlagsRuleTest.java:196-198 | adds the name to the read-only set and keeps the overrides |
| SetFlags.FakeFeatureFlagsImpl.ResetAll | libraries/flag-helpers/junit/test/src/android/platform/test/flag/junit/SetFlagsRuleTest.java:76-80 | drops every override |
| SetFlags.SetPrefix | libraries/flag-helpers/junit/test/src/android/platform/test/flag/junit/SetFlagsRuleTest.java:93-105 | the names before the first refused one are all in the test package and not read-only, and the next one is not |
| SetFlags.SetOutcome | libraries/flag-helpers/junit/test/src/android/platform/test/flag/junit/SetFlagsRuleTest.java:93-105 | succeeds iff every name is accepted; FlagSetException iff the first refused name is outside the test package; otherwise an assumption violation |
| SetFlags.SetFlagsRule.constructor | libraries/flag-helpers/junit/test/src/android/platform/test/flag/junit/SetFlagsRuleTest.java:44-51 | a fresh fake in the given mode, not yet installed |
| SetFlags.SetFlagsRule.Read | libraries/flag-helpers/junit/test/src/android/platform/test/flag/junit/SetFlagsRuleTest.java:119-163 | `Flags` reads the fake once it is installed, and the device values before that |
| SetFlags.SetFlagsRule.SetFlags | libraries/flag-helpers/junit/test/src/android/platform/test/flag/junit/SetFlagsRuleTest.java:53-105 | the accepted prefix of the names is set, the fake is installed with the first of them, and the status is `SetOutcome` |
| SetFlags.SetFlagsRule.GetFakeFeatureFlags | libraries/flag-helpers/junit/test/src/android/platform/test/flag/junit/SetFlagsRuleTest.java:165-192 | the rule's one fake for the `FeatureFlags` interface; IllegalArgumentException for any other type |
| SetFlags.SetFlagsRule.AfterTest | libraries/flag-helpers/junit/test/src/android/platform/test/flag/junit/SetFlagsRuleTest.java:76-80 | overrides dropped and fake uninstalled: flagName3 reads false and flagName4 true |
| SetFlags.TestFlagsAreAccepted | libraries/flag-helpers/junit/test/src/android/platform/test/flag/junit/SetFlagsRuleTest.java:53-59 | `FLAG_FLAG_NAME3` and `FLAG_FLAG_NAME4` are accepted unless read-only |

## Left out

- The `Region` implementation and its canonical rectangle decomposition. Its string form
  and the randomized comparison against the native region (RegionTest.kt:1354-1544) are
  also left out. A region is a list of non-empty rectangles with the same points. `isRect`
  and `isComplex` are decided on the points, which is what the canonical form determines.
- `BaseFsmState` and the per-scenario states are not part of this model. A state is any
  value and one `process` call is an abstract step function.
  - The step receives and returns the tag map, because the shared mutable map is written
    through the state.
  - The dumps are pairs of timestamped entries whose content is opaque.
- `Transition.kt` is not part of this model. The merge and lookup rules are those the
  transition tests state.
- Transitions.Merge: failing on different ids is an inference. The tests only merge
  records with one id.
- Transitions.FindTransaction: it looks in the first batch whose timestamp equals the
  send time. The matching across batches is not visible in the tests.
- The `notContains(...).then().isInvisible(...)` prefix of the split-screen assertion
  chain (SplitAppLayerBoundsBecomesVisible.kt:51-55) is left out. So is trace subject
  segmenting. Only the `splitAppLayerBoundsSnapToDivider` step is modelled.
- SplitAppBounds.CheckEntry: the divider error message is a constant. The source embeds
  the matcher's text, and component matching is not modelled.
- `Instrumentation`, `UiDevice`, output paths and the monitor factories are opaque values.
  A `with*Tracing` call receives the monitor its factory returned. Commands are opaque ids.
- FlickerBuilders.FlickerBuilder.Build: setup and teardown commands are one list each.
  The source splits each into test commands and run commands
  (FlickerBuilder.kt:324-327); that split is not modelled, because the commands builder
  is not part of this model. The instrumentation, device, launcher strategy, transition
  runner and window-manager helper that `build()` also passes are left out with the
  device.
- FlickerBuilders.FlickerBuilder.Copy: `toAbsolutePath()` on the output directory is not
  modelled; the path is copied as is.
- `SetFlagsRule` and `MockFlagsRule` are not part of this model. Their behaviour comes
  from their test classes. These points are inferences:
  - names are processed one by one and the first refused name stops the call;
  - the fake is installed by the first successful set;
  - the read-only set survives a reset;
  - flag names within the test package are not checked further.
- Timestamps (`Long` nanoseconds) are unbounded integers. Only the split-screen
  arithmetic on `Int` wraps.
- Logging, JUnit rule plumbing (`apply`, statements, reflection) and the rest of the
  library are not modelled: the simpleperf helper, the FaaS data formatter, the result
  reader, the status-bar assertion and the annotations.
