/**
 * `TransitionProcessor.createDumpList`: the as-of merge of a WindowManager
 * trace and a SurfaceFlinger (layers) trace into one list of device-state
 * dumps, one per distinct timestamp of either trace, keeping only the first
 * dump of each (wm timestamp, layer timestamp) pair.
 */
module DeviceStateDumps {
  import opened Wrappers

  /** A trace entry: its timestamp and an opaque identity for the state it records. */
  datatype TraceEntry = TraceEntry(timestamp: int, state: int)

  /** `DeviceStateDump(wmState, layerState)`: the two entries in effect at one instant. */
  datatype DeviceStateDump = DeviceStateDump(wmState: TraceEntry, layerState: TraceEntry)

  /** The key `distinctBy` compares: the pair of timestamps. */
  function Key(d: DeviceStateDump): (int, int)
  {
    (d.wmState.timestamp, d.layerState.timestamp)
  }

  function Timestamps(trace: seq<TraceEntry>): (r: seq<int>)
    ensures |r| == |trace|
    ensures forall i | 0 <= i < |trace| :: r[i] == trace[i].timestamp
  {
    if trace == [] then [] else [trace[0].timestamp] + Timestamps(trace[1..])
  }

  predicate StrictlyIncreasing(s: seq<int>)
  {
    forall i, j | 0 <= i < j < |s| :: s[i] < s[j]
  }

  /** Timestamps that never decrease along the trace. */
  predicate SortedByTime(trace: seq<TraceEntry>)
  {
    forall i, j | 0 <= i < j < |trace| :: trace[i].timestamp <= trace[j].timestamp
  }

  // ---------------------------------------------------------------------------
  // `setOf(*wmTimestamps, *layersTimestamps).sorted()`
  // ---------------------------------------------------------------------------

  /** Inserts `v` into a strictly increasing list unless it is already there. */
  function Insert(v: int, s: seq<int>): (r: seq<int>)
    requires StrictlyIncreasing(s)
    ensures StrictlyIncreasing(r)
    ensures forall x :: x in r <==> x == v || x in s
  {
    if s == [] then [v]
    else if v < s[0] then [v] + s
    else if v == s[0] then s
    else
      TailOfIncreasing(s);
      var tail := Insert(v, s[1..]);
      assert s == [s[0]] + s[1..];
      var r := [s[0]] + tail;
      assert forall j | 1 <= j < |r| :: r[j] == tail[j - 1] && tail[j - 1] in tail;
      assert StrictlyIncreasing(r);
      r
  }

  /** The distinct values of `xs` in ascending order. */
  function SortedDistinct(xs: seq<int>): (r: seq<int>)
    ensures StrictlyIncreasing(r)
    ensures forall x :: x in r <==> x in xs
  {
    if xs == [] then []
    else
      assert xs == [xs[0]] + xs[1..];
      Insert(xs[0], SortedDistinct(xs[1..]))
  }

  /** The tail of a strictly increasing list: still increasing, and every element but the head. */
  lemma TailOfIncreasing(a: seq<int>)
    requires StrictlyIncreasing(a) && a != []
    ensures StrictlyIncreasing(a[1..])
    ensures forall x | x in a :: a[0] <= x
    ensures forall x :: x in a[1..] <==> x in a && x != a[0]
  {
    forall x ensures x in a[1..] <==> x in a && x != a[0] {
      if x in a[1..] {
        var k :| 0 <= k < |a[1..]| && a[1..][k] == x;
        assert a[k + 1] == x;
      }
      if x in a && x != a[0] {
        var m :| 0 <= m < |a| && a[m] == x;
        assert a[1..][m - 1] == x;
      }
    }
  }

  /** A strictly increasing list is determined by its elements: `SortedDistinct` is the sorted set. */
  lemma {:induction false} SortedSetIsUnique(a: seq<int>, b: seq<int>)
    requires StrictlyIncreasing(a) && StrictlyIncreasing(b)
    requires forall x :: x in a <==> x in b
    ensures a == b
  {
    assert b != [] ==> b[0] in b && b[0] in a;
    if a != [] {
      assert a[0] in a && a[0] in b;
      TailOfIncreasing(a);
      TailOfIncreasing(b);
      assert b[0] in a;
      assert a[0] == b[0];
      SortedSetIsUnique(a[1..], b[1..]);
      assert a == [a[0]] + a[1..];
      assert b == [b[0]] + b[1..];
    }
  }

  // ---------------------------------------------------------------------------
  // `trace.lastOrNull { it.timestamp <= T } ?: trace.first()`
  // ---------------------------------------------------------------------------

  /** The index of the last entry at or before `t`, or -1 when every entry is later. */
  function LastAtOrBefore(trace: seq<TraceEntry>, t: int): (r: int)
    ensures -1 <= r < |trace|
    ensures r >= 0 ==> trace[r].timestamp <= t
    ensures forall j | r < j < |trace| :: trace[j].timestamp > t
  {
    if trace == [] then -1
    else if trace[|trace| - 1].timestamp <= t then |trace| - 1
    else LastAtOrBefore(trace[..|trace| - 1], t)
  }

  /** The entry in effect at `t`: the last one at or before it, otherwise the first entry. */
  function AsOf(trace: seq<TraceEntry>, t: int): (r: Result<TraceEntry>)
    ensures r.Success? <==> trace != []
    ensures r.Success? ==> r.value in trace
  {
    if trace == [] then Failure("List is empty.")
    else
      var i := LastAtOrBefore(trace, t);
      Success(if i >= 0 then trace[i] else trace[0])
  }

  /** `AsOf` picks the latest entry not after `t`, and falls back to the first entry only when all are later. */
  lemma AsOfIsLatestNotAfter(trace: seq<TraceEntry>, t: int)
    requires trace != []
    ensures exists i | 0 <= i < |trace| :: (trace[i] == AsOf(trace, t).value &&
      ((trace[i].timestamp <= t && forall j | i < j < |trace| :: trace[j].timestamp > t) ||
       (i == 0 && forall j | 0 <= j < |trace| :: trace[j].timestamp > t)))
  {
    var i := LastAtOrBefore(trace, t);
    if i < 0 {
      assert trace[0] == AsOf(trace, t).value;
    } else {
      assert trace[i] == AsOf(trace, t).value;
    }
  }

  /** On a trace sorted by time, the entry in effect never moves backwards as `t` grows. */
  lemma AsOfIsMonotone(trace: seq<TraceEntry>, t1: int, t2: int)
    requires trace != [] && SortedByTime(trace) && t1 <= t2
    ensures AsOf(trace, t1).value.timestamp <= AsOf(trace, t2).value.timestamp
  {
    var i1 := LastAtOrBefore(trace, t1);
    var i2 := LastAtOrBefore(trace, t2);
    if i1 >= 0 {
      assert i1 <= i2;
    }
  }

  // ---------------------------------------------------------------------------
  // `.distinctBy { Pair(it.wmState.timestamp, it.layerState.timestamp) }`
  // ---------------------------------------------------------------------------

  predicate KeysDistinct(ds: seq<DeviceStateDump>)
  {
    forall i, j | 0 <= i < j < |ds| :: Key(ds[i]) != Key(ds[j])
  }

  /** `a` is `b` with some elements dropped and the rest kept in order. */
  predicate Subsequence<T(==)>(a: seq<T>, b: seq<T>)
    decreases |b|
  {
    a == [] || (b != [] && (if a[0] == b[0] then Subsequence(a[1..], b[1..]) else Subsequence(a, b[1..])))
  }

  lemma {:induction false} SubsequenceDropHead<T>(a: seq<T>, b: seq<T>)
    requires a != [] && Subsequence(a, b)
    ensures Subsequence(a[1..], b)
    decreases |b|, 1
  {
    if a[0] == b[0] {
      SubsequenceWeaken(a[1..], b);
    } else {
      SubsequenceDropHead(a, b[1..]);
      SubsequenceWeaken(a[1..], b);
    }
  }

  /** Putting one more element in front of `b` keeps `a` a subsequence of it. */
  lemma {:induction false} SubsequenceWeaken<T>(a: seq<T>, b: seq<T>)
    requires b != [] && Subsequence(a, b[1..])
    ensures Subsequence(a, b)
    decreases |b|, 0
  {
    if a != [] && a[0] == b[0] {
      SubsequenceDropHead(a, b[1..]);
    }
  }

  /** A subsequence is no longer than the sequence it is taken from. */
  lemma {:induction false} SubsequenceLength<T>(a: seq<T>, b: seq<T>)
    requires Subsequence(a, b)
    ensures |a| <= |b|
    decreases |b|
  {
    if a != [] {
      if a[0] == b[0] {
        SubsequenceLength(a[1..], b[1..]);
      } else {
        SubsequenceLength(a, b[1..]);
      }
    }
  }

  /** Kotlin's `distinctBy`, with `seen` the keys met so far: keeps the first dump of each key. */
  function DistinctFrom(ds: seq<DeviceStateDump>, seen: set<(int, int)>): (r: seq<DeviceStateDump>)
    ensures KeysDistinct(r)
    ensures Subsequence(r, ds)
    ensures forall i | 0 <= i < |r| :: Key(r[i]) !in seen
  {
    if ds == [] then []
    else if Key(ds[0]) in seen then
      var r := DistinctFrom(ds[1..], seen);
      SubsequenceWeaken(r, ds);
      r
    else
      var rest := DistinctFrom(ds[1..], seen + {Key(ds[0])});
      var r := [ds[0]] + rest;
      assert r[1..] == rest;
      r
  }

  /** Each key of `ds` not seen before is represented in the result. */
  lemma {:induction false} DistinctFromCovers(ds: seq<DeviceStateDump>, seen: set<(int, int)>, i: int)
    requires 0 <= i < |ds| && Key(ds[i]) !in seen
    ensures exists j | 0 <= j < |DistinctFrom(ds, seen)| :: Key(DistinctFrom(ds, seen)[j]) == Key(ds[i])
  {
    var r := DistinctFrom(ds, seen);
    if Key(ds[0]) in seen {
      assert ds[1..][i - 1] == ds[i];
      DistinctFromCovers(ds[1..], seen, i - 1);
    } else if Key(ds[i]) == Key(ds[0]) {
      assert Key(r[0]) == Key(ds[i]);
    } else {
      var rest := DistinctFrom(ds[1..], seen + {Key(ds[0])});
      assert ds[1..][i - 1] == ds[i];
      DistinctFromCovers(ds[1..], seen + {Key(ds[0])}, i - 1);
      var j :| 0 <= j < |rest| && Key(rest[j]) == Key(ds[i]);
      assert Key(r[j + 1]) == Key(ds[i]);
    }
  }

  /** Each dump of the result is the first dump of `ds` with its key. */
  lemma {:induction false} DistinctFromKeepsFirst(ds: seq<DeviceStateDump>, seen: set<(int, int)>, j: int)
    requires 0 <= j < |DistinctFrom(ds, seen)|
    ensures exists i | 0 <= i < |ds| :: ds[i] == DistinctFrom(ds, seen)[j] && FirstWithKey(ds, i)
  {
    var r := DistinctFrom(ds, seen);
    if Key(ds[0]) in seen {
      DistinctFromKeepsFirst(ds[1..], seen, j);
      var i :| 0 <= i < |ds[1..]| && ds[1..][i] == r[j] && FirstWithKey(ds[1..], i);
      assert ds[i + 1] == r[j];
      forall k | 0 <= k < i + 1 ensures Key(ds[k]) != Key(ds[i + 1]) {
        if k > 0 {
          assert Key(ds[1..][k - 1]) != Key(ds[1..][i]);
        }
      }
      assert FirstWithKey(ds, i + 1);
    } else if j == 0 {
      assert ds[0] == r[0] && FirstWithKey(ds, 0);
    } else {
      var rest := DistinctFrom(ds[1..], seen + {Key(ds[0])});
      assert r[j] == rest[j - 1];
      DistinctFromKeepsFirst(ds[1..], seen + {Key(ds[0])}, j - 1);
      var i :| 0 <= i < |ds[1..]| && ds[1..][i] == rest[j - 1] && FirstWithKey(ds[1..], i);
      assert ds[i + 1] == r[j];
      forall k | 0 <= k < i + 1 ensures Key(ds[k]) != Key(ds[i + 1]) {
        if k > 0 {
          assert Key(ds[1..][k - 1]) != Key(ds[1..][i]);
        }
      }
      assert FirstWithKey(ds, i + 1);
    }
  }

  /** No dump before position `i` has the key of `ds[i]`. */
  predicate FirstWithKey(ds: seq<DeviceStateDump>, i: int)
    requires 0 <= i < |ds|
  {
    forall k | 0 <= k < i :: Key(ds[k]) != Key(ds[i])
  }

  function DistinctByKey(ds: seq<DeviceStateDump>): (r: seq<DeviceStateDump>)
    ensures KeysDistinct(r) && Subsequence(r, ds)
  {
    DistinctFrom(ds, {})
  }

  /** `distinctBy` drops no key: every key of the input is the key of some kept dump. */
  lemma DistinctByKeyKeepsEveryKey(ds: seq<DeviceStateDump>, i: int)
    requires 0 <= i < |ds|
    ensures exists j | 0 <= j < |DistinctByKey(ds)| :: Key(DistinctByKey(ds)[j]) == Key(ds[i])
  {
    assert DistinctByKey(ds) == DistinctFrom(ds, {});
    DistinctFromCovers(ds, {}, i);
  }

  /** `distinctBy` keeps first occurrences: every kept dump is the first of its key in the input. */
  lemma DistinctByKeyKeepsFirst(ds: seq<DeviceStateDump>, j: int)
    requires 0 <= j < |DistinctByKey(ds)|
    ensures exists i | 0 <= i < |ds| :: ds[i] == DistinctByKey(ds)[j] && FirstWithKey(ds, i)
  {
    assert DistinctByKey(ds) == DistinctFrom(ds, {});
    DistinctFromKeepsFirst(ds, {}, j);
  }

  // ---------------------------------------------------------------------------
  // createDumpList
  // ---------------------------------------------------------------------------

  /** The candidate timestamps: every timestamp of either trace, once each, ascending. */
  function CandidateTimes(wmTrace: seq<TraceEntry>, layersTrace: seq<TraceEntry>): (r: seq<int>)
    ensures StrictlyIncreasing(r)
    ensures forall t :: t in r <==> (exists i | 0 <= i < |wmTrace| :: wmTrace[i].timestamp == t) ||
                                      (exists i | 0 <= i < |layersTrace| :: layersTrace[i].timestamp == t)
  {
    var all := Timestamps(wmTrace) + Timestamps(layersTrace);
    var r := SortedDistinct(all);
    assert forall t :: t in all <==> (exists i | 0 <= i < |wmTrace| :: wmTrace[i].timestamp == t) ||
                                      (exists i | 0 <= i < |layersTrace| :: layersTrace[i].timestamp == t) by {
      forall t ensures t in all <==> (exists i | 0 <= i < |wmTrace| :: wmTrace[i].timestamp == t) ||
                                      (exists i | 0 <= i < |layersTrace| :: layersTrace[i].timestamp == t) {
        if t in all {
          var k :| 0 <= k < |all| && all[k] == t;
          if k < |wmTrace| {
            assert wmTrace[k].timestamp == t;
          } else {
            assert layersTrace[k - |wmTrace|].timestamp == t;
          }
        }
        if exists i | 0 <= i < |wmTrace| :: wmTrace[i].timestamp == t {
          var i :| 0 <= i < |wmTrace| && wmTrace[i].timestamp == t;
          assert all[i] == t;
        }
        if exists i | 0 <= i < |layersTrace| :: layersTrace[i].timestamp == t {
          var i :| 0 <= i < |layersTrace| && layersTrace[i].timestamp == t;
          assert all[|wmTrace| + i] == t;
        }
      }
    }
    r
  }

  /** The dump for instant `t`; both traces must have an entry. */
  function DumpAt(wmTrace: seq<TraceEntry>, layersTrace: seq<TraceEntry>, t: int): (d: DeviceStateDump)
    requires wmTrace != [] && layersTrace != []
    ensures d.wmState == AsOf(wmTrace, t).value && d.layerState == AsOf(layersTrace, t).value
  {
    DeviceStateDump(AsOf(wmTrace, t).value, AsOf(layersTrace, t).value)
  }

  /** The dump of every candidate timestamp, before duplicates are dropped. */
  function AllDumps(wmTrace: seq<TraceEntry>, layersTrace: seq<TraceEntry>, times: seq<int>): (r: seq<DeviceStateDump>)
    requires wmTrace != [] && layersTrace != []
    ensures |r| == |times|
    ensures forall i | 0 <= i < |times| :: r[i] == DumpAt(wmTrace, layersTrace, times[i])
  {
    if times == [] then []
    else [DumpAt(wmTrace, layersTrace, times[0])] + AllDumps(wmTrace, layersTrace, times[1..])
  }

  /**
   * `createDumpList`.  Fails, as `first()` does, when one trace is empty and the
   * other is not; two empty traces give no timestamps and so an empty list.
   */
  function CreateDumpList(wmTrace: seq<TraceEntry>, layersTrace: seq<TraceEntry>): (r: Result<seq<DeviceStateDump>>)
    ensures r.Failure? <==> (wmTrace == []) != (layersTrace == [])
    ensures wmTrace == [] && layersTrace == [] ==> r == Success([])
    ensures r.Success? ==> KeysDistinct(r.value)
    ensures r.Success? ==> (r.value == [] <==> wmTrace == [])
    ensures r.Success? ==> |r.value| <= |CandidateTimes(wmTrace, layersTrace)|
  {
    if wmTrace == [] && layersTrace == [] then Success([])
    else if wmTrace == [] || layersTrace == [] then Failure("List is empty.")
    else
      var times := CandidateTimes(wmTrace, layersTrace);
      assert times != [] by {
        assert wmTrace[0].timestamp in times;
      }
      var all := AllDumps(wmTrace, layersTrace, times);
      var r := DistinctByKey(all);
      SubsequenceLength(r, all);
      assert r != [] by {
        DistinctByKeyKeepsEveryKey(all, 0);
      }
      Success(r)
  }

  /** Every dump of the list is the as-of dump of a candidate timestamp, the first one with its key. */
  lemma DumpsAreAsOfCandidates(wmTrace: seq<TraceEntry>, layersTrace: seq<TraceEntry>)
    requires wmTrace != [] && layersTrace != []
    ensures var times := CandidateTimes(wmTrace, layersTrace);
      forall d | d in CreateDumpList(wmTrace, layersTrace).value ::
        exists i | 0 <= i < |times| :: (d == DumpAt(wmTrace, layersTrace, times[i]) &&
          forall k | 0 <= k < i :: Key(DumpAt(wmTrace, layersTrace, times[k])) != Key(d))
  {
    var times := CandidateTimes(wmTrace, layersTrace);
    assert times != [] by {
      assert wmTrace[0].timestamp in times;
    }
    var all := AllDumps(wmTrace, layersTrace, times);
    var r := DistinctByKey(all);
    assert CreateDumpList(wmTrace, layersTrace).value == r;
    forall d | d in r
      ensures exists i | 0 <= i < |times| :: (d == DumpAt(wmTrace, layersTrace, times[i]) &&
        forall k | 0 <= k < i :: Key(DumpAt(wmTrace, layersTrace, times[k])) != Key(d))
    {
      var j :| 0 <= j < |r| && r[j] == d;
      DistinctByKeyKeepsFirst(all, j);
      var i :| 0 <= i < |all| && all[i] == r[j] && FirstWithKey(all, i);
      assert d == DumpAt(wmTrace, layersTrace, times[i]);
      assert forall k | 0 <= k < i :: all[k] == DumpAt(wmTrace, layersTrace, times[k]) && Key(all[k]) != Key(d);
    }
  }

  /** Every candidate timestamp's dump is represented in the list by a dump with the same key. */
  lemma EveryCandidateIsRepresented(wmTrace: seq<TraceEntry>, layersTrace: seq<TraceEntry>, t: int)
    requires wmTrace != [] && layersTrace != []
    requires t in CandidateTimes(wmTrace, layersTrace)
    ensures exists d | d in CreateDumpList(wmTrace, layersTrace).value :: Key(d) == Key(DumpAt(wmTrace, layersTrace, t))
  {
    var times := CandidateTimes(wmTrace, layersTrace);
    var all := AllDumps(wmTrace, layersTrace, times);
    var r := DistinctByKey(all);
    assert CreateDumpList(wmTrace, layersTrace).value == r;
    var i :| 0 <= i < |times| && times[i] == t;
    DistinctByKeyKeepsEveryKey(all, i);
    var j :| 0 <= j < |r| && Key(r[j]) == Key(all[i]);
    assert r[j] in r;
  }

  lemma {:induction false} SubsequenceKeepsOrder(a: seq<DeviceStateDump>, b: seq<DeviceStateDump>)
    requires Subsequence(a, b)
    requires forall i, j | 0 <= i < j < |b| :: b[i].wmState.timestamp <= b[j].wmState.timestamp &&
                                               b[i].layerState.timestamp <= b[j].layerState.timestamp
    ensures forall i, j | 0 <= i < j < |a| :: a[i].wmState.timestamp <= a[j].wmState.timestamp &&
                                              a[i].layerState.timestamp <= a[j].layerState.timestamp
    ensures forall i | 0 <= i < |a| :: a[i] in b
    decreases |b|
  {
    if a != [] {
      if a[0] == b[0] {
        SubsequenceKeepsOrder(a[1..], b[1..]);
        forall j | 0 < j < |a|
          ensures a[0].wmState.timestamp <= a[j].wmState.timestamp && a[0].layerState.timestamp <= a[j].layerState.timestamp
        {
          assert a[1..][j - 1] in b[1..];
          var k :| 0 <= k < |b[1..]| && b[1..][k] == a[j];
          assert b[k + 1] == a[j];
        }
        forall i, j | 0 <= i < j < |a|
          ensures a[i].wmState.timestamp <= a[j].wmState.timestamp && a[i].layerState.timestamp <= a[j].layerState.timestamp
        {
          if i > 0 {
            assert a[1..][i - 1] == a[i] && a[1..][j - 1] == a[j];
          }
        }
        forall i | 0 <= i < |a| ensures a[i] in b {
          if i > 0 {
            assert a[1..][i - 1] in b[1..];
          }
        }
      } else {
        SubsequenceKeepsOrder(a, b[1..]);
        forall i | 0 <= i < |a| ensures a[i] in b {
          assert a[i] in b[1..];
        }
      }
    }
  }

  /** When both traces are sorted by time, so are the wm and the layer timestamps along the dump list. */
  lemma DumpsFollowTime(wmTrace: seq<TraceEntry>, layersTrace: seq<TraceEntry>)
    requires wmTrace != [] && layersTrace != []
    requires SortedByTime(wmTrace) && SortedByTime(layersTrace)
    ensures var r := CreateDumpList(wmTrace, layersTrace).value;
      forall i, j | 0 <= i < j < |r| :: r[i].wmState.timestamp <= r[j].wmState.timestamp &&
                                        r[i].layerState.timestamp <= r[j].layerState.timestamp
  {
    var times := CandidateTimes(wmTrace, layersTrace);
    assert times != [] by {
      assert wmTrace[0].timestamp in times;
    }
    var all := AllDumps(wmTrace, layersTrace, times);
    forall i, j | 0 <= i < j < |all|
      ensures all[i].wmState.timestamp <= all[j].wmState.timestamp &&
              all[i].layerState.timestamp <= all[j].layerState.timestamp
    {
      AsOfIsMonotone(wmTrace, times[i], times[j]);
      AsOfIsMonotone(layersTrace, times[i], times[j]);
    }
    var r := DistinctByKey(all);
    assert CreateDumpList(wmTrace, layersTrace).value == r;
    SubsequenceKeepsOrder(r, all);
  }
}
