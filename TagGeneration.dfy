/**
 * `TransitionProcessor.generateTags` and `buildTagTrace`: a scenario state
 * machine is fed a sliding window (previous, current, next) over the dump
 * list until it returns no next state; the tag map it wrote to is then turned
 * into a tag trace.  The per-scenario states are not part of this model: a
 * state is any value of type `S`, and one step of it is the function `step`.
 */
module TagGeneration {
  import opened Wrappers
  import opened DeviceStateDumps

  /** Raised by `requireNotNull(current)` when the state asks to go on past the last dump. */
  const CurrentIsNull := "Current state shouldn't be null"

  /** Raised by the first `dumpIterator.next()` on an empty dump list. */
  const NoFirstDump := "NoSuchElementException"

  predicate KeysUnique<T>(m: seq<(int, seq<T>)>)
  {
    forall i, j | 0 <= i < j < |m| :: m[i].0 != m[j].0
  }

  /**
   * The shared `MutableMap<Long, MutableList<Tag>>`, as its entries in
   * iteration (insertion) order: one entry per timestamp.
   */
  type TagMap<T> = m: seq<(int, seq<T>)> | KeysUnique(m) witness []

  /** What one call of `process` yields: the next position, if any, and the tag map after it. */
  datatype StepResult<S, T> = StepResult(position: Option<S>, tags: TagMap<T>)

  /** `process(previous, current, next)` of a state, given the tag map as it stands. */
  type Step<!S, !T> = (S, TagMap<T>, Option<DeviceStateDump>, DeviceStateDump, Option<DeviceStateDump>) -> StepResult<S, T>

  /** `TagState(timestamp.toString(), tags)`. */
  datatype TagState<T> = TagState(timestamp: string, tags: seq<T>)

  // ---------------------------------------------------------------------------
  // The drive loop
  // ---------------------------------------------------------------------------

  /** The dump before position `k`, or none at the first step. */
  function Previous(dumps: seq<DeviceStateDump>, k: nat): Option<DeviceStateDump>
    requires k <= |dumps|
  {
    if k == 0 then None else Some(dumps[k - 1])
  }

  /** The dump after position `k`, or none once the iterator is exhausted. */
  function Following(dumps: seq<DeviceStateDump>, k: nat): Option<DeviceStateDump>
  {
    if k + 1 < |dumps| then Some(dumps[k + 1]) else None
  }

  /** The loop from step `k` on, with `s` the current position and `tags` the map so far. */
  function Drive<S, T>(step: Step<S, T>, s: S, tags: TagMap<T>, dumps: seq<DeviceStateDump>, k: nat): (r: Result<TagMap<T>>)
    requires k <= |dumps|
    ensures r.Failure? ==> r.error == CurrentIsNull
    ensures k == |dumps| ==> r.Failure?
    decreases |dumps| - k
  {
    if k == |dumps| then Failure(CurrentIsNull)
    else
      var out := step(s, tags, Previous(dumps, k), dumps[k], Following(dumps, k));
      match out.position
      case None => Success(out.tags)
      case Some(s') => Drive(step, s', out.tags, dumps, k + 1)
  }

  /**
   * The whole of `generateTags` before the conversion: the initial state is
   * handed the empty map, and its first step sees no previous dump and dump 0.
   */
  function Run<S, T>(step: Step<S, T>, initial: S, dumps: seq<DeviceStateDump>): (r: Result<TagMap<T>>)
    ensures dumps == [] ==> r == Failure(NoFirstDump)
    ensures dumps != [] && step(initial, [], None, dumps[0], Following(dumps, 0)).position.None? ==>
      r == Success(step(initial, [], None, dumps[0], Following(dumps, 0)).tags)
  {
    if dumps == [] then Failure(NoFirstDump) else Drive(step, initial, [], dumps, 0)
  }

  /** A state that always asks to go on runs past the last dump and fails in `requireNotNull`. */
  lemma {:induction false} NeverStoppingFails<S, T>(step: Step<S, T>, s: S, tags: TagMap<T>, dumps: seq<DeviceStateDump>, k: nat)
    requires k <= |dumps|
    requires forall s', m, p, c, n :: step(s', m, p, c, n).position.Some?
    ensures Drive(step, s, tags, dumps, k) == Failure(CurrentIsNull)
    decreases |dumps| - k
  {
    if k < |dumps| {
      var out := step(s, tags, Previous(dumps, k), dumps[k], Following(dumps, k));
      NeverStoppingFails(step, out.position.value, out.tags, dumps, k + 1);
    }
  }

  /** A state that stops, at the latest, when it is shown the last dump (no next dump) always succeeds. */
  lemma {:induction false} StoppingAtLastDumpSucceeds<S, T>(step: Step<S, T>, s: S, tags: TagMap<T>, dumps: seq<DeviceStateDump>, k: nat)
    requires k < |dumps|
    requires forall s', m, p, c :: step(s', m, p, c, None).position.None?
    ensures Drive(step, s, tags, dumps, k).Success?
    decreases |dumps| - k
  {
    var out := step(s, tags, Previous(dumps, k), dumps[k], Following(dumps, k));
    if k + 1 < |dumps| && out.position.Some? {
      StoppingAtLastDumpSucceeds(step, out.position.value, out.tags, dumps, k + 1);
    }
  }

  /**
   * `generateTags`: the previous/current/next window slides over the dump list
   * through an iterator until the position becomes null.
   */
  method GenerateTags<S, T>(step: Step<S, T>, initial: S, dumps: seq<DeviceStateDump>) returns (r: Result<seq<TagState<T>>>)
    ensures r == ToTagTrace(Run(step, initial, dumps))
  {
    var tags: TagMap<T> := [];
    var position: Option<S> := Some(initial);
    if dumps == [] {
      return Failure(NoFirstDump);
    }
    var cursor := 1;
    var previous: Option<DeviceStateDump>;
    var current: Option<DeviceStateDump> := None;
    var next: Option<DeviceStateDump> := Some(dumps[0]);
    ghost var k := 0;
    ghost var goal := Run(step, initial, dumps);
    while position.Some?
      invariant 0 <= k <= |dumps|
      invariant cursor == if k + 1 < |dumps| then k + 1 else |dumps|
      invariant current == if 0 < k then Some(dumps[k - 1]) else None
      invariant next == if k < |dumps| then Some(dumps[k]) else None
      invariant position.Some? ==> Drive(step, position.value, tags, dumps, k) == goal
      invariant position.None? ==> goal == Success(tags)
      decreases |dumps| - k
    {
      previous := current;
      current := next;
      if cursor < |dumps| {
        next := Some(dumps[cursor]);
        cursor := cursor + 1;
      } else {
        next := None;
      }
      if current.None? {
        return Failure(CurrentIsNull);
      }
      var out := step(position.value, tags, previous, current.value, next);
      position := out.position;
      tags := out.tags;
      k := k + 1;
    }
    r := Success(BuildTagTrace(tags));
  }

  /**
   * `generateTags` from the two traces: the dump list is built first, so a
   * trace that is empty while the other is not fails there, and two empty
   * traces fail at the first `next()` of the loop.
   */
  method GenerateTagsForTraces<S, T>(step: Step<S, T>, initial: S, wmTrace: seq<TraceEntry>, layersTrace: seq<TraceEntry>)
    returns (r: Result<seq<TagState<T>>>)
    ensures CreateDumpList(wmTrace, layersTrace).Failure? ==>
      r.Failure? && r.error == CreateDumpList(wmTrace, layersTrace).error
    ensures wmTrace == [] && layersTrace == [] ==> r == Failure(NoFirstDump)
    ensures CreateDumpList(wmTrace, layersTrace).Success? ==>
      r == ToTagTrace(Run(step, initial, CreateDumpList(wmTrace, layersTrace).value))
  {
    var dumpList := CreateDumpList(wmTrace, layersTrace);
    if dumpList.Failure? {
      return Failure(dumpList.error);
    }
    r := GenerateTags(step, initial, dumpList.value);
  }

  // ---------------------------------------------------------------------------
  // buildTagTrace
  // ---------------------------------------------------------------------------

  function DigitChar(d: int): (c: char)
    requires 0 <= d < 10
    ensures '0' <= c <= '9' && c as int - '0' as int == d
  {
    ('0' as int + d) as char
  }

  predicate AllDigits(s: string)
  {
    forall i | 0 <= i < |s| :: '0' <= s[i] <= '9'
  }

  /** Decimal digits of a natural number, most significant first, with no leading zero. */
  function FormatNat(n: nat): (s: string)
    ensures |s| >= 1 && AllDigits(s)
    ensures |s| > 1 ==> s[0] != '0'
    decreases n
  {
    if n < 10 then [DigitChar(n)] else FormatNat(n / 10) + [DigitChar(n % 10)]
  }

  /** `Long.toString()`: a minus sign for negative values, then the decimal digits. */
  function FormatLong(n: int): (s: string)
    ensures s != [] && (s[0] == '-' <==> n < 0)
  {
    if n < 0 then "-" + FormatNat(-n) else FormatNat(n)
  }

  function ParseNat(s: string): (n: nat)
    requires AllDigits(s)
    decreases |s|
  {
    if s == [] then 0 else ParseNat(s[..|s| - 1]) * 10 + (s[|s| - 1] as int - '0' as int)
  }

  /** Reads back a decimal `Long` string; `None` for anything else. */
  function ParseLong(s: string): Option<int>
  {
    if |s| > 1 && s[0] == '-' && AllDigits(s[1..]) then
      var magnitude: int := ParseNat(s[1..]);
      Some(-magnitude)
    else if s != [] && AllDigits(s) then Some(ParseNat(s))
    else None
  }

  lemma {:induction false} ParseFormatNat(n: nat)
    ensures ParseNat(FormatNat(n)) == n
    decreases n
  {
    if n >= 10 {
      var s := FormatNat(n);
      assert s[..|s| - 1] == FormatNat(n / 10);
      ParseFormatNat(n / 10);
    }
  }

  /** The timestamp strings read back as the timestamps: `toString` loses nothing. */
  lemma ParseFormatLong(n: int)
    ensures ParseLong(FormatLong(n)) == Some(n)
  {
    var s := FormatLong(n);
    if n < 0 {
      var digits := FormatNat(-n);
      assert s == ['-'] + digits;
      assert s[1..] == digits;
      ParseFormatNat(-n);
    } else {
      assert s[0] != '-';
      ParseFormatNat(n);
    }
  }

  /** Different timestamps give different strings. */
  lemma FormatLongIsInjective(a: int, b: int)
    requires FormatLong(a) == FormatLong(b)
    ensures a == b
  {
    ParseFormatLong(a);
    ParseFormatLong(b);
  }

  /** `buildTagTrace`: one tag state per map entry, in the map's iteration order. */
  function BuildTagTrace<T>(tags: TagMap<T>): (r: seq<TagState<T>>)
    ensures |r| == |tags|
    ensures forall i | 0 <= i < |tags| :: ParseLong(r[i].timestamp) == Some(tags[i].0) && r[i].tags == tags[i].1
  {
    if tags == [] then []
    else
      ParseFormatLong(tags[0].0);
      [TagState(FormatLong(tags[0].0), tags[0].1)] + BuildTagTrace(tags[1..])
  }

  /** The tag trace has one state per timestamp: no two states carry the same timestamp string. */
  lemma TagTraceTimestampsDistinct<T>(tags: TagMap<T>)
    ensures var r := BuildTagTrace(tags);
      forall i, j | 0 <= i < j < |r| :: r[i].timestamp != r[j].timestamp
  {
    var r := BuildTagTrace(tags);
    forall i, j | 0 <= i < j < |r| ensures r[i].timestamp != r[j].timestamp {
      assert ParseLong(r[i].timestamp) != ParseLong(r[j].timestamp);
    }
  }

  /** `generateTags` returns the tag trace of the map the loop left behind, or the loop's error. */
  function ToTagTrace<T>(result: Result<TagMap<T>>): (r: Result<seq<TagState<T>>>)
    ensures r.Success? <==> result.Success?
    ensures r.Failure? ==> r.error == result.error
    ensures r.Success? ==> |r.value| == |result.value|
  {
    match result
    case Success(tags) => Success(BuildTagTrace(tags))
    case Failure(e) => Failure(e)
  }
}
