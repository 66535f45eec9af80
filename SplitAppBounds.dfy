/**
 * The split-screen assertion `splitAppLayerBoundsSnapToDivider`: on every
 * layer trace entry it is applied to, the visible region of a split app may
 * cover at most the half of the active display on its side of the divider.
 * Coordinates are Kotlin `Int`s, so the midpoint `(a + b) / 2` is computed
 * with 32-bit wrap-around and division truncating toward zero.
 */
module SplitAppBounds {
  import opened Wrappers
  import opened RectAlgebra

  const TwoTo31 := 0x8000_0000
  const TwoTo32 := 0x1_0000_0000

  predicate IsInt32(v: int)
  {
    -TwoTo31 <= v < TwoTo31
  }

  /** Kotlin `Int` addition: the mathematical sum reduced into the 32-bit range. */
  function Wrap32(v: int): (r: int)
    ensures IsInt32(r)
    ensures (r - v) % TwoTo32 == 0
    ensures IsInt32(v) ==> r == v
  {
    var m := v % TwoTo32;
    if m >= TwoTo31 then m - TwoTo32 else m
  }

  /** Kotlin `Int` division by 2, which truncates toward zero. */
  function Half(v: int): (r: int)
    ensures v >= 0 ==> 0 <= r && r + r <= v < r + r + 2
    ensures v < 0 ==> r <= 0 && r + r - 2 < v <= r + r
  {
    if v >= 0 then v / 2 else -((-v) / 2)
  }

  /** `(a + b) / 2` on Kotlin `Int`s. */
  function Midpoint(a: int, b: int): (r: int)
  {
    Half(Wrap32(a + b))
  }

  /** Without overflow the midpoint lies between the two coordinates. */
  lemma MidpointBetween(a: int, b: int)
    requires IsInt32(a + b)
    ensures Min(a, b) <= Midpoint(a, b) <= Max(a, b)
  {
  }

  /** With large coordinates the sum wraps, and the midpoint of two positive coordinates is negative. */
  lemma MidpointWraps()
    ensures Midpoint(TwoTo31 - 1, TwoTo31 - 1) == -1
  {
    assert Wrap32(TwoTo31 - 1 + TwoTo31 - 1) == -2;
  }

  /** A display of the layer trace entry. */
  datatype Display = Display(isOn: bool, isVirtual: bool, bounds: Rect)

  predicate IsActive(d: Display)
  {
    d.isOn && !d.isVirtual
  }

  const NoActiveDisplay := "No non-virtual and on display found"
  const DividerNotFound := "split screen divider component not found"

  /** `displays.firstOrNull { it.isOn && !it.isVirtual } ?: error(...)`. */
  function ActiveDisplay(displays: seq<Display>): (r: Result<Display>)
    ensures r.Failure? <==> forall i | 0 <= i < |displays| :: !IsActive(displays[i])
    ensures r.Failure? ==> r.error == NoActiveDisplay
    ensures r.Success? ==> IsActive(r.value)
    ensures r.Success? ==>
      exists i | 0 <= i < |displays| :: displays[i] == r.value && forall j | 0 <= j < i :: !IsActive(displays[j])
  {
    if displays == [] then Failure(NoActiveDisplay)
    else if IsActive(displays[0]) then
      assert displays[0] == displays[0];
      Success(displays[0])
    else
      var r := ActiveDisplay(displays[1..]);
      if r.Success? then
        var i :| 0 <= i < |displays[1..]| && displays[1..][i] == r.value && forall j | 0 <= j < i :: !IsActive(displays[1..][j]);
        assert displays[i + 1] == r.value;
        assert forall j | 0 <= j < i + 1 :: !IsActive(displays[j]) by {
          forall j | 0 <= j < i + 1 ensures !IsActive(displays[j]) {
            if j > 0 {
              assert displays[j] == displays[1..][j - 1];
            }
          }
        }
        r
      else
        assert forall i | 0 <= i < |displays| :: !IsActive(displays[i]) by {
          forall i | 0 <= i < |displays| ensures !IsActive(displays[i]) {
            if i > 0 {
              assert displays[i] == displays[1..][i - 1];
            }
          }
        }
        r
  }

  /** Kotlin `Rect.width` and `height`, on `Int`s. */
  function Width(r: Rect): int { Wrap32(r.right - r.left) }
  function Height(r: Rect): int { Wrap32(r.bottom - r.top) }

  /** A display wider than it is tall; a square display counts as portrait. */
  predicate IsLandscape(display: Rect)
  {
    Width(display) > Height(display)
  }

  /** The region the app may cover, given the display and the divider's bounds. */
  function ExpectedBounds(display: Rect, divider: Rect, landscapePosLeft: bool, portraitPosTop: bool): (r: Rect)
    ensures IsLandscape(display) ==> r.top == 0 && r.bottom == display.bottom
    ensures IsLandscape(display) && landscapePosLeft ==> r.left == 0 && r.right == Midpoint(divider.left, divider.right)
    ensures IsLandscape(display) && !landscapePosLeft ==> r.left == Midpoint(divider.left, divider.right) && r.right == display.right
    ensures !IsLandscape(display) ==> r.left == 0 && r.right == display.right
    ensures !IsLandscape(display) && portraitPosTop ==> r.top == 0 && r.bottom == Midpoint(divider.top, divider.bottom)
    ensures !IsLandscape(display) && !portraitPosTop ==> r.top == Midpoint(divider.top, divider.bottom) && r.bottom == display.bottom
  {
    if IsLandscape(display) then
      var midX := Midpoint(divider.left, divider.right);
      if landscapePosLeft then Rect(0, 0, midX, display.bottom)
      else Rect(midX, 0, display.right, display.bottom)
    else
      var midY := Midpoint(divider.top, divider.bottom);
      if portraitPosTop then Rect(0, 0, display.right, midY)
      else Rect(0, midY, display.right, display.bottom)
  }

  /** `doEvaluate`: the primary app sits right of or below the divider, the secondary app left of or above it. */
  function SnapFlags(isPrimaryApp: bool): (flags: (bool, bool))
    ensures flags.0 == flags.1
    ensures flags.0 <==> !isPrimaryApp
  {
    if isPrimaryApp then (false, false) else (true, true)
  }

  /**
   * On a display at the origin whose divider lies inside it (and whose
   * coordinates add up without overflow), the primary and
   * secondary expectations split the display in two: every point of the
   * display is in exactly one of them.
   */
  lemma HalvesTileDisplay(display: Rect, divider: Rect)
    requires display.left == 0 && display.top == 0
    requires IsInt32(display.right) && IsInt32(display.bottom)
    requires 0 <= divider.left <= divider.right <= display.right
    requires 0 <= divider.top <= divider.bottom <= display.bottom
    requires IsInt32(divider.left + divider.right) && IsInt32(divider.top + divider.bottom)
    ensures var primary := ExpectedBounds(display, divider, SnapFlags(true).0, SnapFlags(true).1);
      var secondary := ExpectedBounds(display, divider, SnapFlags(false).0, SnapFlags(false).1);
      forall x, y :: display.Contains(x, y) <==> (primary.Contains(x, y) || secondary.Contains(x, y))
    ensures var primary := ExpectedBounds(display, divider, SnapFlags(true).0, SnapFlags(true).1);
      var secondary := ExpectedBounds(display, divider, SnapFlags(false).0, SnapFlags(false).1);
      forall x, y :: !(primary.Contains(x, y) && secondary.Contains(x, y))
  {
    MidpointBetween(divider.left, divider.right);
    MidpointBetween(divider.top, divider.bottom);
  }

  /** Under the same conditions each expectation is a part of the display, split at the divider's midline. */
  lemma ExpectedWithinDisplay(display: Rect, divider: Rect, landscapePosLeft: bool, portraitPosTop: bool)
    requires display.left == 0 && display.top == 0
    requires IsInt32(display.right) && IsInt32(display.bottom)
    requires 0 <= divider.left <= divider.right <= display.right
    requires 0 <= divider.top <= divider.bottom <= display.bottom
    requires IsInt32(divider.left + divider.right) && IsInt32(divider.top + divider.bottom)
    ensures ExpectedBounds(display, divider, landscapePosLeft, portraitPosTop).Within(display)
    ensures var e := ExpectedBounds(display, divider, landscapePosLeft, portraitPosTop);
      if IsLandscape(display) then divider.left <= (if landscapePosLeft then e.right else e.left) <= divider.right
      else divider.top <= (if portraitPosTop then e.bottom else e.top) <= divider.bottom
  {
    MidpointBetween(divider.left, divider.right);
    MidpointBetween(divider.top, divider.bottom);
  }

  // ---------------------------------------------------------------------------
  // Per-entry evaluation
  // ---------------------------------------------------------------------------

  /** A layer; its visible region may be unknown. */
  datatype Layer = Layer(visibleRegion: Option<seq<Rect>>)

  /** What one layer trace entry offers the assertion. */
  datatype LayerTraceEntry = LayerTraceEntry(
    displays: seq<Display>,
    dividerLayer: Option<Layer>,
    appVisibleRegion: seq<Rect>)

  /** Evaluation raises an error, the assertion fails, or it holds. */
  datatype Outcome = Pass | AssertionFailure(expected: Rect) | EvaluationError(message: string)

  /** `coversAtMost(expected)`: no point of the region lies outside `expected`. */
  function CoversAtMost(region: seq<Rect>, expected: Rect): (holds: bool)
    ensures holds <==> forall x, y :: Covers(region, x, y) ==> expected.Contains(x, y)
  {
    var outside := Minus(Keep(region), [expected]);
    EmptyListIffNoPoint(outside);
    assert forall x, y :: Covers(outside, x, y) <==> Covers(region, x, y) && !expected.Contains(x, y) by {
      CoversCons([expected]);
    }
    outside == []
  }

  /** The entry has no display that is on and not virtual. */
  ghost predicate NoActiveDisplayIn(entry: LayerTraceEntry)
  {
    ActiveDisplay(entry.displays).Failure?
  }

  /** The entry has an active display but no divider layer with a visible region. */
  ghost predicate DividerMissingIn(entry: LayerTraceEntry)
  {
    ActiveDisplay(entry.displays).Success? && (entry.dividerLayer.None? || entry.dividerLayer.value.visibleRegion.None?)
  }

  /**
   * What one entry must show: an active display, a visible divider, and every
   * point of the app's visible region inside the half the divider gives it.
   */
  ghost predicate EntryPasses(entry: LayerTraceEntry, landscapePosLeft: bool, portraitPosTop: bool)
  {
    ActiveDisplay(entry.displays).Success? && entry.dividerLayer.Some? && entry.dividerLayer.value.visibleRegion.Some? &&
    var expected := ExpectedBounds(ActiveDisplay(entry.displays).value.bounds,
                                   BoundsOf(Keep(entry.dividerLayer.value.visibleRegion.value)),
                                   landscapePosLeft, portraitPosTop);
    forall x, y :: Covers(entry.appVisibleRegion, x, y) ==> expected.Contains(x, y)
  }

  /** `splitAppLayerBoundsSnapToDivider` on one entry. */
  function CheckEntry(entry: LayerTraceEntry, landscapePosLeft: bool, portraitPosTop: bool): (r: Outcome)
    ensures r == EvaluationError(NoActiveDisplay) <==> NoActiveDisplayIn(entry)
    ensures r == EvaluationError(DividerNotFound) <==> DividerMissingIn(entry)
    ensures r == Pass <==> EntryPasses(entry, landscapePosLeft, portraitPosTop)
  {
    match ActiveDisplay(entry.displays)
    case Failure(e) => EvaluationError(e)
    case Success(display) =>
      if entry.dividerLayer.None? || entry.dividerLayer.value.visibleRegion.None? then EvaluationError(DividerNotFound)
      else
        var dividerBounds := BoundsOf(Keep(entry.dividerLayer.value.visibleRegion.value));
        var expected := ExpectedBounds(display.bounds, dividerBounds, landscapePosLeft, portraitPosTop);
        if CoversAtMost(entry.appVisibleRegion, expected) then Pass else AssertionFailure(expected)
  }

  /** `forAllEntries()`: the first entry that does not pass decides; otherwise the assertion passes. */
  function CheckAll(entries: seq<LayerTraceEntry>, landscapePosLeft: bool, portraitPosTop: bool): (r: Outcome)
    ensures r == Pass <==> forall i | 0 <= i < |entries| :: CheckEntry(entries[i], landscapePosLeft, portraitPosTop) == Pass
    ensures r != Pass ==> exists i | 0 <= i < |entries| ::
      (r == CheckEntry(entries[i], landscapePosLeft, portraitPosTop) &&
       forall j | 0 <= j < i :: CheckEntry(entries[j], landscapePosLeft, portraitPosTop) == Pass)
  {
    if entries == [] then Pass
    else
      var first := CheckEntry(entries[0], landscapePosLeft, portraitPosTop);
      if first != Pass then first
      else
        var r := CheckAll(entries[1..], landscapePosLeft, portraitPosTop);
        assert forall i | 0 < i < |entries| :: entries[i] == entries[1..][i - 1];
        if r != Pass then
          var i :| 0 <= i < |entries[1..]| && r == CheckEntry(entries[1..][i], landscapePosLeft, portraitPosTop) &&
            forall j | 0 <= j < i :: CheckEntry(entries[1..][j], landscapePosLeft, portraitPosTop) == Pass;
          assert r == CheckEntry(entries[i + 1], landscapePosLeft, portraitPosTop);
          r
        else r
  }

  /** The snap-to-divider step of `doEvaluate`, for the primary or the secondary app. */
  function Evaluate(isPrimaryApp: bool, entries: seq<LayerTraceEntry>): (r: Outcome)
    ensures r == Pass <==> forall i | 0 <= i < |entries| ::
      CheckEntry(entries[i], !isPrimaryApp, !isPrimaryApp) == Pass
  {
    var flags := SnapFlags(isPrimaryApp);
    CheckAll(entries, flags.0, flags.1)
  }
}
