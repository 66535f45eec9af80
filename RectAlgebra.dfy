/**
 * The planar algebra behind `Region`: integer rectangles with half-open point
 * semantics, lists of rectangles read as the union of their areas, and the six
 * boolean region operations computed on such lists.
 *
 * A list used by a region never holds an empty rectangle (AllNonEmpty), so the
 * empty list is the only representation of the empty area.  The lists are not
 * kept in a canonical banded form; every property that the canonical form
 * would give (isRect, isComplex, bounds) is instead decided from the covered
 * area itself.
 */
module RectAlgebra {

  function Min(a: int, b: int): int { if a <= b then a else b }
  function Max(a: int, b: int): int { if a <= b then b else a }

  /** An integer rectangle covering x in [left, right) and y in [top, bottom). */
  datatype Rect = Rect(left: int, top: int, right: int, bottom: int)
  {
    /** Degenerate rectangles, such as (0, 0, 0, 0), cover no point. */
    predicate IsEmpty() { left >= right || top >= bottom }

    /** Half-open membership: the left and top edges are inside, right and bottom are not. */
    predicate Contains(x: int, y: int) { left <= x < right && top <= y < bottom }

    predicate Within(outer: Rect)
    {
      outer.left <= left && outer.top <= top && right <= outer.right && bottom <= outer.bottom
    }
  }

  /** The rectangle reported as the bounds of an empty region. */
  const EmptyRect := Rect(0, 0, 0, 0)

  /** The six region operations; the receiver is the first operand. */
  datatype Op = Difference | Intersect | Union | Xor | ReverseDifference | Replace

  /** What each operation does to one point, given its membership in the receiver and in the operand. */
  function Apply(op: Op, inReceiver: bool, inOperand: bool): bool
  {
    match op
    case Difference => inReceiver && !inOperand
    case Intersect => inReceiver && inOperand
    case Union => inReceiver || inOperand
    case Xor => inReceiver != inOperand
    case ReverseDifference => inOperand && !inReceiver
    case Replace => inOperand
  }

  /** The area of a list of rectangles is the union of their areas. */
  predicate Covers(rs: seq<Rect>, x: int, y: int)
  {
    exists i | 0 <= i < |rs| :: rs[i].Contains(x, y)
  }

  predicate AllNonEmpty(rs: seq<Rect>)
  {
    forall i | 0 <= i < |rs| :: !rs[i].IsEmpty()
  }

  /** A rectangle is empty exactly when it has no point. */
  lemma EmptyIffNoPoint(r: Rect)
    ensures r.IsEmpty() <==> forall x, y :: !r.Contains(x, y)
  {
    if !r.IsEmpty() {
      assert r.Contains(r.left, r.top);
    }
  }

  /** A list without empty rectangles covers no point exactly when it is the empty list. */
  lemma EmptyListIffNoPoint(rs: seq<Rect>)
    requires AllNonEmpty(rs)
    ensures rs == [] <==> forall x, y :: !Covers(rs, x, y)
  {
    if rs != [] {
      assert rs[0].Contains(rs[0].left, rs[0].top);
      assert Covers(rs, rs[0].left, rs[0].top);
    }
  }

  lemma CoversConcat(a: seq<Rect>, b: seq<Rect>)
    ensures forall x, y :: Covers(a + b, x, y) <==> Covers(a, x, y) || Covers(b, x, y)
  {
    forall x, y ensures Covers(a + b, x, y) <==> Covers(a, x, y) || Covers(b, x, y) {
      if Covers(a + b, x, y) {
        var i :| 0 <= i < |a + b| && (a + b)[i].Contains(x, y);
        if i < |a| {
          assert a[i] == (a + b)[i];
        } else {
          assert b[i - |a|] == (a + b)[i];
        }
      }
      if Covers(a, x, y) {
        var i :| 0 <= i < |a| && a[i].Contains(x, y);
        assert (a + b)[i] == a[i];
      }
      if Covers(b, x, y) {
        var i :| 0 <= i < |b| && b[i].Contains(x, y);
        assert (a + b)[|a| + i] == b[i];
      }
    }
  }

  lemma CoversCons(rs: seq<Rect>)
    requires rs != []
    ensures forall x, y :: Covers(rs, x, y) <==> rs[0].Contains(x, y) || Covers(rs[1..], x, y)
  {
    assert rs == [rs[0]] + rs[1..];
    CoversConcat([rs[0]], rs[1..]);
  }

  /** Drops the empty rectangles of a list; the covered area does not change. */
  function Keep(rs: seq<Rect>): (r: seq<Rect>)
    ensures AllNonEmpty(r)
    ensures forall x, y :: Covers(r, x, y) <==> Covers(rs, x, y)
    ensures forall q | q in r :: q in rs
  {
    if rs == [] then []
    else
      var tail := Keep(rs[1..]);
      CoversCons(rs);
      if rs[0].IsEmpty() then
        EmptyIffNoPoint(rs[0]);
        tail
      else
        CoversCons([rs[0]] + tail);
        assert ([rs[0]] + tail)[1..] == tail;
        [rs[0]] + tail
  }

  /** The common part of two rectangles (possibly degenerate). */
  function Intersection(a: Rect, b: Rect): (r: Rect)
    ensures forall x, y :: r.Contains(x, y) <==> a.Contains(x, y) && b.Contains(x, y)
  {
    Rect(Max(a.left, b.left), Max(a.top, b.top), Min(a.right, b.right), Min(a.bottom, b.bottom))
  }

  /** The four bands of `a` around its sub-rectangle `c`: above, below, left of and right of it. */
  function Bands(a: Rect, c: Rect): seq<Rect>
  {
    [ Rect(a.left, a.top, a.right, c.top),
      Rect(a.left, c.bottom, a.right, a.bottom),
      Rect(a.left, c.top, c.left, c.bottom),
      Rect(c.right, c.top, a.right, c.bottom) ]
  }

  lemma BandsCoverDifference(a: Rect, b: Rect)
    requires !Intersection(a, b).IsEmpty()
    ensures forall x, y :: Covers(Bands(a, Intersection(a, b)), x, y) <==> a.Contains(x, y) && !b.Contains(x, y)
  {
    var c := Intersection(a, b);
    var bands := Bands(a, c);
    forall x, y ensures Covers(bands, x, y) <==> a.Contains(x, y) && !b.Contains(x, y) {
      if a.Contains(x, y) && !b.Contains(x, y) {
        if y < c.top {
          assert bands[0].Contains(x, y);
        } else if y >= c.bottom {
          assert bands[1].Contains(x, y);
        } else if x < c.left {
          assert bands[2].Contains(x, y);
        } else {
          assert bands[3].Contains(x, y);
        }
      }
      if Covers(bands, x, y) {
        var i :| 0 <= i < 4 && bands[i].Contains(x, y);
        assert !c.Contains(x, y);
      }
    }
  }

  /** `a` minus `b`, as at most four non-empty rectangles inside `a`. */
  function SubtractRect(a: Rect, b: Rect): (r: seq<Rect>)
    ensures AllNonEmpty(r)
    ensures forall x, y :: Covers(r, x, y) <==> a.Contains(x, y) && !b.Contains(x, y)
  {
    var c := Intersection(a, b);
    if c.IsEmpty() then
      EmptyIffNoPoint(c);
      CoversCons([a]);
      Keep([a])
    else
      BandsCoverDifference(a, b);
      Keep(Bands(a, c))
  }

  /** Every rectangle of `rs` minus `b`. */
  function SubtractFromAll(rs: seq<Rect>, b: Rect): (r: seq<Rect>)
    ensures AllNonEmpty(r)
    ensures forall x, y :: Covers(r, x, y) <==> Covers(rs, x, y) && !b.Contains(x, y)
  {
    if rs == [] then []
    else
      var head := SubtractRect(rs[0], b);
      var tail := SubtractFromAll(rs[1..], b);
      CoversConcat(head, tail);
      CoversCons(rs);
      head + tail
  }

  /** The area of `a` that `b` does not cover. */
  function Minus(a: seq<Rect>, b: seq<Rect>): (r: seq<Rect>)
    requires AllNonEmpty(a)
    ensures AllNonEmpty(r)
    ensures forall x, y :: Covers(r, x, y) <==> Covers(a, x, y) && !Covers(b, x, y)
    decreases |b|
  {
    if b == [] then a
    else
      CoversCons(b);
      Minus(SubtractFromAll(a, b[0]), b[1..])
  }

  /** The area that `a` shares with each rectangle of `b`. */
  function IntersectEach(a: Rect, b: seq<Rect>): (r: seq<Rect>)
    ensures AllNonEmpty(r)
    ensures forall x, y :: Covers(r, x, y) <==> a.Contains(x, y) && Covers(b, x, y)
  {
    if b == [] then []
    else
      var head := Keep([Intersection(a, b[0])]);
      var tail := IntersectEach(a, b[1..]);
      CoversCons([Intersection(a, b[0])]);
      CoversConcat(head, tail);
      CoversCons(b);
      head + tail
  }

  /** The area that `a` and `b` share. */
  function IntersectAll(a: seq<Rect>, b: seq<Rect>): (r: seq<Rect>)
    ensures AllNonEmpty(r)
    ensures forall x, y :: Covers(r, x, y) <==> Covers(a, x, y) && Covers(b, x, y)
  {
    if a == [] then []
    else
      var head := IntersectEach(a[0], b);
      var tail := IntersectAll(a[1..], b);
      CoversConcat(head, tail);
      CoversCons(a);
      head + tail
  }

  /** `receiver OP operand` for each of the six operations. */
  function Combine(op: Op, receiver: seq<Rect>, operand: seq<Rect>): (r: seq<Rect>)
    requires AllNonEmpty(receiver) && AllNonEmpty(operand)
    ensures AllNonEmpty(r)
    ensures forall x, y :: Covers(r, x, y) <==> Apply(op, Covers(receiver, x, y), Covers(operand, x, y))
  {
    match op
    case Difference => Minus(receiver, operand)
    case Intersect => IntersectAll(receiver, operand)
    case Union =>
      var added := Minus(operand, receiver);
      CoversConcat(receiver, added);
      receiver + added
    case Xor =>
      var left := Minus(receiver, operand);
      var right := Minus(operand, receiver);
      CoversConcat(left, right);
      left + right
    case ReverseDifference => Minus(operand, receiver)
    case Replace => operand
  }

  /** The smallest rectangle holding both `a` and `b`. */
  function Hull(a: Rect, b: Rect): Rect
  {
    Rect(Min(a.left, b.left), Min(a.top, b.top), Max(a.right, b.right), Max(a.bottom, b.bottom))
  }

  /** The bounding box of a list; (0, 0, 0, 0) for the empty list. */
  function BoundsOf(rs: seq<Rect>): (r: Rect)
    ensures rs == [] ==> r == EmptyRect
    ensures forall i | 0 <= i < |rs| :: rs[i].Within(r)
  {
    if rs == [] then EmptyRect
    else if |rs| == 1 then rs[0]
    else Hull(rs[0], BoundsOf(rs[1..]))
  }

  /** Each edge of the bounding box is the edge of one of the rectangles. */
  lemma {:induction false} BoundsTouch(rs: seq<Rect>)
    requires rs != []
    ensures exists i | 0 <= i < |rs| :: rs[i].left == BoundsOf(rs).left
    ensures exists i | 0 <= i < |rs| :: rs[i].top == BoundsOf(rs).top
    ensures exists i | 0 <= i < |rs| :: rs[i].right == BoundsOf(rs).right
    ensures exists i | 0 <= i < |rs| :: rs[i].bottom == BoundsOf(rs).bottom
  {
    var b := BoundsOf(rs);
    if |rs| == 1 {
      assert rs[0].left == b.left && rs[0].top == b.top && rs[0].right == b.right && rs[0].bottom == b.bottom;
    } else {
      var tail := rs[1..];
      BoundsTouch(tail);
      var t := BoundsOf(tail);
      var i0 :| 0 <= i0 < |tail| && tail[i0].left == t.left;
      var i1 :| 0 <= i1 < |tail| && tail[i1].top == t.top;
      var i2 :| 0 <= i2 < |tail| && tail[i2].right == t.right;
      var i3 :| 0 <= i3 < |tail| && tail[i3].bottom == t.bottom;
      assert rs[i0 + 1] == tail[i0] && rs[i1 + 1] == tail[i1];
      assert rs[i2 + 1] == tail[i2] && rs[i3 + 1] == tail[i3];
      if rs[0].left <= t.left { assert rs[0].left == b.left; } else { assert rs[i0 + 1].left == b.left; }
      if rs[0].top <= t.top { assert rs[0].top == b.top; } else { assert rs[i1 + 1].top == b.top; }
      if rs[0].right >= t.right { assert rs[0].right == b.right; } else { assert rs[i2 + 1].right == b.right; }
      if rs[0].bottom >= t.bottom { assert rs[0].bottom == b.bottom; } else { assert rs[i3 + 1].bottom == b.bottom; }
    }
  }

  /**
   * The bounds enclose every covered point, and each of their four edges is
   * reached by a covered point: they are the smallest enclosing rectangle.
   */
  lemma BoundsAreTight(rs: seq<Rect>)
    requires AllNonEmpty(rs) && rs != []
    ensures forall x, y :: Covers(rs, x, y) ==> BoundsOf(rs).Contains(x, y)
    ensures exists y :: Covers(rs, BoundsOf(rs).left, y)
    ensures exists x :: Covers(rs, x, BoundsOf(rs).top)
    ensures exists x, y :: x + 1 == BoundsOf(rs).right && Covers(rs, x, y)
    ensures exists x, y :: y + 1 == BoundsOf(rs).bottom && Covers(rs, x, y)
  {
    var b := BoundsOf(rs);
    BoundsTouch(rs);
    var i0 :| 0 <= i0 < |rs| && rs[i0].left == b.left;
    var i1 :| 0 <= i1 < |rs| && rs[i1].top == b.top;
    var i2 :| 0 <= i2 < |rs| && rs[i2].right == b.right;
    var i3 :| 0 <= i3 < |rs| && rs[i3].bottom == b.bottom;
    assert rs[i0].Contains(b.left, rs[i0].top);
    assert Covers(rs, b.left, rs[i0].top);
    assert rs[i1].Contains(rs[i1].left, b.top);
    assert Covers(rs, rs[i1].left, b.top);
    assert rs[i2].Contains(b.right - 1, rs[i2].top);
    assert Covers(rs, b.right - 1, rs[i2].top);
    assert rs[i3].Contains(rs[i3].left, b.bottom - 1);
    assert Covers(rs, rs[i3].left, b.bottom - 1);
  }

  /** The bounds depend only on the covered area, not on how it is split into rectangles. */
  lemma BoundsDependOnlyOnArea(a: seq<Rect>, b: seq<Rect>)
    requires AllNonEmpty(a) && AllNonEmpty(b)
    requires forall x, y :: Covers(a, x, y) <==> Covers(b, x, y)
    ensures BoundsOf(a) == BoundsOf(b)
  {
    EmptyListIffNoPoint(a);
    EmptyListIffNoPoint(b);
    if a != [] {
      EdgesWithin(a, b);
      EdgesWithin(b, a);
    }
  }

  /** Where `a` and `b` cover the same area, the bounds of `b` reach at least as far as those of `a`. */
  lemma EdgesWithin(a: seq<Rect>, b: seq<Rect>)
    requires AllNonEmpty(a) && AllNonEmpty(b) && a != [] && b != []
    requires forall x, y :: Covers(a, x, y) <==> Covers(b, x, y)
    ensures BoundsOf(a).Within(BoundsOf(b))
  {
    BoundsAreTight(a);
    BoundsAreTight(b);
    var ba := BoundsOf(a);
    var y0 :| Covers(a, ba.left, y0);
    var x1 :| Covers(a, x1, ba.top);
    var x2, y2 :| x2 + 1 == ba.right && Covers(a, x2, y2);
    var x3, y3 :| y3 + 1 == ba.bottom && Covers(a, x3, y3);
    assert Covers(b, ba.left, y0) && Covers(b, x1, ba.top);
    assert Covers(b, x2, y2) && Covers(b, x3, y3);
  }

  /**
   * A list is a single rectangle when it is non-empty and its bounds minus its
   * area leave nothing; this is the `isRect` of the canonical representation.
   */
  predicate IsSingleRect(rs: seq<Rect>)
    requires AllNonEmpty(rs)
  {
    rs != [] && Minus([BoundsOf(rs)], rs) == []
  }

  /** `IsSingleRect` holds exactly when the covered area equals the bounding box. */
  lemma SingleRectIffAreaIsBounds(rs: seq<Rect>)
    requires AllNonEmpty(rs)
    ensures IsSingleRect(rs) <==> rs != [] && forall x, y :: Covers(rs, x, y) <==> BoundsOf(rs).Contains(x, y)
  {
    if rs != [] {
      var b := BoundsOf(rs);
      BoundsAreTight(rs);
      assert !b.IsEmpty() by {
        assert rs[0].Within(b);
      }
      var m := Minus([b], rs);
      EmptyListIffNoPoint(m);
      CoversCons([b]);
    }
  }

  /** A list whose area is a non-empty rectangle `r` is a single rectangle with bounds `r`. */
  lemma AreaIsRect(rs: seq<Rect>, r: Rect)
    requires AllNonEmpty(rs) && !r.IsEmpty()
    requires forall x, y :: Covers(rs, x, y) <==> r.Contains(x, y)
    ensures IsSingleRect(rs) && BoundsOf(rs) == r
  {
    CoversCons([r]);
    BoundsDependOnlyOnArea(rs, [r]);
    SingleRectIffAreaIsBounds(rs);
  }

  /** An operation reports an empty result exactly when no point satisfies its pointwise rule. */
  lemma ResultEmptyIffNoPoint(op: Op, a: seq<Rect>, b: seq<Rect>)
    requires AllNonEmpty(a) && AllNonEmpty(b)
    ensures Combine(op, a, b) == [] <==> forall x, y :: !Apply(op, Covers(a, x, y), Covers(b, x, y))
  {
    EmptyListIffNoPoint(Combine(op, a, b));
  }

  /** Every operation on an empty receiver and an empty operand gives the empty region. */
  lemma EmptyOperandsGiveEmpty(op: Op, a: seq<Rect>, b: seq<Rect>)
    requires AllNonEmpty(a) && AllNonEmpty(b)
    requires forall x, y :: !Covers(a, x, y) && !Covers(b, x, y)
    ensures Combine(op, a, b) == []
  {
    ResultEmptyIffNoPoint(op, a, b);
  }

  /** INTERSECT with an operand that shares no point with the receiver is empty. */
  lemma IntersectDisjointIsEmpty(a: seq<Rect>, b: seq<Rect>)
    requires AllNonEmpty(a) && AllNonEmpty(b)
    requires forall x, y :: !(Covers(a, x, y) && Covers(b, x, y))
    ensures Combine(Intersect, a, b) == []
  {
    ResultEmptyIffNoPoint(Intersect, a, b);
  }

  /** REVERSE_DIFFERENCE with an operand inside the receiver is empty. */
  lemma ReverseDifferenceInsideIsEmpty(a: seq<Rect>, b: seq<Rect>)
    requires AllNonEmpty(a) && AllNonEmpty(b)
    requires forall x, y :: Covers(b, x, y) ==> Covers(a, x, y)
    ensures Combine(ReverseDifference, a, b) == []
  {
    ResultEmptyIffNoPoint(ReverseDifference, a, b);
  }

  /**
   * DIFFERENCE, UNION and XOR with an empty operand keep the receiver's area,
   * so they report a non-empty result exactly when the receiver is non-empty.
   */
  lemma EmptyOperandKeepsReceiver(op: Op, a: seq<Rect>, b: seq<Rect>)
    requires op == Difference || op == Union || op == Xor
    requires AllNonEmpty(a) && AllNonEmpty(b)
    requires forall x, y :: !Covers(b, x, y)
    ensures forall x, y :: Covers(Combine(op, a, b), x, y) <==> Covers(a, x, y)
    ensures Combine(op, a, b) == [] <==> a == []
  {
    ResultEmptyIffNoPoint(op, a, b);
    EmptyListIffNoPoint(a);
  }
}
