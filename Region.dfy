/**
 * The flicker library's mutable `Region`: a set of integer rectangles that
 * every operation replaces in place.  Each mutating operation rebuilds the
 * rectangle list wholesale from the operands and reports whether the result
 * is non-empty.
 */
module Regions {
  import opened RectAlgebra

  class Region {
    /** The rectangles whose union is the region's area; none of them is empty. */
    var rects: seq<Rect>

    ghost predicate Valid()
      reads this
    {
      AllNonEmpty(rects)
    }

    /** `contains(x, y)`: half-open point membership. */
    predicate Contains(x: int, y: int)
      reads this
    {
      Covers(rects, x, y)
    }

    /** `Region()`: the empty region. */
    constructor ()
      ensures Valid() && rects == []
    {
      rects := [];
    }

    /** `Region.from(rect)`. */
    constructor FromRect(r: Rect)
      ensures Valid()
      ensures forall x, y :: Contains(x, y) <==> r.Contains(x, y)
    {
      rects := Keep([r]);
      new;
      CoversCons([r]);
    }

    /** `Region.from(left, top, right, bottom)`. */
    constructor FromBounds(left: int, top: int, right: int, bottom: int)
      ensures Valid()
      ensures forall x, y :: Contains(x, y) <==> Rect(left, top, right, bottom).Contains(x, y)
    {
      rects := Keep([Rect(left, top, right, bottom)]);
      new;
      CoversCons([Rect(left, top, right, bottom)]);
    }

    /** `Region.from(region)`: a copy that shares nothing with the original. */
    constructor FromRegion(other: Region)
      requires other.Valid()
      ensures Valid()
      ensures forall x, y :: Contains(x, y) <==> other.Contains(x, y)
      ensures Bounds() == other.Bounds()
    {
      rects := other.rects;
    }

    /** `isEmpty`: the region has no point. */
    function IsEmpty(): (empty: bool)
      reads this
      requires Valid()
      ensures empty <==> forall x, y :: !Contains(x, y)
    {
      EmptyListIffNoPoint(rects);
      assert (forall x, y :: !Contains(x, y)) ==> rects == [] by {
        if forall x, y :: !Contains(x, y) {
          forall x, y ensures !Covers(rects, x, y) {
            assert !Contains(x, y);
          }
        }
      }
      rects == []
    }

    /** `bounds`: the smallest rectangle holding the region; (0, 0, 0, 0) when it is empty. */
    function Bounds(): (b: Rect)
      reads this
      requires Valid()
      ensures IsEmpty() ==> b == EmptyRect
      ensures forall x, y :: Contains(x, y) ==> b.Contains(x, y)
      ensures !IsEmpty() ==> exists y :: Contains(b.left, y)
      ensures !IsEmpty() ==> exists x :: Contains(x, b.top)
      ensures !IsEmpty() ==> exists x, y :: x + 1 == b.right && Contains(x, y)
      ensures !IsEmpty() ==> exists x, y :: y + 1 == b.bottom && Contains(x, y)
    {
      var b := BoundsOf(rects);
      if rects == [] then b
      else
        BoundsAreTight(rects);
        assert exists y :: Contains(b.left, y) by {
          var y :| Covers(rects, b.left, y);
          assert Contains(b.left, y);
        }
        assert exists x :: Contains(x, b.top) by {
          var x :| Covers(rects, x, b.top);
          assert Contains(x, b.top);
        }
        assert exists x, y :: x + 1 == b.right && Contains(x, y) by {
          var x, y :| x + 1 == b.right && Covers(rects, x, y);
          assert Contains(x, y);
        }
        assert exists x, y :: y + 1 == b.bottom && Contains(x, y) by {
          var x, y :| y + 1 == b.bottom && Covers(rects, x, y);
          assert Contains(x, y);
        }
        b
    }

    /** `isRect`: the region is exactly one non-empty rectangle. */
    function IsRect(): (single: bool)
      reads this
      requires Valid()
      ensures single <==> !IsEmpty() && forall x, y :: Contains(x, y) <==> Bounds().Contains(x, y)
    {
      SingleRectIffAreaIsBounds(rects);
      IsSingleRect(rects)
    }

    /** `isComplex`: more than one rectangle is needed, i.e. the region is neither empty nor a rectangle. */
    function IsComplex(): (complex: bool)
      reads this
      requires Valid()
      ensures complex <==> !IsEmpty() && exists x, y :: Bounds().Contains(x, y) && !Contains(x, y)
    {
      SingleRectIffAreaIsBounds(rects);
      rects != [] && !IsSingleRect(rects)
    }

    /** `setEmpty()`. */
    method SetEmpty()
      modifies this
      ensures Valid() && IsEmpty()
    {
      rects := [];
    }

    /** `set(rect)`: the region becomes `r`; returns whether it is non-empty. */
    method Set(r: Rect) returns (nonEmpty: bool)
      modifies this
      ensures Valid()
      ensures forall x, y :: Contains(x, y) <==> r.Contains(x, y)
      ensures nonEmpty == !IsEmpty() && nonEmpty == !r.IsEmpty()
      ensures nonEmpty ==> IsRect() && Bounds() == r
    {
      rects := Keep([r]);
      CoversCons([r]);
      EmptyIffNoPoint(r);
      EmptyListIffNoPoint(rects);
      nonEmpty := rects != [];
      if nonEmpty {
        AreaIsRect(rects, r);
      }
    }

    /** `set(left, top, right, bottom)`. */
    method SetBounds(left: int, top: int, right: int, bottom: int) returns (nonEmpty: bool)
      modifies this
      ensures Valid()
      ensures forall x, y :: Contains(x, y) <==> Rect(left, top, right, bottom).Contains(x, y)
      ensures nonEmpty == !IsEmpty() && nonEmpty == !Rect(left, top, right, bottom).IsEmpty()
      ensures nonEmpty ==> IsRect() && Bounds() == Rect(left, top, right, bottom)
    {
      nonEmpty := Set(Rect(left, top, right, bottom));
    }

    /** `set(region)`: the region becomes a copy of `other` (which may be this region itself). */
    method SetRegion(other: Region) returns (nonEmpty: bool)
      requires other.Valid()
      modifies this
      ensures Valid()
      ensures forall x, y :: Contains(x, y) <==> old(other.Contains(x, y))
      ensures Bounds() == old(other.Bounds())
      ensures nonEmpty == !IsEmpty()
    {
      rects := other.rects;
      nonEmpty := rects != [];
    }

    /** `op(rect, kind)`: the region becomes `this kind r`. */
    method OpRect(r: Rect, op: Op) returns (nonEmpty: bool)
      requires Valid()
      modifies this
      ensures Valid()
      ensures forall x, y :: Contains(x, y) <==> Apply(op, old(Contains(x, y)), r.Contains(x, y))
      ensures nonEmpty == !IsEmpty()
      ensures op == Replace ==> (nonEmpty <==> !r.IsEmpty()) && (nonEmpty ==> Bounds() == r)
    {
      var operand := Keep([r]);
      CoversCons([r]);
      rects := Combine(op, rects, operand);
      nonEmpty := rects != [];
      if op == Replace {
        EmptyIffNoPoint(r);
        EmptyListIffNoPoint(rects);
        if nonEmpty {
          AreaIsRect(rects, r);
        }
      }
    }

    /** `union(rect)`, the same as `op(rect, UNION)`. */
    method Union(r: Rect) returns (nonEmpty: bool)
      requires Valid()
      modifies this
      ensures Valid()
      ensures forall x, y :: Contains(x, y) <==> old(Contains(x, y)) || r.Contains(x, y)
      ensures nonEmpty == !IsEmpty()
    {
      nonEmpty := OpRect(r, Op.Union);
    }

    /** `op(left, top, right, bottom, kind)`. */
    method OpBounds(left: int, top: int, right: int, bottom: int, op: Op) returns (nonEmpty: bool)
      requires Valid()
      modifies this
      ensures Valid()
      ensures forall x, y :: Contains(x, y) <==> Apply(op, old(Contains(x, y)), Rect(left, top, right, bottom).Contains(x, y))
      ensures nonEmpty == !IsEmpty()
      ensures op == Replace ==> (nonEmpty <==> !Rect(left, top, right, bottom).IsEmpty())
      ensures op == Replace && nonEmpty ==> Bounds() == Rect(left, top, right, bottom)
    {
      nonEmpty := OpRect(Rect(left, top, right, bottom), op);
    }

    /** `op(region, kind)`: the region becomes `this kind other`; `other` may be this region. */
    method OpRegion(other: Region, op: Op) returns (nonEmpty: bool)
      requires Valid() && other.Valid()
      modifies this
      ensures Valid()
      ensures forall x, y :: Contains(x, y) <==> Apply(op, old(Contains(x, y)), old(other.Contains(x, y)))
      ensures nonEmpty == !IsEmpty()
      ensures op == Replace ==> Bounds() == old(other.Bounds())
    {
      rects := Combine(op, rects, other.rects);
      nonEmpty := rects != [];
    }

    /** `op(rect, region, kind)`: the region becomes `a kind b`, whatever it held before. */
    method OpRectRegion(a: Rect, b: Region, op: Op) returns (nonEmpty: bool)
      requires b.Valid()
      modifies this
      ensures Valid()
      ensures forall x, y :: Contains(x, y) <==> Apply(op, a.Contains(x, y), old(b.Contains(x, y)))
      ensures nonEmpty == !IsEmpty()
    {
      var first := Keep([a]);
      CoversCons([a]);
      rects := Combine(op, first, b.rects);
      nonEmpty := rects != [];
    }

    /** `op(region, region, kind)`: the region becomes `a kind b`; either may be this region. */
    method OpRegions(a: Region, b: Region, op: Op) returns (nonEmpty: bool)
      requires a.Valid() && b.Valid()
      modifies this
      ensures Valid()
      ensures forall x, y :: Contains(x, y) <==> Apply(op, old(a.Contains(x, y)), old(b.Contains(x, y)))
      ensures nonEmpty == !IsEmpty()
    {
      rects := Combine(op, a.rects, b.rects);
      nonEmpty := rects != [];
    }
  }
}
