/**
 * Client code replaying the region scenarios of the flicker library's
 * `RegionTest`: each method performs the test's calls on a fresh `Region`
 * and asserts what the test asserts, from the operations' contracts alone.
 */
module RegionScenarios {
  import opened RectAlgebra
  import opened Regions

  const Rect2 := Rect(0, 0, 20, 20)
  const Rect3 := Rect(5, 5, 10, 10)
  const Rect4 := Rect(10, 10, 30, 30)
  const Rect5 := Rect(40, 40, 60, 60)

  /** testContains: after set(2, 2, 5, 5) the left/top edges are inside and the right/bottom edges are not. */
  method ContainsIsHalfOpen()
  {
    var region := new Region();
    var ok := region.SetBounds(2, 2, 5, 5);
    assert ok;
    assert !region.Contains(1, 1) && region.Contains(3, 3);
    assert region.Contains(2, 2) && region.Contains(2, 4) && region.Contains(4, 2) && region.Contains(4, 4);
    assert !region.Contains(5, 5) && !region.Contains(2, 5) && !region.Contains(5, 2);
    ok := region.SetBounds(6, 6, 8, 8);
    assert !region.Contains(3, 3) && region.Contains(7, 7);
  }

  /** testSet1-3 and testEmpty/testIsRect: set reports success and fixes the bounds; setEmpty empties. */
  method SetFixesBounds()
  {
    var region := new Region();
    assert region.IsEmpty() && !region.IsRect();
    var source := new Region.FromRect(Rect(1, 2, 3, 4));
    var ok := region.SetRegion(source);
    assert source.Contains(1, 2);
    assert ok && region.Bounds() == Rect(1, 2, 3, 4) by {
      AreaIsRect(source.rects, Rect(1, 2, 3, 4));
    }
    ok := region.Set(Rect(1, 2, 3, 4));
    assert ok && region.Bounds() == Rect(1, 2, 3, 4) && region.IsRect();
    region.SetEmpty();
    assert region.IsEmpty();
  }

  /** The bounds of any list covering the squares (1, 1, 2, 2) and (3, 3, 5, 5). */
  lemma TwoSquaresBounds(rs: seq<Rect>)
    requires AllNonEmpty(rs)
    requires forall x, y :: Covers(rs, x, y) <==> Rect(1, 1, 2, 2).Contains(x, y) || Rect(3, 3, 5, 5).Contains(x, y)
    ensures BoundsOf(rs) == Rect(1, 1, 5, 5)
  {
    var parts := [Rect(1, 1, 2, 2), Rect(3, 3, 5, 5)];
    CoversCons(parts);
    CoversCons(parts[1..]);
    assert parts[1..] == [Rect(3, 3, 5, 5)];
    BoundsDependOnlyOnArea(rs, parts);
  }

  /** testIsComplex, first half: empty and single-rectangle regions are not complex. */
  method EmptyAndRectAreNotComplex()
  {
    var region := new Region();
    assert !region.IsComplex();
    var ok := region.SetBounds(1, 2, 3, 4);
    assert !region.IsComplex();
  }

  /** testIsComplex, second half: the union of two disjoint squares is complex. */
  method UnionWithDisjointRectIsComplex()
  {
    var region := new Region();
    var ok := region.SetBounds(1, 1, 2, 2);
    ok := region.Union(Rect(3, 3, 5, 5));
    assert forall x, y :: region.Contains(x, y) <==> Rect(1, 1, 2, 2).Contains(x, y) || Rect(3, 3, 5, 5).Contains(x, y);
    TwoSquaresBounds(region.rects);
    assert !region.Contains(1, 3);
    assert region.IsComplex();
  }

  /** verifyNullRegionOp1: every operation of an empty region with an empty rectangle fails. */
  method EmptyWithEmpty(op: Op)
  {
    var region := new Region();
    var ok := region.OpRect(Rect(0, 0, 0, 0), op);
    assert !ok by {
      forall x, y ensures !region.Contains(x, y) {
        assert !Rect(0, 0, 0, 0).Contains(x, y);
      }
    }
  }

  /** verifyDifferenceOp1, case 1: subtracting a rectangle inside the region leaves a frame. */
  method DifferenceInside()
  {
    var region := new Region();
    var ok := region.Set(Rect2);
    ok := region.OpRect(Rect3, Difference);
    assert region.Contains(0, 0);
    assert ok;
    assert region.Contains(0, 0);
    assert region.Contains(4, 4);
    assert region.Contains(10, 10);
    assert region.Contains(19, 19);
    assert region.Contains(19, 0);
    assert region.Contains(10, 4);
    assert region.Contains(4, 10);
    assert region.Contains(0, 19);
    assert !region.Contains(5, 5);
    assert !region.Contains(9, 9);
    assert !region.Contains(9, 5);
    assert !region.Contains(5, 9);
  }

  /** verifyIntersectOp1: an empty or disjoint operand fails, an overlapping one keeps the overlap. */
  method IntersectCases()
  {
    var region := new Region();
    var ok := region.Set(Rect2);
    ok := region.OpRect(Rect(0, 0, 0, 0), Intersect);
    assert !ok by {
      forall x, y ensures !region.Contains(x, y) {
        assert !Rect(0, 0, 0, 0).Contains(x, y);
      }
    }
    ok := region.Set(Rect2);
    ok := region.OpRect(Rect4, Intersect);
    assert region.Contains(10, 10);
    assert region.Contains(19, 10);
    assert region.Contains(10, 19);
    assert region.Contains(19, 19);
    assert !region.Contains(0, 0);
    assert !region.Contains(19, 0);
    assert !region.Contains(9, 9);
    assert !region.Contains(19, 9);
    assert !region.Contains(0, 19);
    assert !region.Contains(9, 19);
    assert !region.Contains(29, 10);
    assert !region.Contains(29, 29);
    assert !region.Contains(10, 29);
    ok := region.Set(Rect2);
    ok := region.OpRect(Rect5, Intersect);
    assert !ok by {
      forall x, y ensures !region.Contains(x, y) {
        assert !(Rect2.Contains(x, y) && Rect5.Contains(x, y));
      }
    }
  }

  /** verifyUnionOp1, case 2: union with an overlapping rectangle. */
  method UnionOverlap()
  {
    var region := new Region();
    var ok := region.Set(Rect2);
    ok := region.OpRect(Rect4, Op.Union);
    assert region.Contains(0, 0);
    assert region.Contains(2, 2);
    assert region.Contains(19, 0);
    assert region.Contains(9, 9);
    assert region.Contains(19, 9);
    assert region.Contains(0, 19);
    assert region.Contains(9, 19);
    assert region.Contains(21, 21);
    assert region.Contains(10, 10);
    assert region.Contains(19, 10);
    assert region.Contains(10, 19);
    assert region.Contains(19, 19);
    assert region.Contains(29, 10);
    assert region.Contains(29, 29);
    assert region.Contains(10, 29);
    assert !region.Contains(0, 29);
    assert !region.Contains(0, 20);
    assert !region.Contains(9, 29);
    assert !region.Contains(9, 20);
    assert !region.Contains(29, 0);
    assert !region.Contains(20, 0);
    assert !region.Contains(29, 9);
    assert !region.Contains(20, 9);
  }

  /** verifyXorOp1, case 2: exclusive-or with an overlapping rectangle. */
  method XorOverlap()
  {
    var region := new Region();
    var ok := region.Set(Rect2);
    ok := region.OpRect(Rect4, Xor);
    assert region.Contains(0, 0);
    assert region.Contains(2, 2);
    assert region.Contains(19, 0);
    assert region.Contains(9, 9);
    assert region.Contains(19, 9);
    assert region.Contains(0, 19);
    assert region.Contains(9, 19);
    assert region.Contains(21, 21);
    assert region.Contains(29, 10);
    assert region.Contains(10, 29);
    assert region.Contains(20, 10);
    assert region.Contains(10, 20);
    assert region.Contains(20, 20);
    assert region.Contains(29, 29);
    assert !region.Contains(10, 10);
    assert !region.Contains(11, 11);
    assert !region.Contains(19, 10);
    assert !region.Contains(10, 19);
    assert !region.Contains(19, 19);
  }

  /** verifyReverseDifferenceOp1: an operand inside the region fails; an overlapping one keeps its outer part. */
  method ReverseDifferenceCases()
  {
    var region := new Region();
    var ok := region.Set(Rect2);
    ok := region.OpRect(Rect3, ReverseDifference);
    assert !ok by {
      forall x, y ensures !region.Contains(x, y) {
        assert Rect3.Contains(x, y) ==> Rect2.Contains(x, y);
      }
    }
    ok := region.Set(Rect2);
    ok := region.OpRect(Rect4, ReverseDifference);
    assert region.Contains(29, 10);
    assert ok;
    assert region.Contains(29, 10);
    assert region.Contains(10, 29);
    assert region.Contains(20, 10);
    assert region.Contains(10, 20);
    assert region.Contains(20, 20);
    assert region.Contains(29, 29);
    assert region.Contains(21, 21);
    assert !region.Contains(0, 0);
    assert !region.Contains(19, 0);
    assert !region.Contains(0, 19);
    assert !region.Contains(19, 19);
    assert !region.Contains(2, 2);
    assert !region.Contains(11, 11);
  }

  /** verifyReplaceOp1: REPLACE fails on an empty rectangle and otherwise takes the operand's bounds. */
  method ReplaceCases()
  {
    var region := new Region();
    var ok := region.Set(Rect2);
    ok := region.OpRect(Rect(0, 0, 0, 0), Replace);
    assert !ok;
    ok := region.Set(Rect2);
    assert region.Bounds() == Rect2;
    ok := region.OpRect(Rect3, Replace);
    assert ok && region.Bounds() == Rect3;
    ok := region.Set(Rect2);
    ok := region.OpRect(Rect5, Replace);
    assert ok && region.Bounds() == Rect5;
  }

  /** verifyDifferenceOp4: op(rect, region, kind) ignores what the receiver held. */
  method ThreeArgumentOpIgnoresReceiver()
  {
    var region := new Region();
    var ok := region.Set(Rect(0, 0, 0, 0));
    var region3 := new Region.FromRect(Rect3);
    ok := region.OpRectRegion(Rect2, region3, Difference);
    assert region.Contains(0, 0);
    assert ok;
    assert region.Contains(0, 0);
    assert region.Contains(4, 4);
    assert region.Contains(10, 10);
    assert region.Contains(19, 19);
    assert region.Contains(19, 0);
    assert region.Contains(10, 4);
    assert region.Contains(4, 10);
    assert region.Contains(0, 19);
    assert !region.Contains(5, 5);
    assert !region.Contains(9, 9);
    assert !region.Contains(9, 5);
    assert !region.Contains(5, 9);
  }

  /** verifyNullRegionOp5: op(region, region1, kind) may name the receiver itself as an operand. */
  method ReceiverAsOperand(op: Op)
  {
    var region := new Region();
    var region1 := new Region();
    var ok := region.OpRegions(region, region1, op);
    assert !ok by {
      forall x, y ensures !region.Contains(x, y) {
        assert Apply(op, false, false) == false;
      }
    }
  }
}
