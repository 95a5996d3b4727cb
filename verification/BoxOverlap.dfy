/** Intersection-over-union of two axis-aligned boxes (`bbox_iou`), over the reals. */
module BoxOverlap {
  import opened Rounding

  /** Corners `[x0, y0, x1, y1]`; nothing forces `x0 <= x1` or `y0 <= y1`. */
  datatype Box = Box(x0: real, y0: real, x1: real, y1: real)

  /** Length of a side; an inverted side has length 0. */
  function Side(lo: real, hi: real): real { Max(0.0, hi - lo) }

  function Area(b: Box): real { Side(b.x0, b.x1) * Side(b.y0, b.y1) }

  function Overlap(a: Box, b: Box): Box {
    Box(Max(a.x0, b.x0), Max(a.y0, b.y0), Min(a.x1, b.x1), Min(a.y1, b.y1))
  }

  function Iou(a: Box, b: Box): real {
    var inter := Area(Overlap(a, b));
    if inter <= 0.0 then 0.0
    else
      var union := Area(a) + Area(b) - inter;
      if union <= 0.0 then 0.0 else inter / union
  }

  /** The open interiors of the two boxes share a point. */
  ghost predicate InteriorsMeet(a: Box, b: Box) {
    exists x: real, y: real :: Inside(a, x, y) && Inside(b, x, y)
  }

  ghost predicate Inside(b: Box, x: real, y: real) {
    b.x0 < x < b.x1 && b.y0 < y < b.y1
  }

  lemma ProductMonotone(a: real, b: real, c: real, d: real)
    requires 0.0 <= a <= c && 0.0 <= b <= d
    ensures 0.0 <= a * b <= c * d
  {
    assert a * b <= c * b;
    assert c * b <= c * d;
  }

  lemma ProductStrict(a: real, b: real, c: real, d: real)
    requires 0.0 < a <= c && 0.0 < b <= d
    ensures a * b == c * d ==> a == c && b == d
  {
    if a < c {
      assert a * b < c * b;
      assert c * b <= c * d;
    } else if b < d {
      assert a * b < a * d;
    }
  }

  lemma PositiveProduct(a: real, b: real)
    requires 0.0 <= a && 0.0 <= b
    ensures a * b > 0.0 <==> a > 0.0 && b > 0.0
  {
  }

  /** The overlap is no larger than either box. */
  lemma OverlapFits(a: Box, b: Box)
    ensures 0.0 <= Area(Overlap(a, b)) <= Area(a)
    ensures Area(Overlap(a, b)) <= Area(b)
  {
    var o := Overlap(a, b);
    ProductMonotone(Side(o.x0, o.x1), Side(o.y0, o.y1), Side(a.x0, a.x1), Side(a.y0, a.y1));
    ProductMonotone(Side(o.x0, o.x1), Side(o.y0, o.y1), Side(b.x0, b.x1), Side(b.y0, b.y1));
  }

  /** Once the overlap is positive the union is too, so the second guard never fires. */
  lemma UnionGuardUnreachable(a: Box, b: Box)
    requires Area(Overlap(a, b)) > 0.0
    ensures Area(a) + Area(b) - Area(Overlap(a, b)) >= Area(Overlap(a, b)) > 0.0
    ensures Iou(a, b) * (Area(a) + Area(b) - Area(Overlap(a, b))) == Area(Overlap(a, b))
  {
    OverlapFits(a, b);
  }

  /** `o` spans from the later start to the earlier end of `a` and `b`, on both axes. */
  ghost predicate Common(a: Box, b: Box, o: Box) {
    && o.x0 in {a.x0, b.x0} && o.x0 >= a.x0 && o.x0 >= b.x0 && o.x1 in {a.x1, b.x1} && o.x1 <= a.x1 && o.x1 <= b.x1
    && o.y0 in {a.y0, b.y0} && o.y0 >= a.y0 && o.y0 >= b.y0 && o.y1 in {a.y1, b.y1} && o.y1 <= a.y1 && o.y1 <= b.y1
  }

  /** Width times height. */
  function Extent(b: Box): real { (b.x1 - b.x0) * (b.y1 - b.y0) }

  /** The value: common area over the area of either, when the common part is not empty. */
  lemma IouIsShare(a: Box, b: Box, o: Box)
    requires Common(a, b, o) && o.x0 < o.x1 && o.y0 < o.y1
    ensures var either := Extent(a) + Extent(b) - Extent(o); either > 0.0 && Iou(a, b) * either == Extent(o)
  {
    assert a.x0 < a.x1 && a.y0 < a.y1 && b.x0 < b.x1 && b.y0 < b.y1;
    hide Area, Iou, Overlap, Extent;
    CommonIsOverlap(a, b, o);
    AreaOf(a);
    AreaOf(b);
    AreaOf(o);
    UnionGuardUnreachable(a, b);
  }

  lemma CommonIsOverlap(a: Box, b: Box, o: Box)
    requires Common(a, b, o)
    ensures Overlap(a, b) == o
  {
  }

  lemma AreaOf(b: Box)
    requires b.x0 < b.x1 && b.y0 < b.y1
    ensures Area(b) == Extent(b) > 0.0
  {
    PositiveProduct(b.x1 - b.x0, b.y1 - b.y0);
  }

  lemma IouBounds(a: Box, b: Box)
    ensures 0.0 <= Iou(a, b) <= 1.0
  {
    OverlapFits(a, b);
    if Area(Overlap(a, b)) > 0.0 {
      QuotientAtMostOne(Area(Overlap(a, b)), Area(a) + Area(b) - Area(Overlap(a, b)));
    }
  }

  lemma QuotientAtMostOne(p: real, q: real)
    requires 0.0 < p <= q
    ensures 0.0 < p / q <= 1.0
    ensures p / q == 1.0 <==> p == q
  {
    assert (p / q) * q == p;
  }

  lemma IouSymmetric(a: Box, b: Box)
    ensures Iou(a, b) == Iou(b, a)
  {
    assert Overlap(a, b) == Overlap(b, a);
  }

  /** A box whose overlap has the same positive area is that overlap. */
  lemma FullOverlap(a: Box, o: Box)
    requires 0.0 < Side(o.x0, o.x1) <= Side(a.x0, a.x1) && 0.0 < Side(o.y0, o.y1) <= Side(a.y0, a.y1)
    requires a.x0 <= o.x0 && a.y0 <= o.y0 && o.x1 <= a.x1 && o.y1 <= a.y1
    ensures Area(o) == Area(a) ==> o == a
  {
    ProductStrict(Side(o.x0, o.x1), Side(o.y0, o.y1), Side(a.x0, a.x1), Side(a.y0, a.y1));
  }

  /** IoU 1 identifies a box exactly: both are the same box of positive area. */
  lemma IouOneIffSameBox(a: Box, b: Box)
    ensures Iou(a, b) == 1.0 <==> a == b && Area(a) > 0.0
  {
    var o := Overlap(a, b);
    OverlapFits(a, b);
    if a == b {
      assert o == a;
    }
    if Area(o) > 0.0 {
      QuotientAtMostOne(Area(o), Area(a) + Area(b) - Area(o));
      PositiveProduct(Side(o.x0, o.x1), Side(o.y0, o.y1));
      FullOverlap(a, o);
      FullOverlap(b, o);
    }
  }

  /** IoU is positive exactly when the interiors share a point, so it is 0 for every empty or inverted box. */
  lemma IouPositiveIffInteriorsMeet(a: Box, b: Box)
    ensures Iou(a, b) > 0.0 <==> InteriorsMeet(a, b)
    ensures Area(a) == 0.0 || Area(b) == 0.0 ==> Iou(a, b) == 0.0
  {
    var o := Overlap(a, b);
    OverlapFits(a, b);
    PositiveProduct(Side(o.x0, o.x1), Side(o.y0, o.y1));
    if Area(o) > 0.0 {
      QuotientAtMostOne(Area(o), Area(a) + Area(b) - Area(o));
      var x, y := (o.x0 + o.x1) / 2.0, (o.y0 + o.y1) / 2.0;
      assert Inside(a, x, y) && Inside(b, x, y);
    }
  }
}
