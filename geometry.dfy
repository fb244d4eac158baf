/**
 * geometry.c: predicates and measures on X rectangles.
 *
 * An xcb_rectangle_t has signed 16-bit x and y and unsigned 16-bit width and
 * height; an xcb_point_t has signed 16-bit coordinates. Sums such as
 * `r.x + r.width` are computed in C's `int`, so they do not wrap, but the
 * far corner `r_max` that boundary_distance and on_dir_side build is stored
 * in an xcb_point_t and therefore wraps to 16 bits; `Corner` models that.
 */
module Geometry {
  import opened Types

  newtype Int16 = v: int | -0x8000 <= v < 0x8000
  newtype UInt16 = v: int | 0 <= v < 0x1_0000

  datatype Point = Point(x: Int16, y: Int16)
  datatype Rect = Rect(x: Int16, y: Int16, width: UInt16, height: UInt16)

  const UInt32Modulus: int := 0x1_0000_0000

  /** The value an `int` takes once stored in a signed 16-bit field. */
  function ToInt16(v: int): (r: Int16)
    ensures (r as int - v) % 0x1_0000 == 0
    ensures -0x8000 <= v < 0x8000 ==> r as int == v
  {
    ((v + 0x8000) % 0x1_0000 - 0x8000) as Int16
  }

  /** The value an `int` takes once converted to a 32-bit signed `int`
      (two's complement). */
  function ToInt32(v: int): (r: int)
    ensures -0x8000_0000 <= r < 0x8000_0000
    ensures (r - v) % UInt32Modulus == 0
    ensures -0x8000_0000 <= v < 0x8000_0000 ==> r == v
  {
    (v + 0x8000_0000) % UInt32Modulus - 0x8000_0000
  }

  /** The bottom-right pixel `{r.x + r.width - 1, r.y + r.height - 1}` as an xcb_point_t. */
  function Corner(r: Rect): Point
  {
    Point(ToInt16(r.x as int + r.width as int - 1), ToInt16(r.y as int + r.height as int - 1))
  }

  /** The far corner of `r` fits in 16 bits, so `Corner` does not wrap. */
  predicate NoWrap(r: Rect)
  {
    && -0x8000 <= r.x as int + r.width as int - 1 < 0x8000
    && -0x8000 <= r.y as int + r.height as int - 1 < 0x8000
  }

  predicate NonEmpty(r: Rect) { r.width > 0 && r.height > 0 }

  /** is_inside: left and top edges inclusive, right and bottom edges exclusive. */
  predicate IsInside(p: Point, r: Rect)
  {
    p.x >= r.x && (p.x as int) < r.x as int + r.width as int
    && p.y >= r.y && (p.y as int) < r.y as int + r.height as int
  }

  /** contains: every edge of `b` lies within `a`, edges included. */
  predicate Contains(a: Rect, b: Rect)
  {
    a.x <= b.x && a.x as int + a.width as int >= b.x as int + b.width as int
    && a.y <= b.y && a.y as int + a.height as int >= b.y as int + b.height as int
  }

  /** area: width times height; it always fits an unsigned 32-bit int. */
  function Area(r: Rect): (a: nat)
    ensures a < UInt32Modulus
    ensures a == 0 <==> r.width == 0 || r.height == 0
  {
    AreaBound(r.width as nat, r.height as nat);
    r.width as nat * r.height as nat
  }

  lemma AreaBound(w: nat, h: nat)
    requires w < 0x1_0000 && h < 0x1_0000
    ensures w * h < 0x1_0000_0000
  {
    MulMono(w, 0xFFFF, h, 0xFFFF);
  }

  lemma MulMono(a: nat, b: nat, c: nat, d: nat)
    requires a <= b && c <= d
    ensures a * c <= b * d
  {
    assert a * c <= b * c;
    assert b * c <= b * d;
  }

  /** rect_eq: field-wise equality. */
  predicate RectEq(a: Rect, b: Rect)
  {
    a.x == b.x && a.y == b.y && a.width == b.width && a.height == b.height
  }

  /**
   * boundary_distance: the distance between r1's edge facing `dir` and the
   * opposite edge of r2, as an unsigned 32-bit value.
   */
  function BoundaryDistance(r1: Rect, r2: Rect, dir: Direction): (d: nat)
    ensures d < 0x1_0000
  {
    var r1Max := Corner(r1);
    var r2Max := Corner(r2);
    match dir
    case North => Distance(r2Max.y, r1.y)
    case West => Distance(r2Max.x, r1.x)
    case South => Distance(r1Max.y, r2.y)
    case East => Distance(r1Max.x, r2.x)
  }

  /** `a > b ? a - b : b - a` on two 16-bit coordinates. */
  function Distance(a: Int16, b: Int16): (d: nat)
    ensures d < 0x1_0000
    ensures d as int == a as int - b as int || d as int == b as int - a as int
  {
    if a > b then (a as int - b as int) as nat else (b as int - a as int) as nat
  }

  /** Measuring North from r1 to r2 is measuring South from r2 to r1, and
      likewise West and East. */
  lemma BoundaryDistanceOpposite(r1: Rect, r2: Rect)
    ensures BoundaryDistance(r1, r2, North) == BoundaryDistance(r2, r1, South)
    ensures BoundaryDistance(r1, r2, West) == BoundaryDistance(r2, r1, East)
  {
  }

  /** Without wrap-around, North measures |bottom of r2 - top of r1|. */
  lemma BoundaryDistanceNorth(r1: Rect, r2: Rect)
    requires NoWrap(r2)
    ensures var bottom := r2.y as int + r2.height as int - 1;
      BoundaryDistance(r1, r2, North) as int
        == if bottom > r1.y as int then bottom - r1.y as int else r1.y as int - bottom
  {
  }

  /** First step of on_dir_side: is r2 on the `dir` side of r1 at all? */
  predicate SideTest(r1: Rect, r2: Rect, dir: Direction, tightness: Tightness)
  {
    var r1Max := Corner(r1);
    var r2Max := Corner(r2);
    match tightness
    case Low =>
      (match dir
       case North => !(r2.y > r1Max.y)
       case West => !(r2.x > r1Max.x)
       case South => !(r2Max.y < r1.y)
       case East => !(r2Max.x < r1.x))
    case High =>
      (match dir
       case North => !(r2.y >= r1.y)
       case West => !(r2.x >= r1.x)
       case South => !(r2Max.y <= r1Max.y)
       case East => !(r2Max.x <= r1Max.x))
  }

  /** Second step of on_dir_side: do r1 and r2 share a range on the axis
      perpendicular to `dir`? The third disjunct is not the same on both axes. */
  predicate SharedRange(r1: Rect, r2: Rect, dir: Direction)
  {
    var r1Max := Corner(r1);
    var r2Max := Corner(r2);
    if dir == North || dir == South then
      (r2.x >= r1.x && r2.x <= r1Max.x)
      || (r2Max.x >= r1.x && r2Max.x <= r1Max.x)
      || (r1.x > r2.x && r1.x < r2Max.x)
    else
      (r2.y >= r1.y && r2.y <= r1Max.y)
      || (r2Max.y >= r1.y && r2Max.y <= r1Max.y)
      || (r1.y > r2.y && r1Max.y < r2Max.y)
  }

  /** on_dir_side(r1, r2, dir) under the directional_focus_tightness setting. */
  predicate OnDirSide(r1: Rect, r2: Rect, dir: Direction, tightness: Tightness): (b: bool)
    ensures b && NonEmpty(r1) && NonEmpty(r2) && NoWrap(r1) && NoWrap(r2) && (dir == North || dir == South) ==>
      Overlap(r1.x as int, r1.x as int + r1.width as int - 1, r2.x as int, r2.x as int + r2.width as int - 1)
    ensures b && NonEmpty(r1) && NonEmpty(r2) && NoWrap(r1) && NoWrap(r2) && (dir == West || dir == East) ==>
      Overlap(r1.y as int, r1.y as int + r1.height as int - 1, r2.y as int, r2.y as int + r2.height as int - 1)
    ensures b && tightness == High && dir == North ==> r2.y < r1.y
    ensures b && tightness == High && dir == West ==> r2.x < r1.x
    ensures b && NonEmpty(r1) && NoWrap(r1) && dir == North ==> r2.y as int < r1.y as int + r1.height as int
    ensures b && NonEmpty(r1) && NoWrap(r1) && dir == West ==> r2.x as int < r1.x as int + r1.width as int
  {
    SideTest(r1, r2, dir, tightness) && SharedRange(r1, r2, dir)
  }

  /** The closed pixel ranges [lo1, hi1] and [lo2, hi2] intersect. */
  predicate Overlap(lo1: int, hi1: int, lo2: int, hi2: int)
  {
    (if lo1 > lo2 then lo1 else lo2) <= (if hi1 < hi2 then hi1 else hi2)
  }

  /**
   * For non-empty rectangles whose corners do not wrap, both forms of the
   * shared-range test are exactly "the pixel ranges on the other axis meet".
   */
  lemma SharedRangeIsOverlap(r1: Rect, r2: Rect, dir: Direction)
    requires NonEmpty(r1) && NonEmpty(r2) && NoWrap(r1) && NoWrap(r2)
    ensures (dir == North || dir == South) ==>
      (SharedRange(r1, r2, dir) <==>
        Overlap(r1.x as int, r1.x as int + r1.width as int - 1, r2.x as int, r2.x as int + r2.width as int - 1))
    ensures (dir == West || dir == East) ==>
      (SharedRange(r1, r2, dir) <==>
        Overlap(r1.y as int, r1.y as int + r1.height as int - 1, r2.y as int, r2.y as int + r2.height as int - 1))
  {
  }

  /** Passing the high-tightness test implies passing the low one, for a
      non-empty r1 whose corner does not wrap. */
  lemma HighImpliesLow(r1: Rect, r2: Rect, dir: Direction)
    requires NonEmpty(r1) && NoWrap(r1)
    ensures OnDirSide(r1, r2, dir, High) ==> OnDirSide(r1, r2, dir, Low)
  {
  }

  /** A rectangle half-overlapping from below is North of r1 only at low tightness. */
  lemma TightnessExample()
    ensures var r1 := Rect(0, 0, 100, 100);
      var r2 := Rect(0, 50, 100, 100);
      !OnDirSide(r1, r2, North, High) && OnDirSide(r1, r2, North, Low)
  {
  }

  /** contains is reflexive, transitive and antisymmetric up to rect_eq. */
  lemma ContainsOrder(a: Rect, b: Rect, c: Rect)
    ensures Contains(a, a)
    ensures Contains(a, b) && Contains(b, c) ==> Contains(a, c)
    ensures Contains(a, b) && Contains(b, a) ==> RectEq(a, b)
  {
  }

  /** A point inside a contained rectangle is inside the containing one, and
      a contained rectangle has no larger area. */
  lemma ContainsInside(a: Rect, b: Rect, p: Point)
    requires Contains(a, b)
    ensures IsInside(p, b) ==> IsInside(p, a)
    ensures Area(b) <= Area(a)
  {
    MulMono(b.width as nat, a.width as nat, b.height as nat, a.height as nat);
  }

  /** is_inside is half-open: a non-empty rectangle holds its top-left pixel
      but not the pixel just past its right edge or its bottom edge. */
  lemma IsInsideHalfOpen(r: Rect)
    requires NonEmpty(r) && NoWrap(r)
    ensures IsInside(Point(r.x, r.y), r)
    ensures r.x as int + r.width as int < 0x8000 ==>
      !IsInside(Point((r.x as int + r.width as int) as Int16, r.y), r)
    ensures r.y as int + r.height as int < 0x8000 ==>
      !IsInside(Point(r.x, (r.y as int + r.height as int) as Int16), r)
  {
  }

  /**
   * rect_cmp as written: 1 when r1 lies entirely below r2, -1 when entirely
   * above, then the same horizontally, and otherwise `area(r2) - area(r1)`
   * computed on `unsigned int` and returned as `int`.
   */
  function RectCmpAsWritten(r1: Rect, r2: Rect): int
  {
    if r1.y as int >= r2.y as int + r2.height as int then 1
    else if r2.y as int >= r1.y as int + r1.height as int then -1
    else if r1.x as int >= r2.x as int + r2.width as int then 1
    else if r2.x as int >= r1.x as int + r1.width as int then -1
    else ToInt32((Area(r2) - Area(r1)) % UInt32Modulus)
  }

  /** The wrapped difference has the wrong sign when the areas are far apart:
      a full-size rectangle overlapping a one-pixel one compares as smaller. */
  lemma RectCmpSignFlip()
    ensures var small := Rect(0, 0, 1, 1);
      var huge := Rect(0, 0, 0xFFFF, 0xFFFF);
      Area(huge) > Area(small) && RectCmpAsWritten(small, huge) < 0
  {
    var small := Rect(0, 0, 1, 1);
    var huge := Rect(0, 0, 0xFFFF, 0xFFFF);
    assert Area(huge) == 0xFFFE_0001;
    assert (Area(huge) - Area(small)) % UInt32Modulus == 0xFFFE_0000;
  }

  /** rect_cmp with the area difference taken exactly. */
  function RectCmp(r1: Rect, r2: Rect): (c: int)
    ensures c > 0 ==>
      r1.y as int >= r2.y as int + r2.height as int || r1.x as int >= r2.x as int + r2.width as int || Area(r1) < Area(r2)
    ensures c < 0 ==>
      r2.y as int >= r1.y as int + r1.height as int || r2.x as int >= r1.x as int + r1.width as int || Area(r2) < Area(r1)
    ensures -UInt32Modulus < c < UInt32Modulus
  {
    if r1.y as int >= r2.y as int + r2.height as int then 1
    else if r2.y as int >= r1.y as int + r1.height as int then -1
    else if r1.x as int >= r2.x as int + r2.width as int then 1
    else if r2.x as int >= r1.x as int + r1.width as int then -1
    else Area(r2) - Area(r1)
  }

  function Sign(v: int): int { if v > 0 then 1 else if v < 0 then -1 else 0 }

  /**
   * The order rect_cmp is meant to give: above (then further left) first,
   * and among overlapping rectangles the larger first. It is antisymmetric
   * for non-empty rectangles, and agrees with the as-written comparison
   * whenever the areas differ by less than 2^31.
   */
  lemma RectCmpProperties(r1: Rect, r2: Rect)
    requires NonEmpty(r1) && NonEmpty(r2)
    ensures Sign(RectCmp(r1, r2)) == -Sign(RectCmp(r2, r1))
    ensures r1.y as int >= r2.y as int + r2.height as int ==> RectCmp(r1, r2) == 1
    ensures RectCmp(r1, r2) == 0 ==> Area(r1) == Area(r2)
    ensures -0x8000_0000 <= Area(r2) - Area(r1) < 0x8000_0000 ==>
      RectCmpAsWritten(r1, r2) == RectCmp(r1, r2)
  {
    var d := Area(r2) - Area(r1);
    if -0x8000_0000 <= d < 0x8000_0000 {
      if d < 0 {
        assert d % UInt32Modulus == d + UInt32Modulus;
      } else {
        assert d % UInt32Modulus == d;
      }
    }
  }
}
