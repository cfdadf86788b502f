/** The geometry model of `size.py`: box sizes measured at a 1080x1920 capture,
    rescaled to the active resolution, and the three conversions between the
    triangle anchor, the name-label corner and the tracker-box corner. */
module Geometry {

  /** A (height, width) pair. */
  datatype Shape = Shape(h: nat, w: nat)

  /** An (x, y) pixel position; x is the column, y the row. */
  datatype Coord = Coord(x: int, y: int)

  /** The active capture resolution (the `Size` object's `height` and `width`). */
  datatype Size = Size(height: nat, width: nat)

  /** Resolution at which the reference boxes were measured. */
  const RefHeight: nat := 1080
  const RefWidth: nat := 1920

  const TrackerRef := Shape(110, 130)
  const IconRef := Shape(91, 91)
  const NameRef := Shape(28, 130)
  const TriangleRef := Shape(12, 11)

  /** The literal correction in `triangle_to_tracker`; it is not rescaled. */
  const TrackerLift := 15

  /** `int(ref * actual / base)`: true division truncated toward zero, which for
      non-negative operands is the integer quotient. */
  function Scale(ref: nat, actual: nat, base: nat): (r: nat)
    requires base > 0
    ensures r * base <= ref * actual < (r + 1) * base
  {
    ref * actual / base
  }

  function ScaleShape(ref: Shape, s: Size): (r: Shape)
  {
    Shape(Scale(ref.h, s.height, RefHeight), Scale(ref.w, s.width, RefWidth))
  }

  function Tracker(s: Size): Shape { ScaleShape(TrackerRef, s) }
  function Icon(s: Size): Shape { ScaleShape(IconRef, s) }
  function Name(s: Size): Shape { ScaleShape(NameRef, s) }
  function Triangle(s: Size): Shape { ScaleShape(TriangleRef, s) }

  /** At the reference resolution every box keeps its measured size. */
  lemma ReferenceShapes()
    ensures Tracker(Size(RefHeight, RefWidth)) == Shape(110, 130)
    ensures Icon(Size(RefHeight, RefWidth)) == Shape(91, 91)
    ensures Name(Size(RefHeight, RefWidth)) == Shape(28, 130)
    ensures Triangle(Size(RefHeight, RefWidth)) == Shape(12, 11)
  {
  }

  lemma DivMonotone(x: nat, y: nat, d: nat)
    requires x <= y && d > 0
    ensures x / d <= y / d
  {
    var qx, qy := x / d, y / d;
    assert x == d * qx + x % d && y == d * qy + y % d;
    if qy < qx {
      MulMonotone(d, qy + 1, qx);
      assert false;
    }
  }

  lemma MulMonotone(a: nat, b: int, c: int)
    requires b <= c
    ensures a * b <= a * c
  {
  }

  /** Scaling preserves the order of reference lengths. */
  lemma ScaleMonotone(a: nat, b: nat, actual: nat, base: nat)
    requires a <= b && base > 0
    ensures Scale(a, actual, base) <= Scale(b, actual, base)
  {
    assert a * actual <= b * actual;
    DivMonotone(a * actual, b * actual, base);
  }

  /** The tracker box is never narrower than the triangle, at any resolution. */
  lemma TrackerWiderThanTriangle(s: Size)
    ensures Triangle(s).w <= Tracker(s).w
  {
    ScaleMonotone(TriangleRef.w, TrackerRef.w, s.width, RefWidth);
  }

  /** The conversions assert that their input lies inside the capture. */
  predicate InBounds(s: Size, c: Coord)
  {
    0 <= c.x <= s.width && 0 <= c.y <= s.height
  }

  /** Horizontal distance from the name label's left edge to the anchor. */
  function NameShiftX(s: Size): (r: nat)
    ensures 2 * r <= Tracker(s).w - Triangle(s).w
  {
    TrackerWiderThanTriangle(s);
    (Tracker(s).w - Triangle(s).w) / 2
  }

  /** Vertical distance from the name label's top edge to the anchor. */
  function NameShiftY(s: Size): nat
  {
    Triangle(s).h + Name(s).h
  }

  /** `triangle_to_name`: the label sits above the triangle, centred under the tracker box. */
  function TriangleToName(s: Size, c: Coord): (r: Coord)
    requires InBounds(s, c)
    ensures r.x <= c.x && r.y <= c.y
    ensures c.x - r.x == NameShiftX(s) && c.y - r.y == NameShiftY(s)
  {
    Coord(c.x - (Tracker(s).w - Triangle(s).w) / 2, c.y - Triangle(s).h - Name(s).h)
  }

  /** `name_to_triangle`: the exact inverse of `TriangleToName` wherever both are defined. */
  function NameToTriangle(s: Size, n: Coord): (r: Coord)
    requires InBounds(s, n)
    ensures n.x <= r.x && n.y <= r.y
    ensures r.x - n.x == NameShiftX(s) && r.y - n.y == NameShiftY(s)
    ensures InBounds(s, r) ==> TriangleToName(s, r) == n
  {
    Coord(n.x + (Tracker(s).w - Triangle(s).w) / 2, n.y + Name(s).h + Triangle(s).h)
  }

  /** Anchor -> label -> anchor is the identity whenever the label corner is in bounds. */
  lemma TriangleNameRoundTrip(s: Size, c: Coord)
    requires InBounds(s, c) && InBounds(s, TriangleToName(s, c))
    ensures NameToTriangle(s, TriangleToName(s, c)) == c
  {
  }

  /** `triangle_to_tracker`: the box is centred on the anchor's column and its
      bottom edge lies `TrackerLift` pixels below the anchor at every resolution. */
  function TriangleToTracker(s: Size, c: Coord): (r: Coord)
    requires InBounds(s, c)
    ensures c.x - r.x == Tracker(s).w / 2
    ensures r.x <= c.x <= r.x + Tracker(s).w
    ensures 0 < Tracker(s).w ==> c.x < r.x + Tracker(s).w
    ensures r.y + Tracker(s).h == c.y + TrackerLift
  {
    Coord(c.x - Tracker(s).w / 2, c.y - Tracker(s).h + 15)
  }

  /** At half the reference resolution the box halves but the lift stays 15. */
  lemma TrackerLiftNotRescaled(c: Coord)
    requires InBounds(Size(540, 960), c)
    ensures Tracker(Size(540, 960)) == Shape(55, 65)
    ensures TriangleToTracker(Size(540, 960), c) == Coord(c.x - 32, c.y - 55 + 15)
  {
  }
}
