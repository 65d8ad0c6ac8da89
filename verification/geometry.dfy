/**
  Pixel geometry of the drawing surface: points, segments and the two
  hit tests that drive every pointer handler.

  Coordinates are the integer `offsetX`/`offsetY` pixel positions of the
  canvas. The line test of the component divides by a square root; over
  integers it is stated exactly by comparing squares.
 */
module Geometry {

  /** A canvas position in pixels, origin top-left. */
  datatype Point = Point(x: int, y: int)

  /** Which end of a segment. */
  datatype Endpoint = Start | End {
    function Other(): Endpoint {
      match this
      case Start => End
      case End => Start
    }
  }

  /** A drawn road: direction runs from `start` to `end`. */
  datatype Segment = Segment(start: Point, end: Point) {

    /** The endpoint `e` of this segment. */
    function At(e: Endpoint): Point {
      match e
      case Start => start
      case End => end
    }

    /** The same segment drawn the other way round. */
    function Reversed(): Segment {
      Segment(end, start)
    }
  }

  /** The pixel tolerance of both hit tests. */
  const Tolerance: int := 5

  function Abs(n: int): nat {
    if n < 0 then -n else n
  }

  /**
    The numerator of the component's point-to-line distance formula:
    twice the signed area of the triangle (start, end, p).
   */
  function Cross(p: Point, s: Segment): int {
    (s.end.y - s.start.y) * p.x - (s.end.x - s.start.x) * p.y
      + s.end.x * s.start.y - s.end.y * s.start.x
  }

  /** The squared length of a segment, the square of the formula's denominator. */
  function LengthSq(s: Segment): nat {
    var dx := s.end.x - s.start.x;
    var dy := s.end.y - s.start.y;
    dx * dx + dy * dy
  }

  /**
    `isPointOnLine`: |Cross| / sqrt(LengthSq) < 5, squared. When the
    segment has length zero, Cross is zero too and the comparison is
    false, as the JavaScript comparison of NaN with 5 is.
   */
  predicate OnLine(p: Point, s: Segment)
    ensures OnLine(p, s) ==> LengthSq(s) > 0
  {
    Cross(p, s) * Cross(p, s) < Tolerance * Tolerance * LengthSq(s)
  }

  /**
    The curried form `line => isPointOnLine(p, line)` handed to `find`:
    it accepts exactly the segments of non-zero length whose infinite
    line passes within the tolerance of `p`.
   */
  function OnLineAt(p: Point): (hit: Segment -> bool)
    ensures forall s :: hit(s) <==> LengthSq(s) > 0 && exists t: real :: SqDistAlong(p, s, t) < 25.0
  {
    assert forall s :: OnLine(p, s) <==> LengthSq(s) > 0 && exists t: real :: SqDistAlong(p, s, t) < 25.0 by {
      forall s ensures OnLine(p, s) <==> LengthSq(s) > 0 && exists t: real :: SqDistAlong(p, s, t) < 25.0 {
        OnLineIffNearLine(p, s);
      }
    }
    s => OnLine(p, s)
  }

  /** Endpoint proximity: both coordinate deltas under the tolerance. */
  predicate Near(q: Point, p: Point)
    ensures Near(q, p) <==>
      && p.x - Tolerance < q.x < p.x + Tolerance
      && p.y - Tolerance < q.y < p.y + Tolerance
  {
    Abs(q.x - p.x) < Tolerance && Abs(q.y - p.y) < Tolerance
  }

  /** The endpoint test of the mouse-down handler: start or end is near. */
  predicate NearEndpoint(p: Point, s: Segment)
    ensures NearEndpoint(p, s) <==> exists e: Endpoint :: Near(s.At(e), p)
  {
    assert s.At(Start) == s.start && s.At(End) == s.end;
    Near(s.start, p) || Near(s.end, p)
  }

  /**
    The curried form of NearEndpoint handed to `find`: it accepts exactly
    the segments with an endpoint strictly inside the box of half-width
    `Tolerance` around `p`.
   */
  function NearEndpointAt(p: Point): (hit: Segment -> bool)
    ensures forall s :: hit(s) <==> exists e: Endpoint ::
      && p.x - Tolerance < s.At(e).x < p.x + Tolerance
      && p.y - Tolerance < s.At(e).y < p.y + Tolerance
  {
    s => NearEndpoint(p, s)
  }

  /** The endpoint grabbed by a mouse-down at `p`: start wins a tie. */
  function GrabbedEnd(s: Segment, p: Point): (e: Endpoint)
    requires NearEndpoint(p, s)
    ensures Near(s.At(e), p)
    ensures e == End <==> !Near(s.start, p)
  {
    if Near(s.start, p) then Start else End
  }

  /** The segment with endpoint `e` moved to `p` (the object spread of the move handler). */
  function MoveEndpoint(s: Segment, e: Endpoint, p: Point): (r: Segment)
    ensures r.At(e) == p
    ensures r.At(e.Other()) == s.At(e.Other())
  {
    match e
    case Start => Segment(p, s.end)
    case End => Segment(s.start, p)
  }

  // ---------------------------------------------------------------------
  // The line test as a distance

  /**
    The squared Euclidean distance from `p` to the point
    start + t * (end - start) of the infinite line through the segment.
   */
  function SqDistAlong(p: Point, s: Segment, t: real): real {
    var ex := p.x as real - (s.start.x as real + t * (s.end.x - s.start.x) as real);
    var ey := p.y as real - (s.start.y as real + t * (s.end.y - s.start.y) as real);
    ex * ex + ey * ey
  }

  /** The squared perpendicular distance from `p` to the line through `s`. */
  function PerpDistSq(p: Point, s: Segment): real
    requires LengthSq(s) > 0
  {
    (Cross(p, s) * Cross(p, s)) as real / LengthSq(s) as real
  }

  /** Dot product of (p - start) and (end - start): locates the foot of the perpendicular. */
  function Dot(p: Point, s: Segment): int {
    (p.x - s.start.x) * (s.end.x - s.start.x) + (p.y - s.start.y) * (s.end.y - s.start.y)
  }

  /** The formula's numerator is the cross product of (end - start) and (p - start), negated. */
  lemma CrossIsRelative(p: Point, s: Segment)
    ensures Cross(p, s) == (s.end.y - s.start.y) * (p.x - s.start.x) - (s.end.x - s.start.x) * (p.y - s.start.y)
  {
  }

  lemma RealOfProduct(a: int, b: int)
    ensures (a * b) as real == (a as real) * (b as real)
  {
  }

  /** The polynomial identity behind ScaledSqDist (Lagrange's identity in disguise). */
  lemma ScaledSqDistIdentity(ax: real, ay: real, bx: real, bv: real, t: real)
    ensures var l := bx * bx + bv * bv; var d := ax * bx + ay * bv; var c := bv * ax - bx * ay;
      l * ((ax - t * bx) * (ax - t * bx) + (ay - t * bv) * (ay - t * bv)) == (t * l - d) * (t * l - d) + c * c
  {
  }

  // The offsets from the segment's start, as reals.
  function Ax(p: Point, s: Segment): real { (p.x - s.start.x) as real }
  function Ay(p: Point, s: Segment): real { (p.y - s.start.y) as real }
  function Bx(s: Segment): real { (s.end.x - s.start.x) as real }
  function By(s: Segment): real { (s.end.y - s.start.y) as real }

  lemma CrossAsReal(p: Point, s: Segment)
    ensures Cross(p, s) as real == By(s) * Ax(p, s) - Bx(s) * Ay(p, s)
  {
    CrossIsRelative(p, s);
    RealOfProduct(s.end.y - s.start.y, p.x - s.start.x);
    RealOfProduct(s.end.x - s.start.x, p.y - s.start.y);
  }

  lemma LengthSqAsReal(s: Segment)
    ensures LengthSq(s) as real == Bx(s) * Bx(s) + By(s) * By(s)
  {
    RealOfProduct(s.end.x - s.start.x, s.end.x - s.start.x);
    RealOfProduct(s.end.y - s.start.y, s.end.y - s.start.y);
  }

  lemma DotAsReal(p: Point, s: Segment)
    ensures Dot(p, s) as real == Ax(p, s) * Bx(s) + Ay(p, s) * By(s)
  {
    RealOfProduct(p.x - s.start.x, s.end.x - s.start.x);
    RealOfProduct(p.y - s.start.y, s.end.y - s.start.y);
  }

  lemma SqDistAlongAsOffsets(p: Point, s: Segment, t: real)
    ensures SqDistAlong(p, s, t)
      == (Ax(p, s) - t * Bx(s)) * (Ax(p, s) - t * Bx(s)) + (Ay(p, s) - t * By(s)) * (Ay(p, s) - t * By(s))
  {
    var ex := p.x as real - (s.start.x as real + t * Bx(s));
    var ey := p.y as real - (s.start.y as real + t * By(s));
    assert ex == Ax(p, s) - t * Bx(s);
    assert ey == Ay(p, s) - t * By(s);
  }

  /**
    Scaled by the squared length, the squared distance to any point of
    the line is the squared distance along the line to the foot of the
    perpendicular plus the squared numerator.
   */
  lemma ScaledSqDist(p: Point, s: Segment, t: real)
    ensures var l := LengthSq(s) as real; var d := Dot(p, s) as real;
      l * SqDistAlong(p, s, t) == (t * l - d) * (t * l - d) + (Cross(p, s) * Cross(p, s)) as real
  {
    CrossAsReal(p, s);
    LengthSqAsReal(s);
    DotAsReal(p, s);
    SqDistAlongAsOffsets(p, s, t);
    RealOfProduct(Cross(p, s), Cross(p, s));
    ScaledSqDistIdentity(Ax(p, s), Ay(p, s), Bx(s), By(s), t);
  }

  /** The foot of the perpendicular is at perpendicular distance from `p`. */
  lemma PerpendicularFoot(p: Point, s: Segment)
    requires LengthSq(s) > 0
    ensures SqDistAlong(p, s, Dot(p, s) as real / LengthSq(s) as real) == PerpDistSq(p, s)
  {
    var l, d := LengthSq(s) as real, Dot(p, s) as real;
    var t := d / l;
    ScaledSqDist(p, s, t);
    ScaledAtFoot(l, d, (Cross(p, s) * Cross(p, s)) as real, SqDistAlong(p, s, t));
  }

  lemma ScaledAtFoot(l: real, d: real, c2: real, sq: real)
    requires l > 0.0
    requires l * sq == (d / l * l - d) * (d / l * l - d) + c2
    ensures sq == c2 / l
  {
    assert d / l * l - d == 0.0;
  }

  /** No point of the line is closer to `p` than the perpendicular distance. */
  lemma PerpendicularIsClosest(p: Point, s: Segment, t: real)
    requires LengthSq(s) > 0
    ensures PerpDistSq(p, s) <= SqDistAlong(p, s, t)
  {
    var l, d := LengthSq(s) as real, Dot(p, s) as real;
    ScaledSqDist(p, s, t);
    ScaledAboveFoot(l, t * l - d, (Cross(p, s) * Cross(p, s)) as real, SqDistAlong(p, s, t));
  }

  lemma ScaledAboveFoot(l: real, u: real, c2: real, sq: real)
    requires l > 0.0
    requires l * sq == u * u + c2
    ensures c2 / l <= sq
  {
    assert u * u >= 0.0;
    DivideBelow(c2, l, sq);
  }

  lemma DivideBelow(a: real, l: real, b: real)
    requires l > 0.0 && a <= l * b
    ensures a / l <= b
  {
  }

  /** The integer test is the source's `Math.abs(d) < 5`, with d the perpendicular distance. */
  lemma OnLineIffPerpDist(p: Point, s: Segment)
    ensures OnLine(p, s) <==> LengthSq(s) > 0 && PerpDistSq(p, s) < 25.0
  {
    var c := Cross(p, s);
    var c2 := c * c;
    assert c2 >= 0 by { SquareNonNegative(c); }
    if LengthSq(s) > 0 {
      var li := LengthSq(s);
      assert OnLine(p, s) <==> c2 < 25 * li;
      assert PerpDistSq(p, s) == c2 as real / li as real;
      RealOfProduct(25, li);
      DivideBelowStrict(c2 as real, li as real, 25.0);
    }
  }

  lemma SquareNonNegative(c: int)
    ensures c * c >= 0
  {
  }

  lemma DivideBelowStrict(a: real, l: real, b: real)
    requires l > 0.0
    ensures a / l < b <==> a < b * l
  {
  }

  /**
    A point hits a segment iff the segment has a length and some point
    of the infinite line through it lies within distance 5 of the point.
   */
  lemma OnLineIffNearLine(p: Point, s: Segment)
    ensures OnLine(p, s) <==> LengthSq(s) > 0 && exists t: real :: SqDistAlong(p, s, t) < 25.0
  {
    OnLineIffPerpDist(p, s);
    if LengthSq(s) > 0 {
      if OnLine(p, s) {
        PerpendicularFoot(p, s);
      }
      if t: real :| SqDistAlong(p, s, t) < 25.0 {
        PerpendicularIsClosest(p, s, t);
      }
    }
  }

  /** The test is not clamped to the segment: every whole multiple along the line hits. */
  lemma {:induction false} CollinearBeyondEndpointHits(s: Segment, k: int)
    requires LengthSq(s) > 0
    ensures OnLine(Point(s.start.x + k * (s.end.x - s.start.x), s.start.y + k * (s.end.y - s.start.y)), s)
  {
    var p := Point(s.start.x + k * (s.end.x - s.start.x), s.start.y + k * (s.end.y - s.start.y));
    CrossIsRelative(p, s);
    var bx, bv := s.end.x - s.start.x, s.end.y - s.start.y;
    assert p.x - s.start.x == k * bx && p.y - s.start.y == k * bv;
    assert bv * (k * bx) == bx * (k * bv);
    assert Cross(p, s) == 0;
  }

  /** The test does not depend on the segment's direction. */
  lemma OnLineSymmetric(p: Point, s: Segment)
    ensures OnLine(p, s.Reversed()) <==> OnLine(p, s)
  {
    CrossNegates(p.x, p.y, s.start.x, s.start.y, s.end.x, s.end.y);
    assert LengthSq(s.Reversed()) == LengthSq(s);
    SameSquareTest(Cross(p, s), Cross(p, s.Reversed()), LengthSq(s));
  }

  lemma SameSquareTest(c: int, c': int, l: int)
    requires c' == -c
    ensures c' * c' < Tolerance * Tolerance * l <==> c * c < Tolerance * Tolerance * l
  {
    SquareOfNegation(c);
  }

  /** Swapping the endpoints negates the formula's numerator. */
  lemma CrossNegates(px: int, py: int, sx: int, sy: int, ex: int, ey: int)
    ensures (sy - ey) * px - (sx - ex) * py + sx * ey - sy * ex
      == -((ey - sy) * px - (ex - sx) * py + ex * sy - ey * sx)
  {
  }

  lemma SquareOfNegation(c: int)
    ensures (-c) * (-c) == c * c
  {
  }

  /** A segment of length zero is never hit. */
  lemma DegenerateNeverHits(p: Point, s: Segment)
    requires s.start == s.end
    ensures !OnLine(p, s)
  {
    assert Cross(p, s) == 0;
  }

  /** For the horizontal road (0,0)-(100,0): (50,4) is on it, (50,6) is not. */
  lemma ToleranceExample()
    ensures OnLine(Point(50, 4), Segment(Point(0, 0), Point(100, 0)))
    ensures !OnLine(Point(50, 6), Segment(Point(0, 0), Point(100, 0)))
  {
  }
}
