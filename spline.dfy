/** The "B-spline" family of the editor (`cubic_spline_interpolation` in
    Splines/test.py): a Catmull-Rom cubic over four neighbouring control
    points, chosen by a segment index with wrap-around modulo the number of
    points. */
module CubicSplines {
  import opened Geometry

  /** A parameter in [0, 1] scales a non-negative length m into [0, m]. */
  lemma ScaledBounds(t: real, m: real)
    requires 0.0 <= t <= 1.0 && m >= 0.0
    ensures 0.0 <= t * m <= m
  {
    assert m - t * m == (1.0 - t) * m;
  }

  /** `k = int(t * (n - 1))`: `int` truncates toward zero, which is the floor
      here because t * (n - 1) is never negative.  The index selects a real
      control point, so `points[k]` never needs Python's negative indexing. */
  function SegmentIndex(n: nat, t: real): (k: nat)
    requires n >= 1 && 0.0 <= t <= 1.0
    ensures k <= n - 1
    ensures t == 1.0 ==> k == n - 1
  {
    ScaledBounds(t, (n - 1) as real);
    (t * (n - 1) as real).Floor
  }

  /** `t_i = t * (n - 1) - k`, the parameter local to the segment. */
  function LocalParam(n: nat, t: real): (u: real)
    requires n >= 1 && 0.0 <= t <= 1.0
    ensures 0.0 <= u < 1.0
    ensures t == 1.0 ==> u == 0.0
  {
    t * (n - 1) as real - SegmentIndex(n, t) as real
  }

  /** The coefficients a, b and c of the Catmull-Rom blend; d is p1 itself. */
  function CoeffA(p0: real, p1: real, p2: real, p3: real): real
  {
    -0.5 * p0 + 1.5 * p1 - 1.5 * p2 + 0.5 * p3
  }

  function CoeffB(p0: real, p1: real, p2: real, p3: real): real
  {
    p0 - 2.5 * p1 + 2.0 * p2 - 0.5 * p3
  }

  function CoeffC(p0: real, p2: real): real
  {
    -0.5 * p0 + 0.5 * p2
  }

  /** a u^3 + b u^2 + c u + d, with u^3 and u^2 as repeated products. */
  function Cubic(a: real, b: real, c: real, d: real, u: real): real
  {
    a * (u * u * u) + b * (u * u) + c * u + d
  }

  /** One coordinate of the Catmull-Rom blend a u^3 + b u^2 + c u + d. */
  function BlendCoord(p0: real, p1: real, p2: real, p3: real, u: real): real
  {
    Cubic(CoeffA(p0, p1, p2, p3), CoeffB(p0, p1, p2, p3), CoeffC(p0, p2), p1, u)
  }

  /** The blend of four points, coordinate by coordinate as numpy does it. */
  function Blend(p0: Point, p1: Point, p2: Point, p3: Point, u: real): Point
  {
    Point(BlendCoord(p0.x, p1.x, p2.x, p3.x, u), BlendCoord(p0.y, p1.y, p2.y, p3.y, u))
  }

  /** A cubic is d at u = 0 and a + b + c + d at u = 1. */
  lemma CubicEnds(a: real, b: real, c: real, d: real)
    ensures Cubic(a, b, c, d, 0.0) == d
    ensures Cubic(a, b, c, d, 1.0) == a + b + c + d
  {
  }

  /** The blend coordinate is p1 at u = 0 and p2 at u = 1. */
  lemma BlendCoordEnds(p0: real, p1: real, p2: real, p3: real)
    ensures BlendCoord(p0, p1, p2, p3, 0.0) == p1
    ensures BlendCoord(p0, p1, p2, p3, 1.0) == p2
  {
    CubicEnds(CoeffA(p0, p1, p2, p3), CoeffB(p0, p1, p2, p3), CoeffC(p0, p2), p1);
  }

  /** The blend passes through the second point at u = 0 and the third at u = 1. */
  lemma BlendEnds(p0: Point, p1: Point, p2: Point, p3: Point)
    ensures Blend(p0, p1, p2, p3, 0.0) == p1
    ensures Blend(p0, p1, p2, p3, 1.0) == p2
  {
    BlendCoordEnds(p0.x, p1.x, p2.x, p3.x);
    BlendCoordEnds(p0.y, p1.y, p2.y, p3.y);
  }

  /** Segment k of the curve: the blend of points k, k+1, k+2, k+3, the last
      three taken modulo n. */
  function Segment(points: seq<Point>, k: nat, u: real): Point
    requires 1 <= |points| && k < |points|
  {
    var n := |points|;
    Blend(points[k], points[(k + 1) % n], points[(k + 2) % n], points[(k + 3) % n], u)
  }

  /** `cubic_spline_interpolation(points, t)`. */
  function SplineAt(points: seq<Point>, t: real): (r: Point)
    requires |points| >= 1 && 0.0 <= t <= 1.0
    ensures var n, k, u := |points|, SegmentIndex(|points|, t), LocalParam(|points|, t);
            k < n && 0.0 <= u < 1.0 && k as real + u == t * (n - 1) as real
            && r == Blend(points[k], points[(k + 1) % n], points[(k + 2) % n], points[(k + 3) % n], u)
  {
    var n := |points|;
    Segment(points, SegmentIndex(n, t), LocalParam(n, t))
  }

  // ---------------------------------------------------------------------
  // Values at the segment ends

  /** The knot t = j / (n - 1) lies in [0, 1], selects segment j and is that
      segment's start. */
  lemma KnotParam(n: nat, j: nat)
    requires n >= 2 && j <= n - 1
    ensures 0.0 <= j as real / (n - 1) as real <= 1.0
    ensures SegmentIndex(n, j as real / (n - 1) as real) == j
    ensures LocalParam(n, j as real / (n - 1) as real) == 0.0
  {
    var m := (n - 1) as real;
    var t := j as real / m;
    assert t * m == j as real;
    assert (j as real).Floor == j;
  }

  /** At a knot t = j / (n - 1) the curve passes through control point j + 1 (mod n). */
  lemma SplineAtKnot(points: seq<Point>, j: nat)
    requires |points| >= 2 && j <= |points| - 1
    ensures 0.0 <= j as real / (|points| - 1) as real <= 1.0
    ensures SplineAt(points, j as real / (|points| - 1) as real) == points[(j + 1) % |points|]
  {
    var n := |points|;
    KnotParam(n, j);
    BlendEnds(points[j], points[(j + 1) % n], points[(j + 2) % n], points[(j + 3) % n]);
  }

  /** The curve starts at the second control point, not the first (for n >= 2). */
  lemma SplineStart(points: seq<Point>)
    requires |points| >= 1
    ensures SplineAt(points, 0.0) == points[1 % |points|]
  {
    var n := |points|;
    assert SegmentIndex(n, 0.0) == 0;
    assert LocalParam(n, 0.0) == 0.0;
    BlendEnds(points[0], points[1 % n], points[2 % n], points[3 % n]);
  }

  /** The curve ends back at the first control point: the wrap-around closes it. */
  lemma SplineEnd(points: seq<Point>)
    requires |points| >= 1
    ensures SplineAt(points, 1.0) == points[0]
  {
    var n := |points|;
    var k := n - 1;
    assert SegmentIndex(n, 1.0) == k && LocalParam(n, 1.0) == 0.0;
    assert (k + 1) % n == 0;
    BlendEnds(points[k], points[(k + 1) % n], points[(k + 2) % n], points[(k + 3) % n]);
  }

  /** Consecutive segments meet: the end of segment j - 1 is the start of segment j. */
  lemma SegmentsMeet(points: seq<Point>, j: nat)
    requires 1 <= j < |points|
    ensures Segment(points, j - 1, 1.0) == Segment(points, j, 0.0)
  {
    var n := |points|;
    assert (j - 1 + 1) % n == j;
    assert (j - 1 + 2) % n == (j + 1) % n;
    BlendEnds(points[j - 1], points[j], points[(j + 1) % n], points[(j + 2) % n]);
    BlendEnds(points[j], points[(j + 1) % n], points[(j + 2) % n], points[(j + 3) % n]);
  }

  // ---------------------------------------------------------------------
  // Tangent continuity

  /** d/du of `Cubic`: 3 a u^2 + 2 b u + c. */
  function CubicSlope(a: real, b: real, c: real, u: real): real
  {
    3.0 * a * (u * u) + 2.0 * b * u + c
  }

  /** d/du of `BlendCoord`. */
  function BlendCoordSlope(p0: real, p1: real, p2: real, p3: real, u: real): real
  {
    CubicSlope(CoeffA(p0, p1, p2, p3), CoeffB(p0, p1, p2, p3), CoeffC(p0, p2), u)
  }

  /** The slope of a cubic is c at u = 0 and 3 a + 2 b + c at u = 1. */
  lemma CubicSlopeEnds(a: real, b: real, c: real)
    ensures CubicSlope(a, b, c, 0.0) == c
    ensures CubicSlope(a, b, c, 1.0) == 3.0 * a + 2.0 * b + c
  {
  }

  /** The blend's tangent is half the chord p2 - p0 at u = 0 and p3 - p1 at u = 1. */
  lemma BlendCoordSlopeEnds(p0: real, p1: real, p2: real, p3: real)
    ensures BlendCoordSlope(p0, p1, p2, p3, 0.0) == 0.5 * (p2 - p0)
    ensures BlendCoordSlope(p0, p1, p2, p3, 1.0) == 0.5 * (p3 - p1)
  {
    CubicSlopeEnds(CoeffA(p0, p1, p2, p3), CoeffB(p0, p1, p2, p3), CoeffC(p0, p2));
  }

  /** `CubicSlope` is the derivative of `Cubic`: the change over a step h is
      h times the slope plus a remainder of order h^2. */
  lemma CubicShift(a: real, b: real, c: real, d: real, u: real, h: real)
    ensures Cubic(a, b, c, d, u + h)
         == Cubic(a, b, c, d, u) + h * CubicSlope(a, b, c, u) + h * h * (3.0 * a * u + b + a * h)
  {
    var v := u + h;
    assert v * v == u * u + 2.0 * u * h + h * h;
    assert v * v * v == u * u * u + 3.0 * (u * u) * h + 3.0 * u * (h * h) + h * h * h;
    assert a * (v * v * v) == a * (u * u * u) + 3.0 * a * (u * u) * h + 3.0 * a * u * (h * h) + a * (h * h * h);
    assert b * (v * v) == b * (u * u) + 2.0 * b * u * h + b * (h * h);
    assert h * CubicSlope(a, b, c, u) == 3.0 * a * (u * u) * h + 2.0 * b * u * h + c * h;
    assert h * h * (3.0 * a * u + b + a * h) == 3.0 * a * u * (h * h) + b * (h * h) + a * (h * h * h);
  }

  /** `BlendCoordSlope` is the derivative of `BlendCoord`. */
  lemma SlopeIsDerivative(p0: real, p1: real, p2: real, p3: real, u: real, h: real)
    ensures var a, b := CoeffA(p0, p1, p2, p3), CoeffB(p0, p1, p2, p3);
            BlendCoord(p0, p1, p2, p3, u + h)
            == BlendCoord(p0, p1, p2, p3, u) + h * BlendCoordSlope(p0, p1, p2, p3, u)
               + h * h * (3.0 * a * u + b + a * h)
  {
    var a, b, c := CoeffA(p0, p1, p2, p3), CoeffB(p0, p1, p2, p3), CoeffC(p0, p2);
    CubicShift(a, b, c, p1, u, h);
    assert BlendCoord(p0, p1, p2, p3, u + h) == Cubic(a, b, c, p1, u + h);
    assert BlendCoord(p0, p1, p2, p3, u) == Cubic(a, b, c, p1, u);
    assert BlendCoordSlope(p0, p1, p2, p3, u) == CubicSlope(a, b, c, u);
  }

  /** The tangent of segment k of the curve with respect to its local parameter. */
  function SegmentSlope(points: seq<Point>, k: nat, u: real): Point
    requires 1 <= |points| && k < |points|
  {
    var n := |points|;
    var p0, p1, p2, p3 := points[k], points[(k + 1) % n], points[(k + 2) % n], points[(k + 3) % n];
    Point(BlendCoordSlope(p0.x, p1.x, p2.x, p3.x, u), BlendCoordSlope(p0.y, p1.y, p2.y, p3.y, u))
  }

  /** Consecutive segments share their tangent where they meet: the curve is
      C1 at every interior knot, the tangent there being half the chord
      between the neighbouring control points. */
  lemma SegmentsTangent(points: seq<Point>, j: nat)
    requires 1 <= j < |points|
    ensures SegmentSlope(points, j - 1, 1.0) == SegmentSlope(points, j, 0.0)
  {
    var n := |points|;
    assert (j - 1 + 1) % n == j;
    assert (j - 1 + 2) % n == (j + 1) % n;
    assert (j - 1 + 3) % n == (j + 2) % n;
    var p0, p1, p2, p3 := points[j - 1], points[j], points[(j + 1) % n], points[(j + 2) % n];
    var p4 := points[(j + 3) % n];
    BlendCoordSlopeEnds(p0.x, p1.x, p2.x, p3.x);
    BlendCoordSlopeEnds(p0.y, p1.y, p2.y, p3.y);
    BlendCoordSlopeEnds(p1.x, p2.x, p3.x, p4.x);
    BlendCoordSlopeEnds(p1.y, p2.y, p3.y, p4.y);
  }
}
