/** The two samplers `points_bezier_curve` and `points_cubic_spline` of
    Splines/test.py, and the mode dispatch of `draw_current_curve`. A sampler
    evaluates its curve at the parameters i / 100 for i = 0..100 and keeps,
    in order, those that do not exceed the requested t. */
module Sampling {
  import opened Geometry
  import opened BezierCurves
  import opened CubicSplines

  /** The two curve families the editor offers ('Bézier' and 'B-spline'). */
  datatype Family = Bezier | BSpline

  /** The number of grid parameters, `range(101)`. */
  const GridSize: nat := 101

  /** The i-th grid parameter, `i / 100.0`. */
  function GridParam(i: nat): real
  {
    i as real / 100.0
  }

  /** What the evaluator of a family needs: the spline indexes its points,
      so it needs at least one; the Bezier sum accepts any sequence. */
  predicate Evaluable(f: Family, points: seq<Point>)
  {
    f == BSpline ==> |points| >= 1
  }

  /** The evaluator of a family at a parameter of the grid. */
  function Evaluate(f: Family, points: seq<Point>, u: real): Point
    requires Evaluable(f, points) && 0.0 <= u <= 1.0
  {
    match f
    case Bezier => BezierAt(points, u)
    case BSpline => SplineAt(points, u)
  }

  /** The samples contributed by the first m grid parameters. */
  function SamplesBelow(f: Family, points: seq<Point>, t: real, m: nat): (r: seq<Point>)
    requires Evaluable(f, points) && m <= GridSize
    ensures |r| <= m
  {
    if m == 0 then []
    else
      var u := GridParam(m - 1);
      SamplesBelow(f, points, t, m - 1) + (if u <= t then [Evaluate(f, points, u)] else [])
  }

  /** The polyline a sampler returns for parameter t. */
  function Samples(f: Family, points: seq<Point>, t: real): seq<Point>
    requires Evaluable(f, points)
  {
    SamplesBelow(f, points, t, GridSize)
  }

  /** `points_bezier_curve(points, t)`. */
  method PointsBezierCurve(points: seq<Point>, t: real) returns (p: seq<Point>)
    ensures p == Samples(Bezier, points, t)
  {
    p := [];
    for i := 0 to GridSize
      invariant p == SamplesBelow(Bezier, points, t, i)
    {
      var ti := i as real / 100.0;
      if ti <= t {
        var point := BezierCurve(points, ti);
        p := p + [point];
      }
    }
  }

  /** `points_cubic_spline(points, t)`.  Its callers pass at least two points. */
  method PointsCubicSpline(points: seq<Point>, t: real) returns (p: seq<Point>)
    requires |points| >= 1
    ensures p == Samples(BSpline, points, t)
  {
    p := [];
    for i := 0 to GridSize
      invariant p == SamplesBelow(BSpline, points, t, i)
    {
      var ti := i as real / 100.0;
      if ti <= t {
        var point := SplineAt(points, ti);
        p := p + [point];
      }
    }
  }

  // ---------------------------------------------------------------------
  // What a sampler returns

  /** Grid parameters grow with their index. */
  lemma GridParamMonotone(i: nat, j: nat)
    requires i <= j
    ensures GridParam(i) <= GridParam(j)
  {
  }

  /** After the first m grid parameters the list holds one sample for each
      kept parameter, and the kept ones are a prefix of the grid. */
  lemma {:induction false} SamplesBelowCount(f: Family, points: seq<Point>, t: real, m: nat)
    requires Evaluable(f, points) && m <= GridSize
    ensures forall i :: 0 <= i < m ==> (i < |SamplesBelow(f, points, t, m)| <==> GridParam(i) <= t)
  {
    if m > 0 {
      SamplesBelowCount(f, points, t, m - 1);
      var u := GridParam(m - 1);
      if u <= t {
        forall i | 0 <= i < m - 1
          ensures GridParam(i) <= t
        {
          GridParamMonotone(i, m - 1);
        }
      }
    }
  }

  /** Sample i is the evaluation at the i-th grid parameter. */
  lemma {:induction false} SamplesBelowValues(f: Family, points: seq<Point>, t: real, m: nat)
    requires Evaluable(f, points) && m <= GridSize
    ensures forall i :: 0 <= i < |SamplesBelow(f, points, t, m)| ==>
              SamplesBelow(f, points, t, m)[i] == Evaluate(f, points, GridParam(i))
  {
    if m > 0 {
      var prev, u := SamplesBelow(f, points, t, m - 1), GridParam(m - 1);
      SamplesBelowValues(f, points, t, m - 1);
      if u <= t {
        SamplesBelowCount(f, points, t, m - 1);
        assert |prev| == m - 1;
        var next := prev + [Evaluate(f, points, u)];
        assert SamplesBelow(f, points, t, m) == next;
        forall i | 0 <= i < |next|
          ensures next[i] == Evaluate(f, points, GridParam(i))
        {
          if i < m - 1 {
            assert next[i] == prev[i];
          }
        }
      } else {
        assert SamplesBelow(f, points, t, m) == prev;
      }
    }
  }

  /** A sampler returns exactly the evaluations at the grid parameters i / 100
      that do not exceed t, in increasing order of i, and nothing else. */
  lemma SamplesExact(f: Family, points: seq<Point>, t: real)
    requires Evaluable(f, points)
    ensures |Samples(f, points, t)| <= GridSize
    ensures forall i :: 0 <= i < GridSize ==> (i < |Samples(f, points, t)| <==> GridParam(i) <= t)
    ensures forall i :: 0 <= i < |Samples(f, points, t)| ==>
              Samples(f, points, t)[i] == Evaluate(f, points, GridParam(i))
  {
    SamplesBelowCount(f, points, t, GridSize);
    SamplesBelowValues(f, points, t, GridSize);
  }

  /** At t >= 1 every grid parameter is kept: the full 101-point polyline. */
  lemma FullSampleCount(f: Family, points: seq<Point>, t: real)
    requires Evaluable(f, points) && t >= 1.0
    ensures |Samples(f, points, t)| == GridSize
  {
    SamplesExact(f, points, t);
    assert GridParam(GridSize - 1) <= t;
  }

  /** At t < 0 even the first grid parameter 0 is too large: nothing is drawn. */
  lemma EmptyBeforeStart(f: Family, points: seq<Point>, t: real)
    requires Evaluable(f, points) && t < 0.0
    ensures Samples(f, points, t) == []
  {
    SamplesExact(f, points, t);
    assert !(GridParam(0) <= t);
  }

  /** A full Bezier polyline starts at the first control point and ends at the last. */
  lemma BezierPolylineEnds(points: seq<Point>)
    requires |points| >= 1
    ensures |Samples(Bezier, points, 1.0)| == GridSize
    ensures Samples(Bezier, points, 1.0)[0] == points[0]
    ensures Samples(Bezier, points, 1.0)[GridSize - 1] == points[|points| - 1]
  {
    FullSampleCount(Bezier, points, 1.0);
    SamplesExact(Bezier, points, 1.0);
    BezierStart(points);
    BezierEnd(points);
    assert GridParam(0) == 0.0 && GridParam(GridSize - 1) == 1.0;
  }

  /** A full spline polyline starts at control point 1 (mod n) and ends at control point 0. */
  lemma SplinePolylineEnds(points: seq<Point>)
    requires |points| >= 1
    ensures |Samples(BSpline, points, 1.0)| == GridSize
    ensures Samples(BSpline, points, 1.0)[0] == points[1 % |points|]
    ensures Samples(BSpline, points, 1.0)[GridSize - 1] == points[0]
  {
    FullSampleCount(BSpline, points, 1.0);
    SamplesExact(BSpline, points, 1.0);
    SplineStart(points);
    SplineEnd(points);
    assert GridParam(0) == 0.0 && GridParam(GridSize - 1) == 1.0;
  }

  // ---------------------------------------------------------------------
  // The mode dispatch of draw_current_curve

  /** What `draw_current_curve` does with the working points: nothing below
      two points, the polyline of the selected family otherwise, and an
      `UnboundLocalError` (no branch assigns `curve_points`) when two or more
      points meet no selected mode. */
  datatype Drawing = NothingDrawn | Polyline(samples: seq<Point>) | Unbound

  function CurrentCurve(mode: Option<Family>, points: seq<Point>, t: real): (d: Drawing)
    ensures |points| <= 1 ==> d == NothingDrawn
    ensures d.Unbound? <==> |points| > 1 && mode == None
    ensures d.Polyline? <==> |points| > 1 && mode.Some?
    ensures |points| > 1 && mode.Some? ==> d == Polyline(Samples(mode.value, points, t))
  {
    if |points| <= 1 then NothingDrawn
    else if mode == None then Unbound
    else Polyline(Samples(mode.value, points, t))
  }
}
