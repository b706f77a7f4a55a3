/** Bezier evaluation by direct Bernstein summation (`bezier_curve` in
    Splines/test.py): for control points P_0..P_n the point at parameter t is
    the sum over i of C(n, i) * t^i * (1 - t)^(n - i) * P_i. */
module BezierCurves {
  import opened Geometry

  /** Binomial coefficient with `math.comb`'s convention: C(n, k) == 0 when k > n. */
  function Comb(n: nat, k: nat): nat
  {
    if k == 0 then 1
    else if n == 0 then 0
    else Comb(n - 1, k - 1) + Comb(n - 1, k)
  }

  /** x^k by repeated multiplication, with x^0 == 1 for every x, as Python's `0 ** 0 == 1`. */
  function Pow(x: real, k: nat): real
  {
    if k == 0 then 1.0 else x * Pow(x, k - 1)
  }

  /** The i-th term of the binomial expansion of (a + b)^n. */
  function Term(n: nat, i: nat, a: real, b: real): real
    requires i <= n
  {
    (Comb(n, i) as real) * Pow(a, i) * Pow(b, n - i)
  }

  /** The first m terms of the expansion of (a + b)^n. */
  function TermsBelow(n: nat, a: real, b: real, m: nat): (r: seq<real>)
    requires m <= n + 1
    ensures |r| == m
  {
    if m == 0 then [] else TermsBelow(n, a, b, m - 1) + [Term(n, m - 1, a, b)]
  }

  /** The n + 1 terms of the expansion of (a + b)^n. */
  function Terms(n: nat, a: real, b: real): (r: seq<real>)
    ensures |r| == n + 1
  {
    TermsBelow(n, a, b, n + 1)
  }

  /** The sum of the first m entries of s. */
  function SumFirst(s: seq<real>, m: nat): real
    requires m <= |s|
  {
    if m == 0 then 0.0 else SumFirst(s, m - 1) + s[m - 1]
  }

  /** The Bernstein weight of control point i among n + 1 at parameter t. */
  function Bernstein(n: nat, i: nat, t: real): real
    requires i <= n
  {
    Term(n, i, t, 1.0 - t)
  }

  /** The weighted sum of the first m control points, in the order the
      source's loop adds them to its accumulator. */
  function PartialSum(points: seq<Point>, t: real, m: nat): Point
    requires m <= |points|
  {
    if m == 0 then Origin
    else Add(PartialSum(points, t, m - 1), Scale(Bernstein(|points| - 1, m - 1, t), points[m - 1]))
  }

  /** The point of the Bezier curve over `points` at parameter t.  With no
      control points the loop runs zero times and the result is the origin. */
  function BezierAt(points: seq<Point>, t: real): Point
  {
    PartialSum(points, t, |points|)
  }

  /** `bezier_curve(points, t)`: the accumulating loop over i = 0..n. */
  method BezierCurve(points: seq<Point>, t: real) returns (p: Point)
    ensures p == BezierAt(points, t)
  {
    var n := |points| - 1;
    p := Origin;
    for i := 0 to |points|
      invariant p == PartialSum(points, t, i)
    {
      var bernstein := (Comb(n, i) as real) * Pow(t, i) * Pow(1.0 - t, n - i);
      assert bernstein == Bernstein(n, i, t);
      p := Add(p, Scale(bernstein, points[i]));
    }
  }

  // ---------------------------------------------------------------------
  // Facts about the coefficients

  lemma {:induction false} PowOne(k: nat)
    ensures Pow(1.0, k) == 1.0
  {
    if k > 0 { PowOne(k - 1); }
  }

  lemma {:induction false} CombAbove(n: nat, k: nat)
    requires k > n
    ensures Comb(n, k) == 0
  {
    if n > 0 { CombAbove(n - 1, k - 1); CombAbove(n - 1, k); }
  }

  lemma {:induction false} CombDiagonal(n: nat)
    ensures Comb(n, n) == 1
  {
    if n > 0 { CombDiagonal(n - 1); CombAbove(n - 1, n); }
  }

  lemma {:induction false} TermsBelowEntry(n: nat, a: real, b: real, m: nat, i: nat)
    requires i < m <= n + 1
    ensures TermsBelow(n, a, b, m)[i] == Term(n, i, a, b)
  {
    if i < m - 1 {
      TermsBelowEntry(n, a, b, m - 1, i);
    }
  }

  /** Entry i of the row is the i-th term of the expansion. */
  lemma TermsEntry(n: nat, a: real, b: real, i: nat)
    requires i <= n
    ensures Terms(n, a, b)[i] == Term(n, i, a, b)
  {
    TermsBelowEntry(n, a, b, n + 1, i);
  }

  /** The linear bookkeeping of one step of `SumFirstLinear`, over plain reals. */
  lemma Regroup(a: real, b: real, sum: real, prev: real, s0: real, s1: real, t0: real, t1: real,
                u0: real, u1: real)
    requires sum == prev + (a * t0 + b * t1) && prev == a * s0 + b * s1
    requires u0 == s0 + t0 && u1 == s1 + t1
    ensures sum == a * u0 + b * u1
  {
  }

  /** Summation is linear: a sequence whose entries are a x_i + b y_i sums to
      a times the sum of x plus b times the sum of y. */
  lemma {:induction false} SumFirstLinear(x: seq<real>, y: seq<real>, z: seq<real>, a: real, b: real, m: nat)
    requires m <= |x| && m <= |y| && m <= |z|
    requires forall i :: 0 <= i < m ==> z[i] == a * x[i] + b * y[i]
    ensures SumFirst(z, m) == a * SumFirst(x, m) + b * SumFirst(y, m)
  {
    if m > 0 {
      SumFirstLinear(x, y, z, a, b, m - 1);
      var sx, sy, sz := SumFirst(x, m - 1), SumFirst(y, m - 1), SumFirst(z, m - 1);
      var xi, yi, zi := x[m - 1], y[m - 1], z[m - 1];
      assert zi == a * xi + b * yi;
      assert SumFirst(z, m) == sz + zi;
      assert SumFirst(x, m) == sx + xi;
      assert SumFirst(y, m) == sy + yi;
      Regroup(a, b, SumFirst(z, m), sz, sx, sy, xi, yi, SumFirst(x, m), SumFirst(y, m));
    }
  }

  /** A leading zero does not change a sum. */
  lemma {:induction false} SumFirstShift(s: seq<real>, m: nat)
    requires m <= |s|
    ensures SumFirst([0.0] + s, m + 1) == SumFirst(s, m)
  {
    if m > 0 {
      SumFirstShift(s, m - 1);
      assert ([0.0] + s)[m] == s[m - 1];
    } else {
      assert ([0.0] + s)[0] == 0.0;
    }
  }

  /** A trailing zero does not change a sum. */
  lemma {:induction false} SumFirstPad(s: seq<real>, m: nat)
    requires m <= |s|
    ensures SumFirst(s + [0.0], m) == SumFirst(s, m)
  {
    if m > 0 {
      SumFirstPad(s, m - 1);
      assert (s + [0.0])[m - 1] == s[m - 1];
    }
  }

  /** The first and the last term of the expansion. */
  lemma TermEnds(n: nat, a: real, b: real)
    ensures Term(n, 0, a, b) == Pow(b, n)
    ensures Term(n, n, a, b) == Pow(a, n)
  {
    CombDiagonal(n);
  }

  /** Pascal's rule, lifted to the terms of the expansion. */
  lemma PascalTerm(n: nat, i: nat, a: real, b: real)
    requires 1 <= i <= n
    ensures Term(n + 1, i, a, b) == a * Term(n, i - 1, a, b) + b * Term(n, i, a, b)
  {
    var c1, c2 := Comb(n, i - 1) as real, Comb(n, i) as real;
    var pa, pb := Pow(a, i), Pow(b, n + 1 - i);
    assert Comb(n + 1, i) as real == c1 + c2;
    assert pa == a * Pow(a, i - 1);
    assert pb == b * Pow(b, n - i);
    calc {
      a * Term(n, i - 1, a, b) + b * Term(n, i, a, b);
      a * (c1 * Pow(a, i - 1) * pb) + b * (c2 * pa * Pow(b, n - i));
      c1 * (a * Pow(a, i - 1)) * pb + c2 * pa * (b * Pow(b, n - i));
      c1 * pa * pb + c2 * pa * pb;
      (c1 + c2) * pa * pb;
      Term(n + 1, i, a, b);
    }
  }

  /** The first term of the next row: b^(n+1) == a * 0 + b * b^n. */
  lemma PascalFirst(n: nat, a: real, b: real)
    ensures Term(n + 1, 0, a, b) == a * 0.0 + b * Term(n, 0, a, b)
  {
    TermEnds(n, a, b);
    TermEnds(n + 1, a, b);
  }

  /** The last term of the next row: a^(n+1) == a * a^n + b * 0. */
  lemma PascalLast(n: nat, a: real, b: real)
    ensures Term(n + 1, n + 1, a, b) == a * Term(n, n, a, b) + b * 0.0
  {
    TermEnds(n, a, b);
    TermEnds(n + 1, a, b);
  }

  lemma PascalEntryFirst(n: nat, a: real, b: real)
    ensures Terms(n + 1, a, b)[0] == a * ([0.0] + Terms(n, a, b))[0] + b * (Terms(n, a, b) + [0.0])[0]
  {
    var row := Terms(n, a, b);
    var x, y := [0.0] + row, row + [0.0];
    assert x[0] == 0.0;
    assert y[0] == row[0];
    TermsEntry(n, a, b, 0);
    TermsEntry(n + 1, a, b, 0);
    PascalFirst(n, a, b);
  }

  lemma PascalEntryMiddle(n: nat, a: real, b: real, i: nat)
    requires 1 <= i <= n
    ensures Terms(n + 1, a, b)[i] == a * ([0.0] + Terms(n, a, b))[i] + b * (Terms(n, a, b) + [0.0])[i]
  {
    var row := Terms(n, a, b);
    var x, y := [0.0] + row, row + [0.0];
    assert x[i] == row[i - 1];
    assert y[i] == row[i];
    TermsEntry(n, a, b, i - 1);
    TermsEntry(n, a, b, i);
    TermsEntry(n + 1, a, b, i);
    PascalTerm(n, i, a, b);
  }

  lemma PascalEntryLast(n: nat, a: real, b: real)
    ensures Terms(n + 1, a, b)[n + 1] == a * ([0.0] + Terms(n, a, b))[n + 1] + b * (Terms(n, a, b) + [0.0])[n + 1]
  {
    var row := Terms(n, a, b);
    var x, y := [0.0] + row, row + [0.0];
    assert x[n + 1] == row[n];
    assert y[n + 1] == 0.0;
    TermsEntry(n, a, b, n);
    TermsEntry(n + 1, a, b, n + 1);
    PascalLast(n, a, b);
  }

  /** Row n + 1 of the expansion is a times row n shifted right plus b times row n. */
  lemma PascalRow(n: nat, a: real, b: real)
    ensures forall i :: 0 <= i < n + 2 ==>
              Terms(n + 1, a, b)[i] == a * ([0.0] + Terms(n, a, b))[i] + b * (Terms(n, a, b) + [0.0])[i]
  {
    forall i | 0 <= i < n + 2
      ensures Terms(n + 1, a, b)[i] == a * ([0.0] + Terms(n, a, b))[i] + b * (Terms(n, a, b) + [0.0])[i]
    {
      if i == 0 {
        PascalEntryFirst(n, a, b);
      } else if i <= n {
        PascalEntryMiddle(n, a, b, i);
      } else {
        PascalEntryLast(n, a, b);
      }
    }
  }

  /** The binomial theorem: the terms of the expansion add up to (a + b)^n. */
  lemma {:induction false} Binomial(n: nat, a: real, b: real)
    ensures SumFirst(Terms(n, a, b), n + 1) == Pow(a + b, n)
  {
    if n == 0 {
      TermsEntry(0, a, b, 0);
      assert Terms(0, a, b)[0] == Term(0, 0, a, b) == 1.0;
    } else {
      calc {
        SumFirst(Terms(n, a, b), n + 1);
        == { RowSum(n - 1, a, b); }
        (a + b) * SumFirst(Terms(n - 1, a, b), n);
        == { Binomial(n - 1, a, b); }
        (a + b) * Pow(a + b, n - 1);
        ==
        Pow(a + b, n);
      }
    }
  }

  /** The terms of row n + 1 add up to (a + b) times those of row n. */
  lemma RowSum(n: nat, a: real, b: real)
    ensures SumFirst(Terms(n + 1, a, b), n + 2) == (a + b) * SumFirst(Terms(n, a, b), n + 1)
  {
    var row := Terms(n, a, b);
    var x, y := [0.0] + row, row + [0.0];
    PascalRow(n, a, b);
    SumFirstLinear(x, y, Terms(n + 1, a, b), a, b, n + 2);
    SumFirstShift(row, n + 1);
    SumFirstPad(row, n + 1);
    assert SumFirst(y, n + 2) == SumFirst(y, n + 1) + y[n + 1];
    var sum := SumFirst(row, n + 1);
    assert a * sum + b * sum == (a + b) * sum;
  }

  /** The Bernstein weights of n + 1 control points add up to one at every t. */
  lemma PartitionOfUnity(n: nat, t: real)
    ensures SumFirst(Terms(n, t, 1.0 - t), n + 1) == 1.0
  {
    Binomial(n, t, 1.0 - t);
    PowOne(n);
  }

  // ---------------------------------------------------------------------
  // Endpoint interpolation

  lemma {:induction false} PartialSumAtStart(points: seq<Point>, m: nat)
    requires 1 <= m <= |points|
    ensures PartialSum(points, 0.0, m) == points[0]
  {
    var n := |points| - 1;
    if m == 1 {
      PowOne(n);
      assert Bernstein(n, 0, 0.0) == 1.0;
    } else {
      PartialSumAtStart(points, m - 1);
      assert Pow(0.0, m - 1) == 0.0;
      assert Bernstein(n, m - 1, 0.0) == 0.0;
    }
  }

  lemma {:induction false} PartialSumBeforeEnd(points: seq<Point>, m: nat)
    requires m < |points|
    ensures PartialSum(points, 1.0, m) == Origin
  {
    if m > 0 {
      var n := |points| - 1;
      PartialSumBeforeEnd(points, m - 1);
      assert Pow(0.0, n - (m - 1)) == 0.0;
      assert Bernstein(n, m - 1, 1.0) == 0.0;
    }
  }

  /** The curve starts at the first control point. */
  lemma BezierStart(points: seq<Point>)
    requires |points| >= 1
    ensures BezierAt(points, 0.0) == points[0]
  {
    PartialSumAtStart(points, |points|);
  }

  /** The curve ends at the last control point. */
  lemma BezierEnd(points: seq<Point>)
    requires |points| >= 1
    ensures BezierAt(points, 1.0) == points[|points| - 1]
  {
    var n := |points| - 1;
    PartialSumBeforeEnd(points, n);
    CombDiagonal(n);
    PowOne(n);
    assert Bernstein(n, n, 1.0) == 1.0;
  }

  lemma HalfWeights()
    ensures Bernstein(2, 0, 0.5) == 0.25 && Bernstein(2, 1, 0.5) == 0.5 && Bernstein(2, 2, 0.5) == 0.25
  {
    assert Comb(1, 0) == 1 && Comb(1, 1) == 1 && Comb(1, 2) == 0;
    assert Comb(2, 0) == 1 && Comb(2, 1) == 2 && Comb(2, 2) == 1;
    assert Pow(0.5, 0) == 1.0;
    assert Pow(0.5, 1) == 0.5;
    assert Pow(0.5, 2) == 0.25;
  }

  /** A quadratic curve at t = 1/2 weighs its control points 1/4, 1/2, 1/4. */
  lemma QuadraticAtHalf(ps: seq<Point>)
    requires |ps| == 3
    ensures BezierAt(ps, 0.5)
         == Add(Add(Add(Origin, Scale(0.25, ps[0])), Scale(0.5, ps[1])), Scale(0.25, ps[2]))
  {
    HalfWeights();
    assert PartialSum(ps, 0.5, 1) == Add(Origin, Scale(0.25, ps[0]));
    assert PartialSum(ps, 0.5, 2) == Add(PartialSum(ps, 0.5, 1), Scale(0.5, ps[1]));
    assert PartialSum(ps, 0.5, 3) == Add(PartialSum(ps, 0.5, 2), Scale(0.25, ps[2]));
  }

  /** Worked example: the quadratic curve over (0,0), (50,100), (100,0) passes through (50,50) at t = 1/2. */
  lemma QuadraticMidpoint()
    ensures BezierAt([Point(0.0, 0.0), Point(50.0, 100.0), Point(100.0, 0.0)], 0.5) == Point(50.0, 50.0)
  {
    var ps := [Point(0.0, 0.0), Point(50.0, 100.0), Point(100.0, 0.0)];
    QuadraticAtHalf(ps);
    assert Add(Add(Add(Origin, Scale(0.25, ps[0])), Scale(0.5, ps[1])), Scale(0.25, ps[2])) == Point(50.0, 50.0);
  }

  // ---------------------------------------------------------------------
  // Affine invariance

  /** The affine map p |-> M p + d. */
  datatype Affine = Affine(m11: real, m12: real, m21: real, m22: real, dx: real, dy: real)

  function Apply(f: Affine, p: Point): Point
  {
    Point(f.m11 * p.x + f.m12 * p.y + f.dx, f.m21 * p.x + f.m22 * p.y + f.dy)
  }

  /** The linear part of an affine map. */
  function Linear(f: Affine, p: Point): Point
  {
    Point(f.m11 * p.x + f.m12 * p.y, f.m21 * p.x + f.m22 * p.y)
  }

  function MapPoints(f: Affine, points: seq<Point>): (r: seq<Point>)
    ensures |r| == |points|
    ensures forall i :: 0 <= i < |points| ==> r[i] == Apply(f, points[i])
  {
    if points == [] then [] else [Apply(f, points[0])] + MapPoints(f, points[1..])
  }

  // Point algebra, each identity over the two coordinates.

  lemma ApplyLinear(f: Affine, p: Point)
    ensures Apply(f, p) == Add(Linear(f, p), Point(f.dx, f.dy))
  {
  }

  lemma LinearAdd(f: Affine, p: Point, q: Point)
    ensures Linear(f, Add(p, q)) == Add(Linear(f, p), Linear(f, q))
  {
    assert f.m11 * (p.x + q.x) == f.m11 * p.x + f.m11 * q.x;
    assert f.m12 * (p.y + q.y) == f.m12 * p.y + f.m12 * q.y;
    assert f.m21 * (p.x + q.x) == f.m21 * p.x + f.m21 * q.x;
    assert f.m22 * (p.y + q.y) == f.m22 * p.y + f.m22 * q.y;
  }

  lemma LinearScale(f: Affine, c: real, p: Point)
    ensures Linear(f, Scale(c, p)) == Scale(c, Linear(f, p))
  {
    assert c * (f.m11 * p.x + f.m12 * p.y) == f.m11 * (c * p.x) + f.m12 * (c * p.y);
    assert c * (f.m21 * p.x + f.m22 * p.y) == f.m21 * (c * p.x) + f.m22 * (c * p.y);
  }

  lemma ScaleAdd(c: real, p: Point, q: Point)
    ensures Scale(c, Add(p, q)) == Add(Scale(c, p), Scale(c, q))
  {
    assert c * (p.x + q.x) == c * p.x + c * q.x;
    assert c * (p.y + q.y) == c * p.y + c * q.y;
  }

  lemma AddScales(a: real, b: real, p: Point)
    ensures Add(Scale(a, p), Scale(b, p)) == Scale(a + b, p)
  {
    assert (a + b) * p.x == a * p.x + b * p.x;
    assert (a + b) * p.y == a * p.y + b * p.y;
  }

  lemma AddShuffle(p: Point, q: Point, r: Point, s: Point)
    ensures Add(Add(p, q), Add(r, s)) == Add(Add(p, r), Add(q, s))
  {
  }

  /** One step of the affine sum: adding a weighted mapped point to the
      linear image plus the weighted translation. */
  lemma AffineStep(f: Affine, s: Point, q: Point, w: real, ws: real)
    ensures Add(Add(Linear(f, s), Scale(ws, Point(f.dx, f.dy))), Scale(w, Apply(f, q)))
         == Add(Linear(f, Add(s, Scale(w, q))), Scale(ws + w, Point(f.dx, f.dy)))
  {
    var d := Point(f.dx, f.dy);
    ApplyLinear(f, q);
    ScaleAdd(w, Linear(f, q), d);
    AddShuffle(Linear(f, s), Scale(ws, d), Scale(w, Linear(f, q)), Scale(w, d));
    LinearScale(f, w, q);
    AddScales(ws, w, d);
    LinearAdd(f, s, Scale(w, q));
    calc {
      Add(Add(Linear(f, s), Scale(ws, d)), Scale(w, Apply(f, q)));
      Add(Add(Linear(f, s), Scale(ws, d)), Scale(w, Add(Linear(f, q), d)));
      Add(Add(Linear(f, s), Scale(ws, d)), Add(Scale(w, Linear(f, q)), Scale(w, d)));
      Add(Add(Linear(f, s), Scale(w, Linear(f, q))), Add(Scale(ws, d), Scale(w, d)));
      Add(Add(Linear(f, s), Linear(f, Scale(w, q))), Scale(ws + w, d));
      Add(Linear(f, Add(s, Scale(w, q))), Scale(ws + w, d));
    }
  }

  lemma {:induction false} PartialSumAffine(f: Affine, points: seq<Point>, t: real, m: nat)
    requires 1 <= |points| && m <= |points|
    ensures PartialSum(MapPoints(f, points), t, m)
         == Add(Linear(f, PartialSum(points, t, m)),
                Scale(SumFirst(Terms(|points| - 1, t, 1.0 - t), m), Point(f.dx, f.dy)))
  {
    if m > 0 {
      var n := |points| - 1;
      var image := MapPoints(f, points);
      var w, ws := Bernstein(n, m - 1, t), SumFirst(Terms(n, t, 1.0 - t), m - 1);
      var s, q := PartialSum(points, t, m - 1), points[m - 1];
      PartialSumAffine(f, points, t, m - 1);
      AffineStep(f, s, q, w, ws);
      TermsEntry(n, t, 1.0 - t, m - 1);
      assert |image| == |points| && image[m - 1] == Apply(f, q);
      assert PartialSum(image, t, m) == Add(PartialSum(image, t, m - 1), Scale(w, Apply(f, q)));
      assert PartialSum(points, t, m) == Add(s, Scale(w, q));
      assert SumFirst(Terms(n, t, 1.0 - t), m) == ws + w;
    } else {
      var d := Point(f.dx, f.dy);
      assert Linear(f, Origin) == Origin;
      assert Scale(0.0, d) == Origin;
    }
  }

  /** Evaluating the image of the control points under an affine map gives
      the image of the evaluated point. */
  lemma BezierAffine(f: Affine, points: seq<Point>, t: real)
    requires |points| >= 1
    ensures BezierAt(MapPoints(f, points), t) == Apply(f, BezierAt(points, t))
  {
    PartialSumAffine(f, points, t, |points|);
    PartitionOfUnity(|points| - 1, t);
    ApplySplit(f, BezierAt(points, t), SumFirst(Terms(|points| - 1, t, 1.0 - t), |points|));
  }

  /** An affine map is its linear part plus the translation, counted once. */
  lemma ApplySplit(f: Affine, p: Point, w: real)
    requires w == 1.0
    ensures Add(Linear(f, p), Scale(w, Point(f.dx, f.dy))) == Apply(f, p)
  {
  }
}
