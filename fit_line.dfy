// Least-squares line fit (src/fit_line.rs) over exact reals. The source works
// in f32; here a zero denominator, where f32 division yields infinities or
// NaN, is reported as `None`.
module FitLine {
  import opened Util
  import opened Stats

  type Point = (real, real)

  function Xs(points: seq<Point>): (r: seq<real>)
    ensures |r| == |points|
  {
    seq(|points|, i requires 0 <= i < |points| => points[i].0)
  }

  function Ys(points: seq<Point>): (r: seq<real>)
    ensures |r| == |points|
  {
    seq(|points|, i requires 0 <= i < |points| => points[i].1)
  }

  function XY(p: Point): real {
    p.0 * p.1
  }

  /** The products `x * y` of every point. */
  function Products(points: seq<Point>): (r: seq<real>)
    ensures |r| == |points|
  {
    seq(|points|, i requires 0 <= i < |points| => XY(points[i]))
  }

  /** The running sums `(Σx, Σy, Σx², Σxy)` of the single left fold. */
  datatype Sums = Sums(x: real, y: real, xx: real, xy: real)

  /** The squares `x * x` of every point, which are the squared deviations of
      the x values from 0. */
  function Squares(points: seq<Point>): (r: seq<real>)
    ensures |r| == |points|
  {
    SqDevs(Xs(points), 0.0)
  }

  /** The step of the fold: adds `x`, `y`, `x * x` and `x * y` of the point
      `p` to the running sums. */
  function AddPoint(s: Sums, p: Point): Sums {
    Sums(s.x + p.0, s.y + p.1, s.xx + p.0 * p.0, s.xy + p.0 * p.1)
  }

  /** The single left fold of `AddPoint` from `(0, 0, 0, 0)`. */
  function Accumulate(points: seq<Point>): Sums {
    if |points| == 0 then Sums(0.0, 0.0, 0.0, 0.0)
    else AddPoint(Accumulate(points[..|points| - 1]), points[|points| - 1])
  }

  lemma {:induction false} ColumnsOfAppend(points: seq<Point>, p: Point)
    ensures Xs(points + [p]) == Xs(points) + [p.0] && Ys(points + [p]) == Ys(points) + [p.1]
    ensures Squares(points + [p]) == Squares(points) + [Sq(p.0 - 0.0)] && Products(points + [p]) == Products(points) + [XY(p)]
  {
    var q := points + [p];
    assert forall i :: 0 <= i < |points| ==> q[i] == points[i];
    assert Xs(q) == Xs(points) + [p.0];
    assert Ys(q) == Ys(points) + [p.1];
    assert Squares(q) == Squares(points) + [Sq(p.0 - 0.0)];
    assert Products(q) == Products(points) + [XY(p)];
  }

  /** The column totals `(Σx, Σy, Σx², Σxy)`. */
  function ColumnTotals(points: seq<Point>): Sums {
    Sums(Total(Xs(points)), Total(Ys(points)), Total(Squares(points)), Total(Products(points)))
  }

  /** Appending a point adds its `x`, `y`, `x * x` and `x * y` to the column
      totals. */
  lemma {:induction false} ColumnTotalsOfAppend(points: seq<Point>, p: Point)
    ensures ColumnTotals(points + [p]) == AddPoint(ColumnTotals(points), p)
  {
    ColumnsOfAppend(points, p);
    TotalAppend(Xs(points), p.0);
    TotalAppend(Ys(points), p.1);
    TotalAppend(Squares(points), Sq(p.0 - 0.0));
    TotalAppend(Products(points), XY(p));
  }

  /** Each field of the fold is the total of one column. */
  lemma {:induction false} AccumulateIsTotals(points: seq<Point>)
    ensures Accumulate(points) == ColumnTotals(points)
  {
    if |points| > 0 {
      var k := |points| - 1;
      AccumulateIsTotals(points[..k]);
      ColumnTotalsOfAppend(points[..k], points[k]);
      assert points[..k] + [points[k]] == points;
    }
  }

  /** The closed form after the fold: `b = (nΣxy − ΣxΣy)/(nΣx² − (Σx)²)` and
      `a = (Σy − bΣx)/n`, or `None` where the denominator vanishes. With no
      points every sum is 0, so the denominator is 0 as well. */
  function Denominator(n: real, s: Sums): real {
    n * s.xx - s.x * s.x
  }

  function FitSums(n: real, s: Sums): (r: Option<(real, real)>)
    requires n != 0.0 || s.x == 0.0
  {
    var den := Denominator(n, s);
    if den == 0.0 then None
    else
      var b := (n * s.xy - s.x * s.y) / den;
      var a := (s.y - b * s.x) / n;
      Some((a, b))
  }

  /** `fit_line(points)`. */
  function Fit(points: seq<Point>): (r: Option<(real, real)>)
  {
    FitSums(|points| as real, Accumulate(points))
  }

  /** The least-squares normal equations of the sums `s` of `n` points for
      the line `y = a + b x`: `n a + b Σx = Σy` and `a Σx + b Σx² = Σxy`. They
      say that the residuals `y - a - b x`, and the residuals times `x`, total
      0. */
  predicate SolvesNormalEquations(n: real, s: Sums, a: real, b: real) {
    Residuals(n, s, a, b).0 == 0.0 && Residuals(n, s, a, b).1 == 0.0
  }

  /** The totals of the residuals `y - a - b x` and of `x (y - a - b x)`. */
  function Residuals(n: real, s: Sums, a: real, b: real): (real, real) {
    (s.y - n * a - b * s.x, s.xy - a * s.x - b * s.xx)
  }

  /** A defined fit solves the normal equations. */
  lemma NormalEquations(n: real, s: Sums)
    requires n != 0.0 || s.x == 0.0
    requires FitSums(n, s).Some?
    ensures SolvesNormalEquations(n, s, FitSums(n, s).value.0, FitSums(n, s).value.1)
  {
    var (a, b) := FitSums(n, s).value;
    var den := n * s.xx - s.x * s.x;
    assert b * den == n * s.xy - s.x * s.y;
    assert n * a == s.y - b * s.x;
    assert n * (a * s.x + b * s.xx) == (s.y - b * s.x) * s.x + n * b * s.xx;
    assert (s.y - b * s.x) * s.x + n * b * s.xx == s.y * s.x + b * den;
  }

  lemma MulDivCancel(x: real, d: real)
    requires d != 0.0
    ensures (x * d) / d == x
  {
  }

  /** The slope of a solution of the normal equations is the closed-form
      slope. */
  lemma SlopeOfSolution(n: real, s: Sums, a0: real, b0: real)
    requires Denominator(n, s) != 0.0
    requires SolvesNormalEquations(n, s, a0, b0)
    ensures (n * s.xy - s.x * s.y) / Denominator(n, s) == b0
  {
    var den := Denominator(n, s);
    assert n * s.xy - s.x * s.y == b0 * den;
    MulDivCancel(b0, den);
  }

  /** Given the slope, the intercept of a solution is the closed-form
      intercept. */
  lemma InterceptOfSolution(n: real, s: Sums, a0: real, b0: real)
    requires n != 0.0
    requires SolvesNormalEquations(n, s, a0, b0)
    ensures (s.y - b0 * s.x) / n == a0
  {
    assert s.y - b0 * s.x == a0 * n;
    MulDivCancel(a0, n);
  }

  /** Where the denominator does not vanish, the normal equations have one
      solution only, and the closed form computes it. */
  lemma NormalEquationsUnique(n: real, s: Sums, a0: real, b0: real)
    requires n != 0.0 && Denominator(n, s) != 0.0
    requires SolvesNormalEquations(n, s, a0, b0)
    ensures FitSums(n, s) == Some((a0, b0))
  {
    SlopeOfSolution(n, s, a0, b0);
    InterceptOfSolution(n, s, a0, b0);
    assert FitSums(n, s).Some?;
    assert FitSums(n, s).value.1 == b0;
    assert FitSums(n, s).value.0 == a0;
  }

  /** No points give no fit. */
  lemma EmptyHasNoFit()
    ensures Fit([]) == None
  {
  }

  /** Where the fit of the sums is defined, it is the one and only solution
      of the normal equations. */
  lemma FitSumsIsUniqueSolution(n: real, s: Sums, a: real, b: real)
    requires n != 0.0 && FitSums(n, s).Some?
    ensures FitSums(n, s) == Some((a, b)) <==> SolvesNormalEquations(n, s, a, b)
  {
    NormalEquations(n, s);
    if SolvesNormalEquations(n, s, a, b) {
      NormalEquationsUnique(n, s, a, b);
    }
  }

  /** A defined fit is the one and only solution of the normal equations over
      the points. */
  lemma {:induction false} FitIsUniqueSolution(points: seq<Point>, a: real, b: real)
    requires Fit(points).Some?
    ensures |points| > 0
    ensures Fit(points) == Some((a, b)) <==> SolvesNormalEquations(|points| as real, Accumulate(points), a, b)
  {
    if |points| == 0 {
      assert points == [];
      EmptyHasNoFit();
    }
    FitSumsIsUniqueSolution(|points| as real, Accumulate(points), a, b);
  }

  /** The height of the line `y = a + b x` at `x`. */
  function LineAt(a: real, b: real, x: real): real {
    a + b * x
  }

  /** A solution of the normal equations passes through the point whose
      coordinates are the totals over `n`. */
  lemma MeanPointAlgebra(n: real, s: Sums, a: real, b: real, mx: real, my: real)
    requires n != 0.0 && SolvesNormalEquations(n, s, a, b)
    requires s.x == n * mx && s.y == n * my
    ensures LineAt(a, b, mx) == my
  {
    assert n * (a + b * mx) == n * my;
  }

  /** A solution of the normal equations over the columns `xs` and `ys`
      passes through their means. */
  lemma {:induction false} MeanPointOfSums(n: real, s: Sums, a: real, b: real, xs: seq<real>, ys: seq<real>)
    requires |xs| > 0 && |ys| == |xs| && n == |xs| as real
    requires SolvesNormalEquations(n, s, a, b)
    requires s.x == Total(xs) && s.y == Total(ys)
    ensures LineAt(a, b, Mean(xs)) == Mean(ys)
  {
    MeanIsTotalOverCount(xs, Mean(xs));
    MeanIsTotalOverCount(ys, Mean(ys));
    MeanPointAlgebra(n, s, a, b, Mean(xs), Mean(ys));
  }

  /** The fitted line passes through the mean point `(x̄, ȳ)`. */
  lemma {:induction false} FitThroughMeanPoint(points: seq<Point>)
    requires Fit(points).Some?
    ensures |points| > 0
    ensures LineAt(Fit(points).value.0, Fit(points).value.1, Mean(Xs(points))) == Mean(Ys(points))
  {
    var (a, b) := Fit(points).value;
    FitIsUniqueSolution(points, a, b);
    AccumulateIsTotals(points);
    MeanPointOfSums(|points| as real, Accumulate(points), a, b, Xs(points), Ys(points));
  }

  /** `Σ(x - c)²` over the points folded into `s`, written with the sums as
      `Σx² − 2cΣx + n c²`. */
  function DevAbout(n: real, s: Sums, c: real): real {
    s.xx - 2.0 * c * s.x + n * c * c
  }

  lemma SqSign(x: real)
    ensures Sq(x) >= 0.0
    ensures Sq(x) > 0.0 <==> x != 0.0
  {
    if x != 0.0 {
      var y := if x > 0.0 then x else -x;
      assert y * y == x * x;
      calc {
        Sq(x);
        x * x;
      >
        0.0;
      }
    }
  }

  /** Folding one more point into the sums adds its squared deviation from
      `c`, so `Σ(x - c)²` stays non-negative and becomes positive exactly
      when it was or the new x differs from `c`. */
  lemma DevAboutStep(n: real, s: Sums, p: Point, n': real, s': Sums, c: real)
    requires n' == n + 1.0 && s' == AddPoint(s, p)
    requires DevAbout(n, s, c) >= 0.0
    ensures DevAbout(n', s', c) >= 0.0
    ensures DevAbout(n', s', c) > 0.0 <==> DevAbout(n, s, c) > 0.0 || p.0 != c
  {
    assert DevAbout(n', s', c) == DevAbout(n, s, c) + Sq(p.0 - c);
    SqSign(p.0 - c);
  }

  /** Folding one more point at `x` into the sums adds `Σ(xᵢ - x)²` over the
      earlier points to the denominator. */
  lemma DenominatorStep(n: real, s: Sums, p: Point, n': real, s': Sums)
    requires n' == n + 1.0 && s' == AddPoint(s, p)
    requires Denominator(n, s) >= 0.0 && DevAbout(n, s, p.0) >= 0.0
    ensures Denominator(n', s') >= 0.0
    ensures Denominator(n', s') > 0.0 <==> Denominator(n, s) > 0.0 || DevAbout(n, s, p.0) > 0.0
  {
    assert Denominator(n', s') == Denominator(n, s) + DevAbout(n, s, p.0);
  }

  /** Some point has an x other than `c`. */
  predicate DiffersFrom(points: seq<Point>, c: real) {
    exists i :: 0 <= i < |points| && points[i].0 != c
  }

  /** Two points have different x. */
  predicate HasDistinctX(points: seq<Point>) {
    exists i, j :: 0 <= i < |points| && 0 <= j < |points| && points[i].0 != points[j].0
  }

  lemma {:induction false} DiffersFromStep(points: seq<Point>, c: real)
    requires |points| > 0
    ensures DiffersFrom(points, c) <==>
      DiffersFrom(points[..|points| - 1], c) || points[|points| - 1].0 != c
  {
    var k := |points| - 1;
    if DiffersFrom(points[..k], c) {
      var i :| 0 <= i < k && points[..k][i].0 != c;
      assert points[i].0 != c;
    }
    if DiffersFrom(points, c) {
      var i :| 0 <= i < |points| && points[i].0 != c;
      if i < k {
        assert points[..k][i].0 != c;
      }
    }
  }

  lemma {:induction false} DistinctStep(points: seq<Point>)
    requires |points| > 0
    ensures HasDistinctX(points) <==>
      HasDistinctX(points[..|points| - 1]) || DiffersFrom(points[..|points| - 1], points[|points| - 1].0)
  {
    var k := |points| - 1;
    var prefix, x := points[..k], points[k].0;
    if HasDistinctX(points) {
      var i, j :| 0 <= i < |points| && 0 <= j < |points| && points[i].0 != points[j].0;
      if i < k && j < k {
        assert prefix[i].0 != prefix[j].0;
      } else if i < k {
        assert prefix[i].0 != x;
      } else if j < k {
        assert prefix[j].0 != x;
      }
    }
    if HasDistinctX(prefix) {
      var i, j :| 0 <= i < k && 0 <= j < k && prefix[i].0 != prefix[j].0;
      assert points[i].0 != points[j].0;
    }
    if DiffersFrom(prefix, x) {
      var i :| 0 <= i < k && prefix[i].0 != x;
      assert points[i].0 != points[k].0;
    }
  }

  /** `Σ(x - c)²` is never negative, and it is positive exactly when some x
      differs from `c`. */
  lemma {:induction false} DevAboutSign(points: seq<Point>, c: real)
    ensures DevAbout(|points| as real, Accumulate(points), c) >= 0.0
    ensures DevAbout(|points| as real, Accumulate(points), c) > 0.0 <==> DiffersFrom(points, c)
  {
    if |points| > 0 {
      var k := |points| - 1;
      DevAboutSign(points[..k], c);
      DevAboutStep(k as real, Accumulate(points[..k]), points[k], |points| as real, Accumulate(points), c);
      DiffersFromStep(points, c);
    }
  }

  /** The denominator `n Σx² − (Σx)²` is never negative, and it is positive
      exactly when two points have different x. */
  lemma {:induction false} DenominatorSign(points: seq<Point>)
    ensures Denominator(|points| as real, Accumulate(points)) >= 0.0
    ensures Denominator(|points| as real, Accumulate(points)) > 0.0 <==> HasDistinctX(points)
  {
    if |points| > 0 {
      var k := |points| - 1;
      DenominatorSign(points[..k]);
      DevAboutSign(points[..k], points[k].0);
      DenominatorStep(k as real, Accumulate(points[..k]), points[k], |points| as real, Accumulate(points));
      DistinctStep(points);
    }
  }

  /** The fit is defined exactly when the denominator does not vanish. */
  lemma FitSumsDefined(n: real, s: Sums)
    requires n != 0.0 || s.x == 0.0
    ensures FitSums(n, s).Some? <==> Denominator(n, s) != 0.0
  {
  }

  lemma {:induction false} FitDefinedIffDenominator(points: seq<Point>)
    ensures Fit(points).Some? <==> Denominator(|points| as real, Accumulate(points)) != 0.0
  {
    FitSumsDefined(|points| as real, Accumulate(points));
  }

  /** The fit is defined exactly when two points have different x. */
  lemma {:induction false} FitDefinedIffDistinctX(points: seq<Point>)
    ensures Fit(points).Some? <==> HasDistinctX(points)
  {
    FitDefinedIffDenominator(points);
    DenominatorSign(points);
  }

  /** One more point on the line `y = a0 + b0 x`, folded into the sums `s`
      of `n` points, keeps both residual totals at 0. */
  lemma ExactLineStep(n: real, s: Sums, p: Point, n': real, s': Sums, a0: real, b0: real)
    requires SolvesNormalEquations(n, s, a0, b0)
    requires p.1 == LineAt(a0, b0, p.0)
    requires n' == n + 1.0 && s' == AddPoint(s, p)
    ensures SolvesNormalEquations(n', s', a0, b0)
  {
    assert p.0 * p.1 == a0 * p.0 + b0 * (p.0 * p.0);
  }

  /** Points on an exact line `y = a0 + b0 x` solve the normal equations
      with `(a0, b0)`. */
  lemma {:induction false} ExactLineSolves(points: seq<Point>, a0: real, b0: real)
    requires forall i :: 0 <= i < |points| ==> points[i].1 == LineAt(a0, b0, points[i].0)
    ensures SolvesNormalEquations(|points| as real, Accumulate(points), a0, b0)
  {
    if |points| > 0 {
      var k := |points| - 1;
      ExactLineSolves(points[..k], a0, b0);
      ExactLineStep(k as real, Accumulate(points[..k]), points[k], |points| as real, Accumulate(points), a0, b0);
    }
  }

  /** Points lying exactly on `y = a0 + b0 x`, with two different x, give
      back `(a0, b0)`. */
  lemma {:induction false} FitRecoversExactLine(points: seq<Point>, a0: real, b0: real)
    requires forall i :: 0 <= i < |points| ==> points[i].1 == LineAt(a0, b0, points[i].0)
    requires HasDistinctX(points)
    ensures Fit(points) == Some((a0, b0))
  {
    FitDefinedIffDistinctX(points);
    ExactLineSolves(points, a0, b0);
    FitIsUniqueSolution(points, a0, b0);
  }
}
