// Batch statistics over exact reals (src/Stats.ts). The square roots of
// `stdev` and `stdevSample` are not modelled: the functions here return the
// variances whose square roots the source takes.
module Stats {

  /** The total of a sequence, starting from 0. */
  function Total(s: seq<real>): real {
    if |s| == 0 then 0.0 else Total(s[..|s| - 1]) + s[|s| - 1]
  }

  /** `Stats.sum`: `reduce` without an initial value, so the array must be
      non-empty; the first element seeds the left-to-right fold. */
  function Sum(s: seq<real>): (r: real)
    requires |s| > 0
    ensures r == Total(s)
  {
    if |s| == 1 then s[0] else Sum(s[..|s| - 1]) + s[|s| - 1]
  }

  /** `Stats.mean`. */
  function Mean(s: seq<real>): real
    requires |s| > 0
  {
    Sum(s) / |s| as real
  }

  function Sq(x: real): real {
    x * x
  }

  /** The squared deviations `(x - m) ** 2` of every element. */
  function SqDevs(s: seq<real>, m: real): (r: seq<real>)
    ensures |r| == |s|
  {
    seq(|s|, i requires 0 <= i < |s| => Sq(s[i] - m))
  }

  /** The square of `Stats.stdev`: the mean squared deviation from the mean. */
  function Variance(s: seq<real>): real
    requires |s| > 0
  {
    Mean(SqDevs(s, Mean(s)))
  }

  /** The square of `Stats.stdevSample`: the summed squared deviation divided by
      `n - 1`, defined only for two or more values. */
  function SampleVariance(s: seq<real>): real
    requires |s| >= 2
  {
    Sum(SqDevs(s, Mean(s))) / (|s| - 1) as real
  }

  /** The total of a sequence grows by the appended element. */
  lemma {:induction false} TotalAppend(u: seq<real>, y: real)
    ensures Total(u + [y]) == Total(u) + y
  {
    assert (u + [y])[..|u|] == u;
  }

  lemma {:induction false} TotalOfNonnegative(s: seq<real>)
    requires forall i :: 0 <= i < |s| ==> s[i] >= 0.0
    ensures Total(s) >= 0.0
  {
    if |s| > 0 {
      TotalOfNonnegative(s[..|s| - 1]);
    }
  }

  /** A total of non-negative terms with one positive term is positive. */
  lemma {:induction false} TotalOfNonnegativePositive(s: seq<real>, k: nat)
    requires forall i :: 0 <= i < |s| ==> s[i] >= 0.0
    requires k < |s| && s[k] > 0.0
    ensures Total(s) > 0.0
  {
    if k == |s| - 1 {
      TotalOfNonnegative(s[..|s| - 1]);
    } else {
      TotalOfNonnegativePositive(s[..|s| - 1], k);
    }
  }

  lemma {:induction false} TotalOfConstant(s: seq<real>, c: real)
    requires forall i :: 0 <= i < |s| ==> s[i] == c
    ensures Total(s) == |s| as real * c
  {
    if |s| > 0 {
      TotalOfConstant(s[..|s| - 1], c);
    }
  }

  lemma {:induction false} SqDevsNonnegative(s: seq<real>, m: real)
    ensures forall i :: 0 <= i < |s| ==> SqDevs(s, m)[i] >= 0.0
  {
  }

  /** One squared deviation re-centred from `a` to `b`, with `c = 2(a - b)`
      and `q = (a - b)^2`. */
  lemma SqShiftPoint(x: real, a: real, b: real, c: real, q: real)
    requires c == 2.0 * (a - b) && q == Sq(a - b)
    ensures Sq(x - b) == Sq(x - a) + c * (x - a) + q
  {
  }

  /** What re-centring `n` values with total `t` from `a` to `b` adds to their
      summed squared deviation, with `c = 2(a - b)` and `q = (a - b)^2`. */
  function ShiftTerm(c: real, t: real, n: real, a: real, q: real): real {
    c * (t - n * a) + n * q
  }

  lemma ShiftTermStep(c: real, t: real, n: real, a: real, q: real, x: real)
    ensures ShiftTerm(c, t + x, n + 1.0, a, q) == ShiftTerm(c, t, n, a, q) + c * (x - a) + q
  {
  }

  /** About the mean the cross term vanishes. */
  lemma ShiftTermCentred(c: real, t: real, n: real, a: real, q: real)
    requires t == n * a
    ensures ShiftTerm(c, t, n, a, q) == n * q
  {
  }

  /** Appending a value appends its squared deviation. */
  lemma {:induction false} SqDevsAppend(s: seq<real>, x: real, m: real)
    ensures Total(SqDevs(s + [x], m)) == Total(SqDevs(s, m)) + Sq(x - m)
  {
    assert SqDevs(s + [x], m) == SqDevs(s, m) + [Sq(x - m)];
    TotalAppend(SqDevs(s, m), Sq(x - m));
  }

  /** One value added to the totals keeps the re-centring relation. */
  lemma ShiftStep(da: real, db: real, da': real, db': real, t: real, t': real, n: real, x: real, a: real, b: real)
    requires db == da + ShiftTerm(2.0 * (a - b), t, n, a, Sq(a - b))
    requires t' == t + x && da' == da + Sq(x - a) && db' == db + Sq(x - b)
    ensures db' == da' + ShiftTerm(2.0 * (a - b), t', n + 1.0, a, Sq(a - b))
  {
    SqShiftPoint(x, a, b, 2.0 * (a - b), Sq(a - b));
    ShiftTermStep(2.0 * (a - b), t, n, a, Sq(a - b), x);
  }

  /** Re-centring the squared deviations from `a` to `b`. */
  lemma {:induction false} SqDevsShift(s: seq<real>, a: real, b: real)
    ensures Total(SqDevs(s, b)) == Total(SqDevs(s, a)) + ShiftTerm(2.0 * (a - b), Total(s), |s| as real, a, Sq(a - b))
  {
    if |s| > 0 {
      var k := |s| - 1;
      assert s[..k] + [s[k]] == s;
      SqDevsShift(s[..k], a, b);
      SqDevsAppend(s[..k], s[k], a);
      SqDevsAppend(s[..k], s[k], b);
      ShiftStep(Total(SqDevs(s[..k], a)), Total(SqDevs(s[..k], b)), Total(SqDevs(s, a)), Total(SqDevs(s, b)),
                Total(s[..k]), Total(s), k as real, s[k], a, b);
    }
  }

  /** Both variances are non-negative. */
  lemma {:induction false} VariancesNonnegative(s: seq<real>)
    requires |s| > 0
    ensures Variance(s) >= 0.0
    ensures |s| >= 2 ==> SampleVariance(s) >= 0.0
  {
    SqDevsNonnegative(s, Mean(s));
    TotalOfNonnegative(SqDevs(s, Mean(s)));
  }

  /** Both variances vanish on a constant sequence. */
  lemma {:induction false} ConstantHasNoVariance(s: seq<real>)
    requires |s| > 0
    requires forall i :: 0 <= i < |s| ==> s[i] == s[0]
    ensures Mean(s) == s[0]
    ensures Variance(s) == 0.0
    ensures |s| >= 2 ==> SampleVariance(s) == 0.0
  {
    TotalOfConstant(s, s[0]);
    TotalOfConstant(SqDevs(s, Mean(s)), 0.0);
  }

  /** Sample variance times `n - 1` is population variance times `n`. */
  lemma {:induction false} SampleVarianceScales(s: seq<real>)
    requires |s| >= 2
    ensures SampleVariance(s) * (|s| - 1) as real == Variance(s) * |s| as real
  {
  }

  /** Re-centring the squared deviations away from the mean `a` of `s` to any
      `b` adds `n (a - b)^2`. */
  lemma {:induction false} SqDevsRecentre(s: seq<real>, a: real, b: real)
    requires Total(s) == |s| as real * a
    ensures Total(SqDevs(s, b)) == Total(SqDevs(s, a)) + |s| as real * Sq(a - b)
  {
    SqDevsShift(s, a, b);
    ShiftTermCentred(2.0 * (a - b), Total(s), |s| as real, a, Sq(a - b));
  }

  /** `m` is the mean exactly when `n` copies of it make up the total. */
  lemma {:induction false} MeanIsTotalOverCount(s: seq<real>, m: real)
    requires |s| > 0
    ensures m == Mean(s) <==> Total(s) == |s| as real * m
  {
  }
}
