// Welford's online mean and sum of squared deviations
// (src/WelfordCalculator.ts). The calculator keeps a running count, mean,
// summed squared deviation `M2` and best value; the ghost field `xs` records
// the inputs so that every field can be tied to the batch definitions of
// module Stats. The square root of `getStdev` is not modelled.
module Welford {
  import opened Util
  import opened Stats

  /** The algebra of one update: with `d = x - mean` and the new mean
      `mean' = mean + d / k`, where `k = n + 1`, the old deviations grow by
      `n (mean - mean')^2` and the new one adds `(x - mean')^2`. */
  lemma UpdateAlgebra(n: real, k: real, x: real, mean: real, mean': real, delta: real, delta2: real)
    requires n >= 0.0 && k == n + 1.0
    requires delta == x - mean && mean' == mean + delta / k && delta2 == x - mean'
    ensures n * Sq(mean - mean') + Sq(x - mean') == delta * delta2
    ensures k * mean' == n * mean + x
  {
    var e := delta / k;
    assert k * e == delta;
    assert mean - mean' == -e && delta2 == delta - e;
    assert n * Sq(-e) + Sq(delta - e) == k * e * e - 2.0 * delta * e + delta * delta;
  }

  /** The new mean is the mean of the extended inputs. */
  lemma {:induction false} UpdateKeepsMean(xs: seq<real>, x: real, mean: real, mean': real, k: nat, delta: real)
    requires k == |xs| + 1
    requires Total(xs) == |xs| as real * mean
    requires delta == x - mean && mean' == mean + delta / k as real
    ensures mean' == Mean(xs + [x])
  {
    UpdateAlgebra(|xs| as real, k as real, x, mean, mean', delta, x - mean');
    TotalAppend(xs, x);
    MeanIsTotalOverCount(xs + [x], mean');
  }

  /** `M2` grows by `delta * delta2` to the summed squared deviation from the
      new mean. */
  lemma {:induction false} UpdateKeepsM2(xs: seq<real>, x: real, mean: real, mean': real, k: nat, delta: real, delta2: real, m2: real, m2': real)
    requires k == |xs| + 1
    requires Total(xs) == |xs| as real * mean
    requires delta == x - mean && mean' == mean + delta / k as real && delta2 == x - mean'
    requires m2 == Total(SqDevs(xs, mean)) && m2' == m2 + delta * delta2
    ensures m2' == Total(SqDevs(xs + [x], mean'))
  {
    UpdateAlgebra(|xs| as real, k as real, x, mean, mean', delta, delta2);
    SqDevsAppend(xs, x, mean');
    SqDevsRecentre(xs, mean, mean');
  }

  /** The mean recorded by a valid calculator times the count is the total,
      before any input as well. */
  lemma {:induction false} MeanTotal(xs: seq<real>, mean: real)
    requires |xs| == 0 ==> mean == 0.0
    requires |xs| > 0 ==> mean == Mean(xs)
    ensures Total(xs) == |xs| as real * mean
  {
    if |xs| > 0 {
      MeanIsTotalOverCount(xs, mean);
    }
  }

  /** The running maximum of `Math.max` grows by the same comparison the
      calculator makes. */
  lemma {:induction false} MaxExtAppend(xs: seq<real>, x: real)
    ensures MaxExt(xs + [x]) == if MaxExt(xs).Less(Fin(x)) then Fin(x) else MaxExt(xs)
  {
    assert (xs + [x])[..|xs|] == xs;
  }

  /** What the calculator's fields record about the inputs `xs` seen so far. */
  ghost predicate Summarises(xs: seq<real>, n: nat, mean: real, m2: real, best: ExtReal) {
    && n == |xs|
    && (n == 0 ==> mean == 0.0)
    && (n > 0 ==> mean == Mean(xs))
    && m2 == Total(SqDevs(xs, mean))
    && best == MaxExt(xs)
  }

  /** One `update(x)`, with `delta = x - mean` and `delta2 = x - mean'`,
      turns a summary of `xs` into a summary of `xs + [x]`. */
  lemma UpdateSummarises(xs: seq<real>, n: nat, mean: real, m2: real, best: ExtReal,
                         x: real, n': nat, delta: real, mean': real, delta2: real, m2': real, best': ExtReal)
    requires Summarises(xs, n, mean, m2, best)
    requires n' == n + 1 && delta == x - mean && mean' == mean + delta / n' as real
    requires delta2 == x - mean' && m2' == m2 + delta * delta2
    requires best' == if best.Less(Fin(x)) then Fin(x) else best
    ensures Summarises(xs + [x], n', mean', m2', best')
  {
    MeanTotal(xs, mean);
    UpdateKeepsMean(xs, x, mean, mean', n', delta);
    UpdateKeepsM2(xs, x, mean, mean', n', delta, delta2, m2, m2');
    MaxExtAppend(xs, x);
  }

  class WelfordCalculator {
    var n: nat
    var mean: real
    var m2: real
    var best: ExtReal
    /** The inputs seen so far, in order. */
    ghost var xs: seq<real>

    ghost predicate Valid()
      reads this
    {
      Summarises(xs, n, mean, m2, best)
    }

    constructor()
      ensures Valid() && xs == []
      ensures n == 0 && mean == 0.0 && m2 == 0.0 && best == NegInf
    {
      n := 0;
      mean := 0.0;
      m2 := 0.0;
      best := NegInf;
      xs := [];
    }

    /** `update(x)`: the count first, then the mean with the new count, then
        `M2` with the deviations before and after the mean moved. */
    method Update(x: real)
      requires Valid()
      modifies this
      ensures Valid() && xs == old(xs) + [x]
      ensures n == old(n) + 1
      ensures best == if old(best).Less(Fin(x)) then Fin(x) else old(best)
    {
      ghost var n0, mean0, m20, best0 := n, mean, m2, best;
      n := n + 1;
      var delta := x - mean;
      mean := mean + delta / n as real;
      var delta2 := x - mean;
      m2 := m2 + delta * delta2;
      if best.Less(Fin(x)) {
        best := Fin(x);
      }
      UpdateSummarises(xs, n0, mean0, m20, best0, x, n, delta, mean, delta2, m2, best);
      xs := xs + [x];
    }
    /** `getMean()`: the arithmetic mean of the inputs, 0 before any. */
    function GetMean(): (r: real)
      reads this
      requires Valid()
      ensures n > 0 ==> r == Mean(xs)
      ensures n == 0 ==> r == 0.0
    {
      mean
    }

    /** The square of `getStdev()`: undefined (NaN) below two inputs, else
        `M2 / (n - 1)`, which is the sample variance of the inputs. */
    function GetVariance(): (r: Option<real>)
      reads this
      requires Valid()
      ensures r.None? <==> n < 2
      ensures r.Some? ==> r.value == m2 / (n - 1) as real
      ensures r.Some? ==> r.value == SampleVariance(xs) && r.value >= 0.0
    {
      if n < 2 then None
      else
        VariancesNonnegative(xs);
        Some(m2 / (n - 1) as real)
    }

    /** `M2` is never negative. */
    lemma M2Nonnegative()
      requires Valid()
      ensures m2 >= 0.0
    {
      SqDevsNonnegative(xs, mean);
      TotalOfNonnegative(SqDevs(xs, mean));
    }
  }
}
