// Softmax with a temperature (src/softmax.ts). Floating-point exponentiation
// is left abstract: `exp` is any positive function, so the model states the
// shape of the normalisation rather than its numerical values.
module Softmax {
  import opened Util
  import opened Stats

  /** `x.map((v, i) => i === k ? 1 : 0)`. */
  function OneHot(n: nat, k: int): (r: seq<real>)
    ensures |r| == n
    ensures forall i :: 0 <= i < n ==> r[i] == if i == k then 1.0 else 0.0
  {
    seq(n, i requires 0 <= i < n => if i == k then 1.0 else 0.0)
  }

  /** The unnormalised weights `exp((v - max) / temperature)`. */
  function Weights(x: seq<real>, max: real, temperature: real, exp: real -> real): (e: seq<real>)
    requires temperature != 0.0
    ensures |e| == |x|
  {
    seq(|x|, i requires 0 <= i < |x| => exp((x[i] - max) / temperature))
  }

  /** Every weight divided by the same sum. */
  function Normalise(e: seq<real>, sum: real): (r: seq<real>)
    requires sum != 0.0
    ensures |r| == |e|
  {
    seq(|e|, i requires 0 <= i < |e| => e[i] / sum)
  }

  /** `softmax(x, temperature)`: `None` where the source throws, which is a
      non-zero temperature on an empty array (`reduce` of nothing). An empty
      array with temperature 0 maps to an empty array. */
  function Softmax(x: seq<real>, temperature: real, exp: real -> real): (r: Option<seq<real>>)
    requires forall y :: exp(y) > 0.0
    ensures r.None? <==> |x| == 0 && temperature != 0.0
    ensures r.Some? ==> |r.value| == |x|
  {
    if |x| == 0 then
      if temperature == 0.0 then Some([]) else None
    else
      var max := MaxExt(x).r;
      if temperature == 0.0 then
        Some(OneHot(|x|, FirstMaxIndex(x)))
      else
        var e := Weights(x, max, temperature, exp);
        PositiveTotal(e);
        Some(Normalise(e, Sum(e)))
  }

  lemma {:induction false} PositiveTotal(e: seq<real>)
    requires |e| > 0 && forall i :: 0 <= i < |e| ==> e[i] > 0.0
    ensures Total(e) > 0.0
  {
    TotalOfNonnegativePositive(e, 0);
  }

  /** Totals commute with division by a constant. */
  lemma {:induction false} TotalNormalise(e: seq<real>, sum: real)
    requires sum != 0.0
    ensures Total(Normalise(e, sum)) == Total(e) / sum
  {
    if |e| > 0 {
      var k := |e| - 1;
      TotalNormalise(e[..k], sum);
      assert Normalise(e, sum)[..k] == Normalise(e[..k], sum);
    }
  }

  /** `indexOf(Math.max(...x))` is the first index of the maximum. */
  lemma {:induction false} MaxIsAtFirstMaxIndex(x: seq<real>)
    requires |x| > 0
    ensures MaxExt(x) == Fin(x[FirstMaxIndex(x)])
  {
  }

  /** With temperature 0 the output is one-hot at the first maximum: 1 there
      and 0 everywhere else, including at later copies of the maximum. */
  lemma {:induction false} ZeroTemperatureIsArgMax(x: seq<real>, exp: real -> real)
    requires forall y :: exp(y) > 0.0
    requires |x| > 0
    ensures Softmax(x, 0.0, exp).Some?
    ensures forall i :: 0 <= i < |x| ==>
      Softmax(x, 0.0, exp).value[i] == if i == FirstMaxIndex(x) then 1.0 else 0.0
    ensures forall i :: 0 <= i < |x| ==>
      (Softmax(x, 0.0, exp).value[i] == 1.0 <==> x[i] == MaxExt(x).r && forall j :: 0 <= j < i ==> x[j] < x[i])
  {
    MaxIsAtFirstMaxIndex(x);
    var k := FirstMaxIndex(x);
    forall i | 0 <= i < |x|
      ensures Softmax(x, 0.0, exp).value[i] == 1.0 <==> x[i] == MaxExt(x).r && forall j :: 0 <= j < i ==> x[j] < x[i]
    {
      if i < k {
        assert x[i] < x[k];
      } else if i > k {
        assert !(x[k] < x[i]);
      }
    }
  }

  /** `[3, 1, 2]` at temperature 0 gives `[1, 0, 0]`. */
  lemma ZeroTemperatureExample(exp: real -> real)
    requires forall y :: exp(y) > 0.0
    ensures Softmax([3.0, 1.0, 2.0], 0.0, exp) == Some([1.0, 0.0, 0.0])
  {
    var x := [3.0, 1.0, 2.0];
    assert FirstMaxIndex(x[..2]) == 0;
    assert FirstMaxIndex(x) == 0;
    assert OneHot(3, 0) == [1.0, 0.0, 0.0];
  }

  /** With a non-zero temperature the output is the weights over their
      total, which is positive. */
  lemma {:induction false} PositiveTemperatureWeights(x: seq<real>, temperature: real, exp: real -> real)
    requires forall y :: exp(y) > 0.0
    requires |x| > 0 && temperature != 0.0
    ensures var e := Weights(x, MaxExt(x).r, temperature, exp);
      && Total(e) > 0.0
      && Softmax(x, temperature, exp) == Some(Normalise(e, Total(e)))
  {
    PositiveTotal(Weights(x, MaxExt(x).r, temperature, exp));
  }

  /** Positive weights over a positive total stay positive. */
  lemma {:induction false} NormalisedPositive(e: seq<real>, t: real)
    requires t > 0.0 && forall i :: 0 <= i < |e| ==> e[i] > 0.0
    ensures forall i :: 0 <= i < |e| ==> Normalise(e, t)[i] > 0.0
  {
    forall i | 0 <= i < |e|
      ensures Normalise(e, t)[i] > 0.0
    {
      DivPositive(e[i], t);
    }
  }

  lemma DivPositive(a: real, b: real)
    requires a > 0.0 && b > 0.0
    ensures a / b > 0.0
  {
  }

  /** Weights over their own total sum to 1. */
  lemma {:induction false} NormalisedSumsToOne(e: seq<real>)
    requires Total(e) > 0.0
    ensures Total(Normalise(e, Total(e))) == 1.0
  {
    var t := Total(e);
    TotalNormalise(e, t);
    assert t / t == 1.0;
  }

  /** The maximum's weight is `exp(0)`: the max is subtracted first. */
  lemma {:induction false} MaxWeightIsExpZero(x: seq<real>, temperature: real, exp: real -> real)
    requires |x| > 0 && temperature != 0.0
    ensures Weights(x, MaxExt(x).r, temperature, exp)[FirstMaxIndex(x)] == exp(0.0)
  {
    MaxIsAtFirstMaxIndex(x);
    var k := FirstMaxIndex(x);
    assert x[k] - MaxExt(x).r == 0.0;
    assert (x[k] - MaxExt(x).r) / temperature == 0.0;
  }

  /** With a non-zero temperature the outputs are positive and sum to 1. */
  lemma {:induction false} PositiveTemperatureNormalises(x: seq<real>, temperature: real, exp: real -> real)
    requires forall y :: exp(y) > 0.0
    requires |x| > 0 && temperature != 0.0
    ensures Softmax(x, temperature, exp).Some?
    ensures forall i :: 0 <= i < |x| ==> Softmax(x, temperature, exp).value[i] > 0.0
    ensures Total(Softmax(x, temperature, exp).value) == 1.0
  {
    var e := Weights(x, MaxExt(x).r, temperature, exp);
    PositiveTemperatureWeights(x, temperature, exp);
    NormalisedPositive(e, Total(e));
    NormalisedSumsToOne(e);
  }
}
