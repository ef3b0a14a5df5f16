// Small shared vocabulary: failure-carrying results, the extended reals that
// JavaScript's Math.max produces, and "first index of the maximum", the choice
// rule that every move selector in the system uses.
module Util {

  datatype Option<T> = None | Some(value: T)

  datatype Result<T, E> = Success(value: T) | Failure(error: E)

  /** A number that may be -Infinity, as returned by `Math.max()` of nothing. */
  datatype ExtReal = NegInf | Fin(r: real)
  {
    predicate Less(other: ExtReal) {
      match (this, other)
      case (NegInf, NegInf) => false
      case (NegInf, Fin(_)) => true
      case (Fin(_), NegInf) => false
      case (Fin(a), Fin(b)) => a < b
    }

    /** IEEE addition restricted to values that are never +Infinity. */
    function Plus(other: ExtReal): ExtReal {
      if NegInf? || other.NegInf? then NegInf else Fin(r + other.r)
    }

    /** The finite value, or 0 for -Infinity. */
    function Value(): real {
      if Fin? then r else 0.0
    }

    function DivBy(k: real): ExtReal
      requires k > 0.0
    {
      if NegInf? then NegInf else Fin(r / k)
    }
  }

  /** The first index holding the largest element, scanning left to right.
      This is `indexOf(Math.max(...s))`, a stable descending sort's head, and a
      loop that replaces its best only on a strictly greater value. */
  function FirstMaxIndex(s: seq<real>): (k: nat)
    requires |s| > 0
    ensures k < |s|
    ensures forall j :: 0 <= j < |s| ==> s[j] <= s[k]
    ensures forall j :: 0 <= j < k ==> s[j] < s[k]
  {
    if |s| == 1 then 0
    else
      var k := FirstMaxIndex(s[..|s| - 1]);
      if s[|s| - 1] > s[k] then |s| - 1 else k
  }

  /** `Math.max(...s)`: -Infinity for no arguments. */
  function MaxExt(s: seq<real>): (m: ExtReal)
    ensures m.NegInf? <==> |s| == 0
    ensures m.Fin? ==> m.r in s
    ensures m.Fin? ==> forall j :: 0 <= j < |s| ==> s[j] <= m.r
  {
    if |s| == 0 then NegInf
    else
      var m := MaxExt(s[..|s| - 1]);
      if m.NegInf? || s[|s| - 1] > m.r then Fin(s[|s| - 1]) else m
  }

  /** `Math.floor(r * m)` for a uniform draw `r` in [0, 1): an index below `m`. */
  function Pick(r: real, m: nat): (k: nat)
    requires 0.0 <= r < 1.0 && m > 0
    ensures k < m
    ensures k as real <= r * m as real < k as real + 1.0
  {
    assert r * m as real < m as real by {
      assert r * m as real < 1.0 * m as real;
    }
    (r * m as real).Floor
  }

  /** `Math.ceil(x)`. */
  function Ceil(x: real): (k: int)
    ensures x <= k as real < x + 1.0
  {
    -((-x).Floor)
  }

  /** Where JavaScript's `slice` puts an index of a sequence of length `len`:
      negative indices count from the end, and both ends are clamped. */
  function SliceIndex(len: nat, k: int): (r: nat)
    ensures r <= len
    ensures 0 <= k <= len ==> r == k
    ensures k < 0 && len + k >= 0 ==> r == len + k
  {
    if k < 0 then (if len + k < 0 then 0 else len + k)
    else if k > len then len
    else k
  }

  /** `s.slice(start, end)`. */
  function JsSlice<T>(s: seq<T>, start: int, end: int): (r: seq<T>)
    ensures |r| <= |s|
    ensures 0 <= start <= end <= |s| ==> r == s[start..end]
  {
    var a := SliceIndex(|s|, start);
    var b := SliceIndex(|s|, end);
    if b <= a then [] else s[a..b]
  }

  /** `s.slice(-k)`: the last `k` elements (all of them when there are fewer),
      all of them for `k = 0` since `-0` is `0`, and for `k < 0` everything
      after the first `-k`. */
  function Recent<T>(s: seq<T>, k: int): (r: seq<T>)
    ensures |r| <= |s| && r == s[|s| - |r|..]
    ensures k == 0 ==> r == s
    ensures k > 0 ==> |r| == if k < |s| then k else |s|
    ensures k < 0 ==> |r| == if -k < |s| then |s| + k else 0
  {
    JsSlice(s, -k, |s|)
  }
}
