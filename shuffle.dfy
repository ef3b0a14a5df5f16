// The partial Fisher-Yates `shuffle(arr, size)` that src/SplitDataSet.ts and
// src/SplitDataSet2.ts each define. It swaps on a copy of the input, draws
// one `Math.random()` per step, and returns the first `size` slots. Past the
// end of the copy JavaScript reads `undefined` and, by assigning it, grows the
// array; the model writes `undefined` as `None`.
module Shuffle {
  import opened Util
  import opened Random

  /** The input as slots that all hold a value. */
  function Wrap<T>(arr: seq<T>): (r: seq<Option<T>>)
    ensures |r| == |arr|
    ensures forall k :: 0 <= k < |arr| ==> r[k] == Some(arr[k])
  {
    seq(|arr|, k requires 0 <= k < |arr| => Some(arr[k]))
  }

  /** The length of `shuffle(arr, size)`: `size` slots, or for `size <= 0`
      what `arr.slice(0, size)` keeps. */
  function ShuffledLength(len: nat, size: int): nat {
    if size > 0 then size else SliceIndex(len, size)
  }

  /** What `shuffle(arr, size)` promises of its result `r`: `size` slots; the
      ones past the input are `undefined`; the others hold input elements from
      distinct positions, all of them once `size` reaches the input's length;
      a `size` of 0 or less takes the slice without swapping. */
  ghost predicate Shuffled<T>(arr: seq<T>, size: int, r: seq<Option<T>>) {
    && |r| == ShuffledLength(|arr|, size)
    && (forall k :: |arr| <= k < |r| ==> r[k] == None)
    && (|r| <= |arr| ==> multiset(r) <= multiset(Wrap(arr)))
    && (|r| >= |arr| ==> multiset(r[..|arr|]) == multiset(Wrap(arr)))
    && (size <= 0 ==> r == Wrap(arr)[..|r|])
  }

  /** A prefix holds part of the whole. */
  lemma {:induction false} PrefixSubMultiset<T>(s: seq<T>, k: nat)
    requires k <= |s|
    ensures multiset(s[..k]) <= multiset(s)
  {
    assert s == s[..k] + s[k..];
  }

  /** The working copy: the input, then `undefined` up to length `len`. */
  function Padded<T>(arr: seq<T>, len: nat): (r: seq<Option<T>>)
    ensures |r| == if len > |arr| then len else |arr|
  {
    Wrap(arr) + seq(if len > |arr| then len - |arr| else 0, _ => None)
  }

  /** The working copy during the swaps: the input's slots permuted among
      themselves, `undefined` after them. */
  ghost predicate Permuted<T>(arr: seq<T>, s: seq<Option<T>>) {
    && |s| >= |arr|
    && (forall m :: |arr| <= m < |s| ==> s[m] == None)
    && multiset(s[..|arr|]) == multiset(Wrap(arr))
  }

  lemma {:induction false} PaddedIsPermuted<T>(arr: seq<T>, len: nat)
    ensures Permuted(arr, Padded(arr, len))
  {
    assert Padded(arr, len)[..|arr|] == Wrap(arr);
  }

  /** A swap inside the input's slots, or of a slot with itself, keeps them
      permuted. */
  lemma {:induction false} SwapKeepsPermuted<T>(arr: seq<T>, s: seq<Option<T>>, i: nat, j: nat)
    requires Permuted(arr, s)
    requires i < |s| && j < |s| && (i == j || (i < |arr| && j < |arr|))
    ensures Permuted(arr, s[i := s[j]][j := s[i]])
  {
    var t := s[i := s[j]][j := s[i]];
    if i != j {
      assert t[..|arr|] == s[..|arr|][i := s[j]][j := s[i]];
    } else {
      assert t == s;
    }
  }

  /** The first `size` slots of the permuted copy are a shuffle. */
  lemma {:induction false} SliceIsShuffled<T>(arr: seq<T>, size: int, s: seq<Option<T>>)
    requires Permuted(arr, s) && |s| == (if size > |arr| then size else |arr|)
    requires size <= 0 ==> s == Padded(arr, 0)
    ensures Shuffled(arr, size, JsSlice(s, 0, size))
  {
    var r := JsSlice(s, 0, size);
    if |r| <= |arr| {
      assert r == s[..|arr|][..|r|];
      PrefixSubMultiset(s[..|arr|], |r|);
    } else {
      assert r[..|arr|] == s[..|arr|];
    }
    if size <= 0 {
      assert Padded(arr, 0) == Wrap(arr);
    }
  }

  /** `arr.slice()`, grown with `undefined` to length `len`. */
  method Copy<T>(arr: seq<T>, len: nat) returns (a: array<Option<T>>)
    ensures fresh(a) && a[..] == Padded(arr, len)
  {
    var p := Padded(arr, len);
    a := new Option<T>[|p|];
    var k := 0;
    while k < |p|
      invariant 0 <= k <= |p| == a.Length
      invariant a[..k] == p[..k]
    {
      a[k] := p[k];
      k := k + 1;
    }
  }

  /** Draws taken by `shuffle(arr, size)`: one per swap. */
  function DrawsFor(size: int): nat {
    if size > 0 then size else 0
  }

  /** The `size` draws that choose the swaps; the cursor moves past them. */
  method Shuffle<T>(arr: seq<T>, size: int, draws: Draws, at: nat) returns (r: seq<Option<T>>, next: nat)
    requires draws.Valid()
    ensures Shuffled(arr, size, r)
    ensures next == at + DrawsFor(size)
  {
    var a := Copy(arr, if size > 0 then size else 0);
    PaddedIsPermuted(arr, if size > 0 then size else 0);
    var i := 0;
    next := at;
    while i < size
      invariant 0 <= i <= a.Length
      invariant i <= (if size > 0 then size else 0)
      invariant next == at + i
      invariant Permuted(arr, a[..])
      invariant i == 0 ==> a[..] == Padded(arr, if size > 0 then size else 0)
    {
      var j := if i < |arr| then Pick(draws.uniform(next), |arr| - i) + i else i;
      SwapKeepsPermuted(arr, a[..], i, j);
      a[i], a[j] := a[j], a[i];
      i := i + 1;
      next := next + 1;
    }
    SliceIsShuffled(arr, size, a[..]);
    r := JsSlice(a[..], 0, size);
  }
}
