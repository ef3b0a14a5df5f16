// src/TrainingDataSet.ts: training pairs kept as a training list and a
// validation list. Adding and trimming work as in the split data set; a
// sample is one contiguous window of each list at a random offset.
module TrainingDataSet {
  import opened Util
  import opened Random
  import opened HyperParams

  const TooLarge: string := "Can't make a sample that size (not enough total data)"

  /** `Math.floor(r * (len - win))`: the first index of a window of `win`
      items in a list of `len`. */
  function WindowOffset(r: real, len: int, win: int): int {
    (r * (len - win) as real).Floor
  }

  /** For a list at least as long as the window, the offset keeps the window
      inside the list; it reaches the last window's offset `len - win` only
      when that is 0, because the draw is below 1. */
  lemma WindowOffsetBounds(r: real, len: int, win: int)
    requires 0.0 <= r < 1.0 && len >= win
    ensures 0 <= WindowOffset(r, len, win) <= len - win
    ensures len > win ==> WindowOffset(r, len, win) < len - win
  {
    var d := (len - win) as real;
    var k := WindowOffset(r, len, win);
    assert 0.0 <= r * d && k as real <= r * d < k as real + 1.0;
    if len > win {
      assert r * d < d by {
        assert r * d < 1.0 * d;
      }
      assert k as real < d;
    } else {
      assert r * d == 0.0;
    }
  }

  /** `s.slice(offset, offset + win)` for that offset. */
  function Window<T>(s: seq<T>, r: real, win: int): (w: seq<T>)
    ensures |w| <= |s|
  {
    var offset := WindowOffset(r, |s|, win);
    JsSlice(s, offset, offset + win)
  }

  /** When the list is long enough, the window is `win` consecutive items of
      the list, in order, at the drawn offset. */
  lemma WindowIsContiguous<T>(s: seq<T>, r: real, win: int)
    requires 0.0 <= r < 1.0 && 0 <= win <= |s|
    ensures 0 <= WindowOffset(r, |s|, win) <= |s| - win
    ensures |Window(s, r, win)| == win
    ensures Window(s, r, win) == s[WindowOffset(r, |s|, win)..WindowOffset(r, |s|, win) + win]
  {
    var offset := WindowOffset(r, |s|, win);
    WindowOffsetBounds(r, |s|, win);
    assert 0 <= offset <= offset + win <= |s|;
    assert Window(s, r, win) == JsSlice(s, offset, offset + win);
  }

  class TrainingDataSet<T> {
    var data: seq<T>
    var valData: seq<T>

    constructor()
      ensures data == [] && valData == []
    {
      data := [];
      valData := [];
    }

    /** `add`: the first `ceil(0.2 len)` new items go to the end of
        `valData`, the others to the end of `data`, in order. */
    method Add(newData: seq<T>)
      modifies this
      ensures valData == old(valData) + newData[..ValCount(|newData|)]
      ensures data == old(data) + newData[ValCount(|newData|)..]
      ensures Size() == old(Size()) + |newData|
    {
      var valCount := ValCount(|newData|);
      valData := valData + newData[..valCount];
      data := data + newData[valCount..];
    }

    /** `keepRecent(n)`: the newest `n - ceil(0.2 n)` training items and the
        newest `ceil(0.2 n)` validation items. */
    method KeepRecent(n: int)
      modifies this
      ensures data == Recent(old(data), n - ValCount(n))
      ensures valData == Recent(old(valData), ValCount(n))
    {
      var maxValDataN := ValCount(n);
      var maxDataN := n - maxValDataN;
      data := Recent(data, maxDataN);
      valData := Recent(valData, maxValDataN);
    }

    /** `size()`. */
    function Size(): nat
      reads this
    {
      |data| + |valData|
    }

    /** `sample(size)`: refuses more than `size()` items; otherwise a new set
        holding a window of `ceil(0.2 size)` validation items (its offset
        drawn first) and one of `size - ceil(0.2 size)` training items. This
        set is not changed. */
    method Sample(size: int, draws: Draws, at: nat) returns (r: Result<TrainingDataSet<T>, string>, next: nat)
      ensures r.Failure? <==> size > Size()
      ensures r.Failure? ==> r.error == TooLarge && next == at
      ensures r.Success? ==> fresh(r.value) && next == at + 2
      ensures r.Success? ==> r.value.valData == Window(valData, draws.uniform(at), ValCount(size))
      ensures r.Success? ==> r.value.data == Window(data, draws.uniform(at + 1), size - ValCount(size))
    {
      if size > Size() {
        return Failure(TooLarge), at;
      }
      var valSize := ValCount(size);
      var dataSize := size - valSize;
      var valOffset := WindowOffset(draws.uniform(at), |valData|, valSize);
      var dataOffset := WindowOffset(draws.uniform(at + 1), |data|, dataSize);
      var res := new TrainingDataSet<T>();
      res.data := JsSlice(data, dataOffset, dataOffset + dataSize);
      res.valData := JsSlice(valData, valOffset, valOffset + valSize);
      r, next := Success(res), at + 2;
    }
  }
}
