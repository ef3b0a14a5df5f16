// The batch-trimmed dataset of src/SplitDataSet2.ts. All items live in one
// list; the train/validation assignment of the item at index `i` is fixed by
// `randish(i)`, a golden-ratio-like scramble of `i mod 144`, and the list is
// only ever trimmed by whole batches of 144, so no item changes side. The
// JSON-lines `save`/`load` are not modelled.
module SplitDataSet2 {
  import opened Util
  import opened Random
  import opened Shuffle

  const BatchSize: nat := 144

  /** `goldenish` = 89/144, a ratio of consecutive Fibonacci numbers. */
  const Goldenish: real := 89.0 / 144.0

  /** `x % 1` for `x >= 0`: the fractional part. */
  function Frac(x: real): (r: real)
    ensures 0.0 <= r < 1.0
  {
    x - x.Floor as real
  }

  /** `randish(i)`, over exact rationals. */
  function Randish(i: nat): (r: real)
    ensures 0.0 <= r < 1.0
  {
    Frac((i % BatchSize) as real * Goldenish)
  }

  /** The slot, out of 144, that residue `m` lands on: `89 m mod 144`. */
  function Scramble(m: nat): (r: nat)
    ensures r < BatchSize
  {
    (m * 89) % BatchSize
  }

  lemma FloorOfQuotient(p: nat, d: nat)
    requires d > 0
    ensures (p as real / d as real).Floor == p / d
  {
    var q, r := p / d, p % d;
    var y := r as real / d as real;
    assert 0.0 <= y < 1.0;
    CastDistributes(q, d, r);
    assert p as real / d as real == q as real + y;
  }

  lemma CastDistributes(q: int, d: int, r: int)
    ensures (q * d + r) as real == q as real * d as real + r as real
  {
  }

  /** `randish(i)` is the slot of `i mod 144` over 144. */
  lemma RandishIsSlot(i: nat)
    ensures Randish(i) == Scramble(i % BatchSize) as real / 144.0
  {
    var m := i % BatchSize;
    var p := m * 89;
    assert m as real * Goldenish == p as real / 144.0;
    FloorOfQuotient(p, 144);
    assert p as real == (p / 144) as real * 144.0 + (p % 144) as real;
  }

  lemma ModOfShift(m: int, k: int)
    requires 0 <= m < 144
    ensures (m + 144 * k) % 144 == m
  {
  }

  /** 89 * 89 = 55 * 144 + 1, so scrambling twice gives the residue back. */
  lemma ScrambleInvolution(m: nat)
    requires m < BatchSize
    ensures Scramble(Scramble(m)) == m
  {
    var q, r := (m * 89) / 144, (m * 89) % 144;
    assert m * 89 == q * 144 + r;
    assert r * 89 == m + 144 * (55 * m - 89 * q);
    ModOfShift(m, 55 * m - 89 * q);
  }

  /** Where residues below the scramble of a threshold come from. */
  lemma {:induction false} ScrambledRangeCard(rs: set<nat>)
    requires forall r :: r in rs ==> r < BatchSize
    ensures |Unscrambled(rs)| == |rs|
    decreases |rs|
  {
    if rs != {} {
      var x :| x in rs;
      var rest := rs - {x};
      ScrambledRangeCard(rest);
      assert Scramble(x) !in Unscrambled(rest) by {
        forall y | y in rest
          ensures Scramble(y) != Scramble(x)
        {
          ScrambleInvolution(x);
          ScrambleInvolution(y);
        }
      }
      assert Unscrambled(rs) == Unscrambled(rest) + {Scramble(x)};
    }
  }

  /** The residues below `k`. */
  function Below(k: nat): (r: set<nat>)
    ensures forall t: nat :: t in r <==> t < k
    ensures |r| == k
  {
    if k == 0 then {} else Below(k - 1) + {k - 1}
  }

  /** How many of the 144 slots of a batch fall below `v`: `ceil(144 v)`,
      clamped to [0, 144]. */
  function Threshold(v: real): (k: nat)
    ensures k <= BatchSize
  {
    var c := Ceil(144.0 * v);
    if c < 0 then 0 else if c > BatchSize as int then BatchSize else c
  }

  /** A slot goes to validation exactly when it is below the threshold. */
  lemma SlotBelow(t: nat, v: real)
    requires t < BatchSize
    ensures t as real / 144.0 < v <==> t < Threshold(v)
  {
  }

  /** Residue `t` goes to validation exactly when its slot is below the
      threshold. */
  lemma ResidueBelow(t: nat, v: real)
    requires t < BatchSize
    ensures Randish(t) < v <==> Scramble(t) < Threshold(v)
  {
    RandishIsSlot(t);
    SlotBelow(Scramble(t), v);
  }

  /** The residues of one batch that `randish` sends to validation. */
  function ValResidues(v: real): set<nat> {
    set t: nat | t < BatchSize && Randish(t) < v
  }

  /** The residues whose slots are the elements of `rs`. */
  function Unscrambled(rs: set<nat>): set<nat> {
    set r | r in rs :: Scramble(r)
  }

  lemma FromLowSlot(r: nat, v: real)
    requires r < Threshold(v)
    ensures Scramble(r) in ValResidues(v)
  {
    ScrambleInvolution(r);
    ResidueBelow(Scramble(r), v);
  }

  lemma ToLowSlot(t: nat, v: real)
    requires t in ValResidues(v)
    ensures t in Unscrambled(Below(Threshold(v)))
  {
    ScrambleInvolution(t);
    ResidueBelow(t, v);
    assert Scramble(Scramble(t)) == t;
  }

  /** The residues of one batch that `randish` sends to validation number
      `Threshold(v)`. */
  lemma ValidationResidues(v: real)
    ensures |ValResidues(v)| == Threshold(v)
  {
    var lows := Below(Threshold(v));
    forall t | t in ValResidues(v)
      ensures t in Unscrambled(lows)
    {
      ToLowSlot(t, v);
    }
    forall r | r in lows
      ensures Scramble(r) in ValResidues(v)
    {
      FromLowSlot(r, v);
    }
    assert ValResidues(v) == Unscrambled(lows);
    ScrambledRangeCard(lows);
  }

  /** `randish` repeats every batch. */
  lemma RandishPeriodic(i: nat, d: nat)
    requires d % BatchSize == 0
    ensures Randish(i + d) == Randish(i)
  {
    assert (i + d) % BatchSize == i % BatchSize;
  }

  /** The number of indices below `n` that go to validation. */
  function ValCountBelow(n: nat, v: real): (c: nat)
    ensures c <= n
  {
    if n == 0 then 0 else ValCountBelow(n - 1, v) + (if Randish(n - 1) < v then 1 else 0)
  }

  lemma {:induction false} ValCountIsCard(n: nat, v: real)
    ensures ValCountBelow(n, v) == |set t: nat | t < n && Randish(t) < v|
  {
    if n > 0 {
      ValCountIsCard(n - 1, v);
      if Randish(n - 1) < v {
        assert (set t: nat | t < n && Randish(t) < v) == (set t: nat | t < n - 1 && Randish(t) < v) + {n - 1};
      } else {
        assert (set t: nat | t < n && Randish(t) < v) == (set t: nat | t < n - 1 && Randish(t) < v);
      }
    }
  }

  /** Counting past a whole number of batches starts over. */
  lemma {:induction false} ValCountShift(base: nat, n: nat, v: real)
    requires base % BatchSize == 0
    ensures ValCountBelow(base + n, v) == ValCountBelow(base, v) + ValCountBelow(n, v)
  {
    if n > 0 {
      ValCountShift(base, n - 1, v);
      RandishPeriodic(n - 1, base);
    }
  }

  /** Every aligned batch of 144 indices sends exactly `ceil(144 v)` of them
      (clamped to [0, 144]) to validation. */
  lemma BatchValidationCount(base: nat, v: real)
    requires base % BatchSize == 0
    ensures ValCountBelow(base + BatchSize, v) == ValCountBelow(base, v) + Threshold(v)
  {
    ValCountShift(base, BatchSize, v);
    ValCountIsCard(BatchSize, v);
    ValidationResidues(v);
    assert (set t: nat | t < BatchSize && Randish(t) < v) == ValResidues(v);
  }

  /** The items of `s` whose index `goes` maps to `side`, in list order. */
  function Side<T>(s: seq<T>, goes: nat -> bool, side: bool): (r: seq<T>)
    ensures |r| <= |s|
  {
    if |s| == 0 then []
    else Side(s[..|s| - 1], goes, side) + (if goes(|s| - 1) == side then [s[|s| - 1]] else [])
  }

  /** Together the two sides hold every item once. */
  lemma {:induction false} SidesCover<T>(s: seq<T>, goes: nat -> bool)
    ensures multiset(Side(s, goes, true)) + multiset(Side(s, goes, false)) == multiset(s)
  {
    if |s| > 0 {
      var n := |s| - 1;
      SidesCover(s[..n], goes);
      assert s == s[..n] + [s[n]];
    }
  }

  /** Whether `randish` sends index `i` to validation. */
  function ToValidation(v: real): nat -> bool {
    (i: nat) => Randish(i) < v
  }

  /** The items whose index `randish` sends to validation (`toVal`) or to
      training (`!toVal`), in list order. */
  function Part<T>(s: seq<T>, v: real, toVal: bool): (r: seq<T>)
    ensures |r| <= |s|
  {
    Side(s, ToValidation(v), toVal)
  }

  /** One more item goes to the end of exactly one part. */
  lemma PartStep<T>(s: seq<T>, v: real, toVal: bool)
    requires |s| > 0
    ensures Part(s, v, toVal) == Part(s[..|s| - 1], v, toVal) + (if (Randish(|s| - 1) < v) == toVal then [s[|s| - 1]] else [])
  {
  }

  /** Together the two parts hold every item once. */
  lemma PartsCover<T>(s: seq<T>, v: real)
    ensures multiset(Part(s, v, true)) + multiset(Part(s, v, false)) == multiset(s)
  {
    SidesCover(s, ToValidation(v));
  }

  /** The validation part has `ValCountBelow` items, the training part the
      rest. */
  lemma {:induction false} PartSizes<T>(s: seq<T>, v: real)
    ensures |Part(s, v, true)| == ValCountBelow(|s|, v)
    ensures |Part(s, v, false)| == |s| - ValCountBelow(|s|, v)
  {
    if |s| > 0 {
      PartSizes(s[..|s| - 1], v);
      PartStep(s, v, true);
      PartStep(s, v, false);
    }
  }

  /** Dropping a whole number of batches from the front keeps every later
      item on its side, in order. */
  lemma {:induction false} PartAfterBatches<T>(s: seq<T>, d: nat, v: real, toVal: bool)
    requires d <= |s| && d % BatchSize == 0
    ensures Part(s, v, toVal) == Part(s[..d], v, toVal) + Part(s[d..], v, toVal)
    decreases |s|
  {
    if |s| > d {
      var n := |s| - 1;
      PartAfterBatches(s[..n], d, v, toVal);
      assert s[..n][..d] == s[..d];
      assert s[..n][d..] == s[d..][..n - d];
      RandishPeriodic(n - d, d);
    } else {
      assert s[..d] == s;
    }
  }

  /** `Math.ceil(excess / batchSize)`. */
  function BatchesToRemove(excess: nat): (k: nat)
    ensures k * BatchSize >= excess
    ensures k * BatchSize < excess + BatchSize
  {
    (excess + BatchSize - 1) / BatchSize
  }

  /** What `trim` leaves of `s` when at most `maxSize` items are allowed. */
  function Trimmed<T>(s: seq<T>, maxSize: int): (r: seq<T>)
    requires maxSize >= BatchSize
  {
    var excess := |s| - maxSize;
    if excess > 0 then s[BatchesToRemove(excess) * BatchSize..] else s
  }

  /** `trim` removes a whole number of batches, the fewest that bring the size
      to `maxSize` or below, from the oldest end. */
  lemma TrimmedBounds<T>(s: seq<T>, maxSize: int)
    requires maxSize >= BatchSize
    ensures |Trimmed(s, maxSize)| <= maxSize || Trimmed(s, maxSize) == s
    ensures |s| <= maxSize ==> Trimmed(s, maxSize) == s
    ensures (|s| - |Trimmed(s, maxSize)|) % BatchSize == 0
    ensures Trimmed(s, maxSize) == s[|s| - |Trimmed(s, maxSize)|..]
    ensures |s| > maxSize ==> |Trimmed(s, maxSize)| <= maxSize && |Trimmed(s, maxSize)| > maxSize - BatchSize
  {
    var excess := |s| - maxSize;
    if excess > 0 {
      var k := BatchesToRemove(excess);
      assert |s| - |Trimmed(s, maxSize)| == k * BatchSize;
    }
  }

  /** Survivors of `trim` keep their train/validation side and their order. */
  lemma TrimKeepsAssignment<T>(s: seq<T>, maxSize: int, v: real, toVal: bool)
    requires maxSize >= BatchSize
    ensures var d := |s| - |Trimmed(s, maxSize)|;
      Part(s, v, toVal) == Part(s[..d], v, toVal) + Part(Trimmed(s, maxSize), v, toVal)
  {
    TrimmedBounds(s, maxSize);
    PartAfterBatches(s, |s| - |Trimmed(s, maxSize)|, v, toVal);
  }

  /** The size `sample` works to: the request, clamped to the stored size. */
  function Clamped(size: int, len: nat): int {
    if size < len then size else len
  }

  /** `Math.ceil(size * valSplit)`: the validation items asked of `sample`. */
  function ValSize(n: int, valSplit: real): int {
    Ceil(n as real * valSplit)
  }

  /** `size - valDataSize`: the training items asked of `sample`. */
  function TrainSize(n: int, valSplit: real): int {
    n - ValSize(n, valSplit)
  }

  /** The loop of `sample` that pushes each item to `valData` when
      `randish(i) < valSplit`, else to `data`. */
  method SplitByRandish<T>(items: seq<T>, valSplit: real) returns (train: seq<T>, vals: seq<T>)
    ensures train == Part(items, valSplit, false)
    ensures vals == Part(items, valSplit, true)
  {
    train, vals := [], [];
    var i := 0;
    while i < |items|
      invariant 0 <= i <= |items|
      invariant train == Part(items[..i], valSplit, false)
      invariant vals == Part(items[..i], valSplit, true)
    {
      PartStep(items[..i + 1], valSplit, false);
      PartStep(items[..i + 1], valSplit, true);
      assert items[..i + 1][..i] == items[..i];
      if Randish(i) < valSplit {
        vals := vals + [items[i]];
      } else {
        train := train + [items[i]];
      }
      i := i + 1;
    }
    assert items[..i] == items;
  }

  class SplitDataSet2<T> {
    var allData: seq<T>
    const maxSize: int

    ghost predicate Valid()
      reads this
    {
      maxSize >= BatchSize && |allData| <= maxSize
    }

    /** The constructor for a `maxSize` it accepts; `New` models the check. */
    constructor(maxSize: int)
      requires maxSize >= BatchSize
      ensures Valid() && allData == [] && this.maxSize == maxSize
    {
      allData := [];
      this.maxSize := maxSize;
    }

    /** `trim`. */
    method Trim()
      requires maxSize >= BatchSize
      modifies this
      ensures allData == Trimmed(old(allData), maxSize)
    {
      var excess := |allData| - maxSize;
      if excess > 0 {
        var batchesToRemove := BatchesToRemove(excess);
        allData := allData[batchesToRemove * BatchSize..];
      }
    }

    /** `add`: append, then trim. */
    method Add(newData: seq<T>)
      requires Valid()
      modifies this
      ensures Valid()
      ensures allData == Trimmed(old(allData) + newData, maxSize)
    {
      allData := allData + newData;
      Trim();
      TrimmedBounds(old(allData) + newData, maxSize);
    }

    /** `size()`. */
    function Size(): nat
      reads this
    {
      |allData|
    }

    /** `sample(valSplit, size)`: the split by `randish` in list order, then a
        shuffle of each side cut to `size - ceil(size valSplit)` training and
        `ceil(size valSplit)` validation items, `size` clamped to `size()`. */
    method Sample(valSplit: real, size: int, draws: Draws, at: nat)
      returns (data: seq<Option<T>>, valData: seq<Option<T>>, next: nat)
      requires draws.Valid()
      ensures Shuffled(Part(allData, valSplit, false), TrainSize(Clamped(size, |allData|), valSplit), data)
      ensures Shuffled(Part(allData, valSplit, true), ValSize(Clamped(size, |allData|), valSplit), valData)
      ensures next == at + DrawsFor(TrainSize(Clamped(size, |allData|), valSplit)) + DrawsFor(ValSize(Clamped(size, |allData|), valSplit))
    {
      var n := Clamped(size, |allData|);
      var train, vals := SplitByRandish(allData, valSplit);
      var mid;
      data, mid := Shuffle.Shuffle(train, TrainSize(n, valSplit), draws, at);
      valData, next := Shuffle.Shuffle(vals, ValSize(n, valSplit), draws, mid);
    }

    /** `all(valSplit)`: `sample` of everything. */
    method All(valSplit: real, draws: Draws, at: nat)
      returns (data: seq<Option<T>>, valData: seq<Option<T>>, next: nat)
      requires draws.Valid()
      ensures Shuffled(Part(allData, valSplit, false), TrainSize(|allData|, valSplit), data)
      ensures Shuffled(Part(allData, valSplit, true), ValSize(|allData|, valSplit), valData)
      ensures next == at + DrawsFor(TrainSize(|allData|, valSplit)) + DrawsFor(ValSize(|allData|, valSplit))
    {
      assert Clamped(Size(), |allData|) == |allData|;
      data, valData, next := Sample(valSplit, Size(), draws, at);
    }
  }

  /** `new SplitDataSet2(name, maxSize, ...)`: refuses a `maxSize` below one
      batch. */
  method New<T>(maxSize: int) returns (r: Result<SplitDataSet2<T>, string>)
    ensures r.Failure? <==> maxSize < BatchSize
    ensures r.Failure? ==> r.error == "maxSize must be at least 144"
    ensures r.Success? ==> fresh(r.value) && r.value.Valid() && r.value.allData == [] && r.value.maxSize == maxSize
  {
    if maxSize < BatchSize {
      return Failure("maxSize must be at least 144");
    }
    var ds := new SplitDataSet2<T>(maxSize);
    return Success(ds);
  }
}
