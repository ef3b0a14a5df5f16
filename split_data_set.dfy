// src/SplitDataSet.ts: a named store of training items kept as two lists,
// `data` for training and `valData` for validation. New items are split by
// position (the first fifth to validation), old ones are dropped from the
// front, samples are partial shuffles of each list, and a named store can be
// rebuilt from every shard file `<name>-*.json` in its directory.
module SplitDataSet {
  import opened Util
  import opened Random
  import opened HyperParams
  import Shuffle

  const NotEnabled: string := "save/load not enabled for this instance"
  const TooLarge: string := "Can't make a sample that size (not enough total data)"
  const NoFiles: string := "No files found"
  const Directory: string := "data/dataset/"
  const Extension: string := ".json"

  /** The file `save` and `load` use, refused for a store without a name. */
  function StorageFile(name: Option<string>): (r: Result<string, string>)
    ensures r.Failure? <==> name.None?
    ensures r.Failure? ==> r.error == NotEnabled
    ensures r.Success? ==> Directory <= r.value && EndsWith(r.value, Extension)
  {
    match name
    case None => Failure(NotEnabled)
    case Some(n) =>
      var f := Directory + n + Extension;
      assert f[|f| - |Extension|..] == Extension;
      Success(f)
  }

  predicate EndsWith(s: string, suffix: string) {
    |s| >= |suffix| && s[|s| - |suffix|..] == suffix
  }

  /** The directory entries `loadMulti` takes as shards of the store `name`. */
  predicate IsShardFile(name: string, f: string) {
    name + "-" <= f && EndsWith(f, Extension)
  }

  /** A shard file's name without `.json`. */
  function StripExtension(f: string): (r: string)
    requires EndsWith(f, Extension)
    ensures r + Extension == f
  {
    f[..|f| - |Extension|]
  }

  /** The shard names `loadMulti` loads, in directory-listing order. */
  function ShardNames(name: string, listing: seq<string>): (r: seq<string>)
    ensures |r| <= |listing|
  {
    if |listing| == 0 then []
    else
      var f := listing[|listing| - 1];
      ShardNames(name, listing[..|listing| - 1]) + (if IsShardFile(name, f) then [StripExtension(f)] else [])
  }

  /** A name is selected exactly when some listed file is a shard of the
      store and that name is the file's name without `.json`. */
  lemma {:induction false} ShardNamesMembers(name: string, listing: seq<string>)
    ensures forall x :: x in ShardNames(name, listing) <==>
      exists f :: f in listing && IsShardFile(name, f) && x == StripExtension(f)
  {
    if |listing| > 0 {
      var n := |listing| - 1;
      ShardNamesMembers(name, listing[..n]);
      assert listing == listing[..n] + [listing[n]];
      forall x
        ensures x in ShardNames(name, listing) <==>
          exists f :: f in listing && IsShardFile(name, f) && x == StripExtension(f)
      {
        if x in ShardNames(name, listing) {
          if x in ShardNames(name, listing[..n]) {
            var f :| f in listing[..n] && IsShardFile(name, f) && x == StripExtension(f);
            assert f in listing;
          } else {
            assert listing[n] in listing;
          }
        }
        if exists f :: f in listing && IsShardFile(name, f) && x == StripExtension(f) {
          var f :| f in listing && IsShardFile(name, f) && x == StripExtension(f);
          if f != listing[n] {
            assert f in listing[..n];
          }
        }
      }
    }
  }

  /** No name is selected exactly when no listed file is a shard. */
  lemma NoShardNames(name: string, listing: seq<string>)
    ensures ShardNames(name, listing) == [] <==> forall f :: f in listing ==> !IsShardFile(name, f)
  {
    ShardNamesMembers(name, listing);
    if ShardNames(name, listing) != [] {
      assert ShardNames(name, listing)[0] in ShardNames(name, listing);
    }
  }

  /** The training and validation lists of the loaded shards, concatenated
      in order; a shard whose load fails (`None`) adds nothing. */
  function Merged<T>(names: seq<string>, shards: string -> Option<(seq<T>, seq<T>)>): (seq<T>, seq<T>) {
    if |names| == 0 then ([], [])
    else
      var m := Merged(names[..|names| - 1], shards);
      match shards(names[|names| - 1])
      case None => m
      case Some(shard) => (m.0 + shard.0, m.1 + shard.1)
  }

  /** Merging two runs of shards is merging each and concatenating. */
  lemma {:induction false} MergedAppend<T>(a: seq<string>, b: seq<string>, shards: string -> Option<(seq<T>, seq<T>)>)
    ensures Merged(a + b, shards).0 == Merged(a, shards).0 + Merged(b, shards).0
    ensures Merged(a + b, shards).1 == Merged(a, shards).1 + Merged(b, shards).1
    decreases |b|
  {
    if |b| == 0 {
      assert a + b == a;
    } else {
      var n := |b| - 1;
      MergedAppend(a, b[..n], shards);
      assert (a + b)[..|a + b| - 1] == a + b[..n];
    }
  }

  /** A shard that fails to load contributes nothing wherever it appears. */
  lemma FailedShardAddsNothing<T>(a: seq<string>, x: string, b: seq<string>, shards: string -> Option<(seq<T>, seq<T>)>)
    requires shards(x).None?
    ensures Merged(a + [x] + b, shards) == Merged(a + b, shards)
  {
    MergedAppend(a + [x], b, shards);
    MergedAppend(a, [x], shards);
    MergedAppend(a, b, shards);
    assert [x][..0] == [];
  }

  class SplitDataSet<T> {
    const name: Option<string>
    var data: seq<T>
    var valData: seq<T>

    /** `new SplitDataSet(name, ...)`: both lists empty. */
    constructor(name: Option<string>)
      ensures this.name == name && data == [] && valData == []
    {
      this.name := name;
      data := [];
      valData := [];
    }

    /** `add`: the first `ceil(0.2 len)` new items go to the end of
        `valData`, the others to the end of `data`, in order. */
    method Add(newData: seq<T>)
      modifies this
      ensures valData == old(valData) + newData[..ValCount(|newData|)]
      ensures data == old(data) + newData[ValCount(|newData|)..]
      ensures Size() == old(Size()) + |newData|
    {
      var valCount := ValCount(|newData|);
      valData := valData + newData[..valCount];
      data := data + newData[valCount..];
    }

    /** `keepRecent(n)`: the newest `n - ceil(0.2 n)` training items and the
        newest `ceil(0.2 n)` validation items. */
    method KeepRecent(n: int)
      modifies this
      ensures data == Recent(old(data), n - ValCount(n))
      ensures valData == Recent(old(valData), ValCount(n))
    {
      var maxValDataN := ValCount(n);
      var maxDataN := n - maxValDataN;
      data := Recent(data, maxDataN);
      valData := Recent(valData, maxValDataN);
    }

    /** `size()`. */
    function Size(): nat
      reads this
    {
      |data| + |valData|
    }

    /** `sample(size)`: refuses more than `size()` items; otherwise an
        unnamed store holding a shuffle of `size - ceil(0.2 size)` training
        items (drawn first) and of `ceil(0.2 size)` validation items. This
        store is not changed. */
    method Sample(size: int, draws: Draws, at: nat) returns (r: Result<SplitDataSet<Option<T>>, string>, next: nat)
      requires draws.Valid()
      ensures r.Failure? <==> size > Size()
      ensures r.Failure? ==> r.error == TooLarge && next == at
      ensures r.Success? ==> fresh(r.value) && r.value.name.None?
      ensures r.Success? ==> Shuffle.Shuffled(data, size - ValCount(size), r.value.data)
      ensures r.Success? ==> Shuffle.Shuffled(valData, ValCount(size), r.value.valData)
      ensures r.Success? ==> next == at + Shuffle.DrawsFor(size - ValCount(size)) + Shuffle.DrawsFor(ValCount(size))
    {
      if size > Size() {
        return Failure(TooLarge), at;
      }
      var valSize := ValCount(size);
      var dataSize := size - valSize;
      var res := new SplitDataSet<Option<T>>(None);
      var mid;
      res.data, mid := Shuffle.Shuffle(data, dataSize, draws, at);
      res.valData, next := Shuffle.Shuffle(valData, valSize, draws, mid);
      r := Success(res);
    }

    /** `loadMulti()` over a directory `listing` and the outcome of loading
        each shard by name (`None` when that load fails). Without a name, or
        without a shard file, it fails and changes nothing; otherwise both
        lists become the shards' lists concatenated in listing order. */
    method LoadMulti(listing: seq<string>, shards: string -> Option<(seq<T>, seq<T>)>) returns (error: Option<string>)
      modifies this
      ensures name.None? ==> error == Some(NotEnabled) && data == old(data) && valData == old(valData)
      ensures name.Some? && ShardNames(name.value, listing) == [] ==>
        error == Some(NoFiles) && data == old(data) && valData == old(valData)
      ensures name.Some? && ShardNames(name.value, listing) != [] ==>
        error == None && (data, valData) == Merged(ShardNames(name.value, listing), shards)
    {
      if name.None? {
        return Some(NotEnabled);
      }
      var names := ShardNames(name.value, listing);
      if |names| == 0 {
        return Some(NoFiles);
      }
      data := [];
      valData := [];
      var i := 0;
      while i < |names|
        invariant 0 <= i <= |names|
        invariant (data, valData) == Merged(names[..i], shards)
      {
        assert names[..i + 1][..i] == names[..i];
        var loaded := shards(names[i]);
        if loaded.Some? {
          data := data + loaded.value.0;
          valData := valData + loaded.value.1;
        }
        i := i + 1;
      }
      assert names[..i] == names;
      error := None;
    }
  }

  /** A sample has no name, so it can be neither saved nor loaded. */
  lemma SampleCannotBeStored<T>(s: SplitDataSet<Option<T>>)
    requires s.name.None?
    ensures StorageFile(s.name) == Failure(NotEnabled)
  {
  }

  /** `keepRecent(n)` leaves at most `n` items for `n >= 2`; for `n = 1` the
      training quota is `1 - 1 = 0` and `slice(-0)` keeps every training item,
      and for `n = 0` both lists are kept whole. */
  lemma KeepRecentSize<T>(data: seq<T>, valData: seq<T>, n: int)
    ensures n >= 2 ==> |Recent(data, n - ValCount(n))| + |Recent(valData, ValCount(n))| <= n
    ensures n == 1 ==> Recent(data, n - ValCount(n)) == data && |Recent(valData, ValCount(n))| <= 1
    ensures n == 0 ==> Recent(data, n - ValCount(n)) == data && Recent(valData, ValCount(n)) == valData
  {
  }
}
