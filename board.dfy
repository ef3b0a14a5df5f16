// src/board.rs: the 20 x 10 bit board. Each row is a 10-bit mask in a
// u16 (column j is bit 9 - j); each column is a mask in a u32 (row i is
// bit 19 - i). Bit positions are `usize` values, modelled as 64-bit
// vectors so that the bit lemmas stay within the bit-vector theory.
module BitBoard {
  type Usize = bv64

  // ---------------------------------------------------------------------
  // BoardRow

  datatype BoardRow = BoardRow(bits: bv16)

  const EmptyRow: BoardRow := BoardRow(0)

  /** `1 << (9 - j)`: the bit of column `j`. */
  function RowMask(j: Usize): bv16
    requires j < 10
  {
    1 << (9 - j)
  }

  /** `full`: all ten columns set and nothing else. */
  predicate RowFull(r: BoardRow) {
    r.bits == 0x3FF
  }

  /** `get(j)`. */
  predicate RowGet(r: BoardRow, j: Usize)
    requires j < 10
  {
    r.bits & RowMask(j) != 0
  }

  /** `set(j, value)`: or-in the mask, or and-out its complement. */
  function RowSet(r: BoardRow, j: Usize, value: bool): BoardRow
    requires j < 10
  {
    if value then BoardRow(r.bits | RowMask(j)) else BoardRow(r.bits & !RowMask(j))
  }

  /** `flip(j)`: xor with the mask. */
  function RowFlip(r: BoardRow, j: Usize): BoardRow
    requires j < 10
  {
    BoardRow(r.bits ^ RowMask(j))
  }

  /** After `set(j, v)`, `get(j)` is `v`, and no bit outside the mask of
      `j` changed (including the six bits above the row). */
  lemma RowSetOwnBit(r: BoardRow, j: Usize, value: bool)
    requires j < 10
    ensures RowGet(RowSet(r, j, value), j) == value
    ensures RowSet(r, j, value).bits & !RowMask(j) == r.bits & !RowMask(j)
  {
  }

  /** `set(j, v)` leaves every other column as it was. */
  lemma RowSetOther(r: BoardRow, j: Usize, k: Usize, value: bool)
    requires j < 10 && k < 10 && j != k
    ensures RowGet(RowSet(r, j, value), k) == RowGet(r, k)
  {
  }

  /** `flip(j)` toggles exactly the bit of `j`. */
  lemma RowFlipOwnBit(r: BoardRow, j: Usize)
    requires j < 10
    ensures RowGet(RowFlip(r, j), j) == !RowGet(r, j)
    ensures RowFlip(r, j).bits & !RowMask(j) == r.bits & !RowMask(j)
  {
  }

  lemma RowFlipOther(r: BoardRow, j: Usize, k: Usize)
    requires j < 10 && k < 10 && j != k
    ensures RowGet(RowFlip(r, j), k) == RowGet(r, k)
  {
  }

  /** Flipping twice is the identity. */
  lemma RowFlipTwice(r: BoardRow, j: Usize)
    requires j < 10
    ensures RowFlip(RowFlip(r, j), j) == r
  {
  }

  /** A row is full exactly when its ten columns are set and no bit above
      them is. */
  lemma RowFullIffAllSet(r: BoardRow)
    ensures RowFull(r) <==>
      && RowGet(r, 0) && RowGet(r, 1) && RowGet(r, 2) && RowGet(r, 3) && RowGet(r, 4)
      && RowGet(r, 5) && RowGet(r, 6) && RowGet(r, 7) && RowGet(r, 8) && RowGet(r, 9)
      && r.bits < 0x400
  {
  }

  // ---------------------------------------------------------------------
  // BoardCol

  datatype BoardCol = BoardCol(bits: bv32)

  const EmptyCol: BoardCol := BoardCol(0)

  /** Bit `k` of a column (row `19 - k`). */
  predicate ColBit(c: BoardCol, k: Usize)
    requires k < 32
  {
    c.bits & (1 << k) != 0
  }

  /** `BoardCol::remove_row(i)`: keep the bits below `19 - i`, take the
      others from the column shifted down by one. */
  function ColRemoveRow(c: BoardCol, i: Usize): BoardCol
    requires i < 20
  {
    var keepMask: bv32 := (1 << (20 - i - 1)) - 1;
    var shift := c.bits >> 1;
    BoardCol((!keepMask & shift) | (keepMask & c.bits))
  }

  /** The rows below row `i` keep their bits. */
  lemma ColRemoveKeepsBelow(c: BoardCol, i: Usize, k: Usize)
    requires i < 20 && k < 19 - i
    ensures ColBit(ColRemoveRow(c, i), k) == ColBit(c, k)
  {
  }

  /** From row `i` up, each bit takes the one above it (bit `19 - i`, row
      `i`, is dropped). */
  lemma ColRemoveShiftsAbove(c: BoardCol, i: Usize, k: Usize)
    requires i < 20 && 19 - i <= k < 31
    ensures ColBit(ColRemoveRow(c, i), k) == ColBit(c, k + 1)
  {
  }

  /** The top bit becomes 0. */
  lemma ColRemoveClearsTop(c: BoardCol, i: Usize)
    requires i < 20
    ensures !ColBit(ColRemoveRow(c, i), 31)
  {
  }

  function Pow2(n: nat): (p: nat)
    ensures p >= 1
  {
    if n == 0 then 1 else 2 * Pow2(n - 1)
  }

  /** The number of binary digits of `x`. */
  function BitLength(x: nat): nat {
    if x == 0 then 0 else 1 + BitLength(x / 2)
  }

  /** `height`: `32 - leading_zeros`, the number of bits up to and
      including the highest set one. */
  function ColHeight(c: BoardCol): nat {
    BitLength(c.bits as int)
  }

  /** The bit length `h` of a nonzero `x` is the position of its highest
      set bit plus one: `2^(h-1) <= x < 2^h`. */
  lemma {:induction false} BitLengthBounds(x: nat)
    ensures x == 0 <==> BitLength(x) == 0
    ensures x < Pow2(BitLength(x))
    ensures x > 0 ==> Pow2(BitLength(x) - 1) <= x
  {
    if x > 0 {
      BitLengthBounds(x / 2);
    }
  }

  /** An empty column has height 0; otherwise its highest set bit is
      `height - 1`, and the height is at most 32. */
  lemma ColHeightIsTopBit(c: BoardCol)
    ensures c.bits == 0 <==> ColHeight(c) == 0
    ensures c.bits as int < Pow2(ColHeight(c))
    ensures c.bits != 0 ==> Pow2(ColHeight(c) - 1) <= c.bits as int
    ensures ColHeight(c) <= 32
  {
    Bounds32(c.bits as int);
  }

  lemma Bounds32(x: nat)
    requires x < 0x1_0000_0000
    ensures x == 0 <==> BitLength(x) == 0
    ensures x < Pow2(BitLength(x))
    ensures x > 0 ==> Pow2(BitLength(x) - 1) <= x
    ensures BitLength(x) <= 32
  {
    BitLengthBounds(x);
    Pow2Of32();
    BitLengthAtMost(x, 32);
  }

  /** Fewer than `n` binary digits below `2^n`. */
  lemma {:induction false} BitLengthAtMost(x: nat, n: nat)
    requires x < Pow2(n)
    ensures BitLength(x) <= n
  {
    if x > 0 {
      BitLengthAtMost(x / 2, n - 1);
    }
  }

  lemma {:induction false} Pow2Add(a: nat, b: nat)
    ensures Pow2(a + b) == Pow2(a) * Pow2(b)
  {
    if a > 0 {
      Pow2Add(a - 1, b);
    }
  }

  lemma Pow2Of32()
    ensures Pow2(32) == 0x1_0000_0000
  {
    assert Pow2(4) == 16;
    Pow2Add(4, 4);
    Pow2Add(8, 8);
    Pow2Add(16, 16);
  }

  // ---------------------------------------------------------------------
  // Row lists

  /** `k` empty rows. */
  function Empties(k: nat): (r: seq<BoardRow>)
    ensures |r| == k && forall m :: 0 <= m < k ==> r[m] == EmptyRow
  {
    seq(k, _ => EmptyRow)
  }

  /** The rows that are not full, in order. */
  function NonFull(rows: seq<BoardRow>): (r: seq<BoardRow>)
    ensures |r| <= |rows|
    ensures forall m :: 0 <= m < |r| ==> !RowFull(r[m])
  {
    if |rows| == 0 then []
    else NonFull(rows[..|rows| - 1]) + (if RowFull(rows[|rows| - 1]) then [] else [rows[|rows| - 1]])
  }

  /** The number of full rows. */
  function CountFull(rows: seq<BoardRow>): (n: nat)
    ensures n + |NonFull(rows)| == |rows|
  {
    if |rows| == 0 then 0
    else CountFull(rows[..|rows| - 1]) + (if RowFull(rows[|rows| - 1]) then 1 else 0)
  }

  /** The positions of the full rows, in increasing order. */
  function FullIndices(rows: seq<BoardRow>): (r: seq<nat>)
    ensures |r| == CountFull(rows)
    ensures forall m :: 0 <= m < |r| ==> r[m] < |rows| && RowFull(rows[r[m]])
  {
    if |rows| == 0 then []
    else
      var n := |rows| - 1;
      var init := FullIndices(rows[..n]);
      assert forall m :: 0 <= m < |init| ==> rows[..n][init[m]] == rows[init[m]];
      init + (if RowFull(rows[n]) then [n] else [])
  }

  lemma {:induction false} NonFullAppend(a: seq<BoardRow>, b: seq<BoardRow>)
    ensures NonFull(a + b) == NonFull(a) + NonFull(b)
    ensures CountFull(a + b) == CountFull(a) + CountFull(b)
  {
    if |b| > 0 {
      var n := |b| - 1;
      assert (a + b)[..|a| + n] == a + b[..n];
      NonFullAppend(a, b[..n]);
    } else {
      assert a + b == a;
    }
  }

  /** A list without full rows is its own `NonFull`. */
  lemma {:induction false} NonFullOfClean(rows: seq<BoardRow>)
    requires forall m :: 0 <= m < |rows| ==> !RowFull(rows[m])
    ensures NonFull(rows) == rows && CountFull(rows) == 0
  {
    if |rows| > 0 {
      NonFullOfClean(rows[..|rows| - 1]);
      assert rows[..|rows| - 1] + [rows[|rows| - 1]] == rows;
    }
  }

  /** The rows after `remove_row(i)`: an empty row on top, the rows above
      `i` one lower, the rows below `i` where they were. */
  function WithoutRow(rows: seq<BoardRow>, i: nat): (r: seq<BoardRow>)
    requires i < |rows|
    ensures |r| == |rows|
  {
    [EmptyRow] + rows[..i] + rows[i + 1..]
  }

  /** A row index as the `usize` that `BoardCol::remove_row` receives. */
  function RowIndex(i: nat): (u: Usize)
    requires i < 20
    ensures u < 20
  {
    i as Usize
  }

  /** Every column after `remove_row(i)`. */
  function ColsWithoutRow(cols: seq<BoardCol>, i: nat): (r: seq<BoardCol>)
    requires i < 20
    ensures |r| == |cols|
  {
    seq(|cols|, k requires 0 <= k < |cols| => ColRemoveRow(cols[k], RowIndex(i)))
  }

  /** The columns after removing rows `removed`, in that order. */
  function ColsAfter(cols: seq<BoardCol>, removed: seq<nat>): (r: seq<BoardCol>)
    requires forall m :: 0 <= m < |removed| ==> removed[m] < 20
    ensures |r| == |cols|
  {
    if |removed| == 0 then cols
    else
      var n := |removed| - 1;
      ColsWithoutRow(ColsAfter(cols, removed[..n]), removed[n])
  }

  lemma {:induction false} ColsAfterStep(cols: seq<BoardCol>, removed: seq<nat>, i: nat)
    requires i < 20 && forall m :: 0 <= m < |removed| ==> removed[m] < 20
    ensures ColsAfter(cols, removed + [i]) == ColsWithoutRow(ColsAfter(cols, removed), i)
  {
    assert (removed + [i])[..|removed|] == removed;
  }

  /** `remove_clears` as written: examine the rows from the bottom (index
      `n - 1`) up, removing each that is full when examined; the row that
      slides into a removed row's index is not examined again. The result
      holds the rows and the indices removed, in order. */
  function BottomUpPass(rows: seq<BoardRow>, n: nat): (r: (seq<BoardRow>, seq<nat>))
    requires n <= |rows|
    ensures |r.0| == |rows|
    ensures forall m :: 0 <= m < |r.1| ==> r.1[m] < n
    decreases n
  {
    if n == 0 then (rows, [])
    else
      var i := n - 1;
      if RowFull(rows[i]) then
        var rest := BottomUpPass(WithoutRow(rows, i), i);
        (rest.0, [i] + rest.1)
      else BottomUpPass(rows, i)
  }

  /** Removing a full row: one empty row more and one full row fewer. */
  lemma {:induction false} WithoutFullRow(rows: seq<BoardRow>, i: nat)
    requires i < |rows| && RowFull(rows[i])
    ensures NonFull(WithoutRow(rows, i)) == [EmptyRow] + NonFull(rows)
    ensures CountFull(WithoutRow(rows, i)) + 1 == CountFull(rows)
  {
    var above, below := rows[..i], rows[i + 1..];
    assert rows == (above + [rows[i]]) + below;
    assert WithoutRow(rows, i) == ([EmptyRow] + above) + below;
    NonFullSingle(EmptyRow);
    NonFullSingle(rows[i]);
    NonFullAppend([EmptyRow] + above, below);
    NonFullAppend([EmptyRow], above);
    NonFullAppend(above + [rows[i]], below);
    NonFullAppend(above, [rows[i]]);
    var na, nb := NonFull(above), NonFull(below);
    assert NonFull(WithoutRow(rows, i)) == ([EmptyRow] + na) + nb;
    assert NonFull(rows) == (na + []) + nb;
    ConsAssoc(EmptyRow, na, nb);
  }

  lemma ConsAssoc<T>(e: T, a: seq<T>, b: seq<T>)
    ensures ([e] + a) + b == [e] + ((a + []) + b)
  {
    assert a + [] == a;
  }

  lemma {:induction false} NonFullSingle(r: BoardRow)
    ensures NonFull([r]) == (if RowFull(r) then [] else [r])
    ensures CountFull([r]) == (if RowFull(r) then 1 else 0)
  {
    assert [r][..0] == [];
  }

  /** The pass keeps every non-full row, in order, below one empty row per
      removal, and removes only full rows. */
  lemma {:induction false} BottomUpKeepsNonFull(rows: seq<BoardRow>, n: nat)
    requires n <= |rows|
    ensures NonFull(BottomUpPass(rows, n).0) == Empties(|BottomUpPass(rows, n).1|) + NonFull(rows)
    ensures |BottomUpPass(rows, n).1| <= CountFull(rows)
    decreases n
  {
    if n > 0 {
      var i := n - 1;
      if RowFull(rows[i]) {
        var rows' := WithoutRow(rows, i);
        var rest := BottomUpPass(rows', i);
        assert BottomUpPass(rows, n) == (rest.0, [i] + rest.1);
        BottomUpKeepsNonFull(rows', i);
        WithoutFullRow(rows, i);
        EmptiesCons(|rest.1|, NonFull(rows));
      } else {
        BottomUpKeepsNonFull(rows, i);
      }
    }
  }

  lemma {:induction false} EmptiesCons(k: nat, s: seq<BoardRow>)
    ensures Empties(k) + ([EmptyRow] + s) == Empties(k + 1) + s
  {
    assert Empties(k) + [EmptyRow] == Empties(k + 1);
  }

  /** Two adjacent full rows at the bottom: the pass removes the lower one,
      the upper one slides into its place, and the pass moves on, leaving a
      full row on the board. */
  lemma AdjacentFullRowSurvives()
    ensures var rows := Empties(18) + [BoardRow(0x3FF), BoardRow(0x3FF)];
      && |BottomUpPass(rows, 20).1| == 1
      && RowFull(BottomUpPass(rows, 20).0[19])
  {
    var rows := Empties(18) + [BoardRow(0x3FF), BoardRow(0x3FF)];
    var rows' := WithoutRow(rows, 19);
    assert RowFull(rows'[19]);
    forall m | 0 <= m < 19
      ensures !RowFull(rows'[m])
    {
    }
    CleanPrefixPass(rows', 19);
  }

  /** A pass over rows none of which is full changes nothing. */
  lemma {:induction false} CleanPrefixPass(rows: seq<BoardRow>, n: nat)
    requires n <= |rows| && forall m :: 0 <= m < n ==> !RowFull(rows[m])
    ensures BottomUpPass(rows, n) == (rows, [])
  {
    if n > 0 {
      CleanPrefixPass(rows, n - 1);
    }
  }

  /** With the rows examined from the top down instead, every full row is
      removed: the non-full rows keep their order and sink to the bottom
      under one empty row per full row. */
  function Cleared(rows: seq<BoardRow>): (r: seq<BoardRow>)
    ensures |r| == |rows|
  {
    Empties(CountFull(rows)) + NonFull(rows)
  }

  /** After the corrected pass no row is full. */
  lemma ClearedHasNoFullRow(rows: seq<BoardRow>)
    ensures forall m :: 0 <= m < |Cleared(rows)| ==> !RowFull(Cleared(rows)[m])
  {
    var e, nf := Empties(CountFull(rows)), NonFull(rows);
    forall m | 0 <= m < |Cleared(rows)|
      ensures !RowFull(Cleared(rows)[m])
    {
      if m < |e| {
        assert Cleared(rows)[m] == e[m] == EmptyRow;
      } else {
        assert Cleared(rows)[m] == nf[m - |e|];
      }
    }
  }

  /** The prefix of `i + 1` rows, split at its last row. */
  lemma {:induction false} PrefixStep(b: seq<BoardRow>, i: nat)
    requires i < |b|
    ensures b[..i + 1][..i] == b[..i] && b[..i + 1][i] == b[i]
    ensures CountFull(b[..i + 1]) == CountFull(b[..i]) + (if RowFull(b[i]) then 1 else 0)
    ensures NonFull(b[..i + 1]) == NonFull(b[..i]) + (if RowFull(b[i]) then [] else [b[i]])
    ensures FullIndices(b[..i + 1]) == FullIndices(b[..i]) + (if RowFull(b[i]) then [i] else [])
  {
    assert b[..i + 1][..i] == b[..i];
  }

  /** Row `m` after `remove_row(i)`. */
  lemma {:induction false} WithoutRowAt(rows: seq<BoardRow>, i: nat, m: nat)
    requires i < |rows| && m < |rows|
    ensures WithoutRow(rows, i)[m] == if m == 0 then EmptyRow else if m <= i then rows[m - 1] else rows[m]
  {
  }

  /** The state of the top-down pass before index `i`: the rows examined so
      far cleared, the others untouched. */
  function TopDownState(b: seq<BoardRow>, i: nat): (r: seq<BoardRow>)
    requires i <= |b|
    ensures |r| == |b|
  {
    Empties(CountFull(b[..i])) + NonFull(b[..i]) + b[i..]
  }

  /** A full row at `i` is removed, and the state moves past it. */
  lemma {:induction false} TopDownFullStep(b: seq<BoardRow>, i: nat)
    requires i < |b| && RowFull(b[i])
    ensures TopDownState(b, i)[i] == b[i]
    ensures WithoutRow(TopDownState(b, i), i) == TopDownState(b, i + 1)
  {
    var c, nf := CountFull(b[..i]), NonFull(b[..i]);
    var rows := TopDownState(b, i);
    PrefixStep(b, i);
    assert |Empties(c) + nf| == i;
    assert rows[..i] == Empties(c) + nf;
    assert rows[i + 1..] == b[i + 1..];
    assert rows[i] == b[i];
    EmptiesConsAppend(c, nf, b[i + 1..]);
  }

  lemma {:induction false} EmptiesConsAppend(c: nat, nf: seq<BoardRow>, rest: seq<BoardRow>)
    ensures [EmptyRow] + (Empties(c) + nf) + rest == Empties(c + 1) + (nf + []) + rest
  {
    assert [EmptyRow] + Empties(c) == Empties(c + 1);
  }

  /** Past the last row, the state is the cleared board. */
  lemma {:induction false} TopDownDone(b: seq<BoardRow>)
    ensures TopDownState(b, |b|) == Cleared(b)
    ensures FullIndices(b[..|b|]) == FullIndices(b)
  {
    assert b[..|b|] == b;
    assert b[|b|..] == [];
    assert Cleared(b) + [] == Cleared(b);
  }

  /** The columns during the top-down pass before index `i`: each full
      row examined so far removed, in order. */
  function ColsState(cols: seq<BoardCol>, b: seq<BoardRow>, i: nat): (r: seq<BoardCol>)
    requires i <= |b| <= 20
    ensures |r| == |cols|
  {
    ColsAfter(cols, FullIndices(b[..i]))
  }

  lemma {:induction false} ColsStateStep(cols: seq<BoardCol>, b: seq<BoardRow>, i: nat)
    requires i < |b| <= 20
    ensures RowFull(b[i]) ==> ColsState(cols, b, i + 1) == ColsWithoutRow(ColsState(cols, b, i), i)
    ensures !RowFull(b[i]) ==> ColsState(cols, b, i + 1) == ColsState(cols, b, i)
  {
    PrefixStep(b, i);
    var full := FullIndices(b[..i]);
    if RowFull(b[i]) {
      assert FullIndices(b[..i + 1]) == full + [i];
      ColsAfterStep(cols, full, i);
    } else {
      assert FullIndices(b[..i + 1]) == full;
    }
  }

  lemma {:induction false} ColsStateDone(cols: seq<BoardCol>, b: seq<BoardRow>)
    requires |b| <= 20
    ensures ColsState(cols, b, |b|) == ColsAfter(cols, FullIndices(b))
  {
    assert b[..|b|] == b;
  }

  /** A row at `i` that is not full stays, and the state moves past it. */
  lemma {:induction false} TopDownKeepStep(b: seq<BoardRow>, i: nat)
    requires i < |b| && !RowFull(b[i])
    ensures TopDownState(b, i)[i] == b[i]
    ensures TopDownState(b, i) == TopDownState(b, i + 1)
  {
    var c, nf := CountFull(b[..i]), NonFull(b[..i]);
    PrefixStep(b, i);
    assert |Empties(c) + nf| == i;
    assert b[i..] == [b[i]] + b[i + 1..];
    SplitAppend(Empties(c), nf, b[i], b[i + 1..]);
  }

  lemma {:induction false} SplitAppend<T>(e: seq<T>, nf: seq<T>, x: T, rest: seq<T>)
    ensures e + nf + ([x] + rest) == e + (nf + [x]) + rest
  {
  }

  /** One step of the bottom-up pass at index `n - 1`. */
  lemma {:induction false} BottomUpStep(rows: seq<BoardRow>, n: nat, removed: seq<nat>)
    requires 0 < n <= |rows|
    ensures RowFull(rows[n - 1]) ==>
      (&& BottomUpPass(rows, n).0 == BottomUpPass(WithoutRow(rows, n - 1), n - 1).0
       && removed + BottomUpPass(rows, n).1 == (removed + [n - 1]) + BottomUpPass(WithoutRow(rows, n - 1), n - 1).1)
    ensures !RowFull(rows[n - 1]) ==> BottomUpPass(rows, n) == BottomUpPass(rows, n - 1)
  {
  }

  // ---------------------------------------------------------------------
  // Board

  class Board {
    const rows: array<BoardRow>
    const cols: array<BoardCol>

    /** 20 rows and 10 columns, in two arrays. */
    predicate Valid() {
      rows.Length == 20 && cols.Length == 10
    }

    /** `new`: every row and every column empty. */
    constructor()
      ensures Valid() && fresh(rows) && fresh(cols)
      ensures rows[..] == Empties(20)
      ensures forall k :: 0 <= k < 10 ==> cols[k] == EmptyCol
    {
      rows := new BoardRow[20](_ => EmptyRow);
      cols := new BoardCol[10](_ => EmptyCol);
    }

    /** `get(i, j)`. */
    predicate Get(i: nat, j: Usize)
      requires Valid() && i < 20 && j < 10
      reads rows
    {
      RowGet(rows[i], j)
    }

    /** `set(i, j, value)`: only row `i` changes, by `BoardRow::set`; the
        columns are not updated. */
    method Set(i: nat, j: Usize, value: bool)
      requires Valid() && i < 20 && j < 10
      modifies rows
      ensures rows[..] == old(rows[..])[i := RowSet(old(rows[i]), j, value)]
      ensures Get(i, j) == value
    {
      rows[i] := RowSet(rows[i], j, value);
      RowSetOwnBit(old(rows[i]), j, value);
    }

    /** `flip(i, j)`: only row `i` changes, by `BoardRow::flip`. */
    method Flip(i: nat, j: Usize)
      requires Valid() && i < 20 && j < 10
      modifies rows
      ensures rows[..] == old(rows[..])[i := RowFlip(old(rows[i]), j)]
      ensures Get(i, j) == !old(Get(i, j))
    {
      rows[i] := RowFlip(rows[i], j);
      RowFlipOwnBit(old(rows[i]), j);
    }

    /** `remove_row(i)`: the rows above `i` move down one, an empty row
        enters at the top, and every column removes row `i`. */
    method RemoveRow(i: nat)
      requires Valid() && i < 20
      modifies rows, cols
      ensures rows[..] == WithoutRow(old(rows[..]), i)
      ensures cols[..] == ColsWithoutRow(old(cols[..]), i)
    {
      ShiftRowsDown(i);
      RemoveRowFromCols(i);
    }

    /** The row half of `remove_row(i)`: `rows[j] = rows[j - 1]` for `j`
        from `i` down to 1, then an empty row 0. */
    method ShiftRowsDown(i: nat)
      requires Valid() && i < 20
      modifies rows
      ensures rows[..] == WithoutRow(old(rows[..]), i)
    {
      var j := i;
      while j >= 1
        invariant 0 <= j <= i
        invariant forall m :: 0 <= m <= j ==> rows[m] == old(rows[m])
        invariant forall m :: j < m <= i ==> rows[m] == old(rows[m - 1])
        invariant forall m :: i < m < 20 ==> rows[m] == old(rows[m])
      {
        rows[j] := rows[j - 1];
        j := j - 1;
      }
      rows[0] := EmptyRow;
      forall m | 0 <= m < 20
        ensures rows[m] == WithoutRow(old(rows[..]), i)[m]
      {
        WithoutRowAt(old(rows[..]), i, m);
      }
    }

    /** The column half of `remove_row(i)`. */
    method RemoveRowFromCols(i: nat)
      requires Valid() && i < 20
      modifies cols
      ensures cols[..] == ColsWithoutRow(old(cols[..]), i)
    {
      var k := 0;
      while k < 10
        invariant 0 <= k <= 10
        invariant forall m :: 0 <= m < k ==> cols[m] == ColRemoveRow(old(cols[m]), RowIndex(i))
        invariant forall m :: k <= m < 10 ==> cols[m] == old(cols[m])
      {
        cols[k] := ColRemoveRow(cols[k], RowIndex(i));
        k := k + 1;
      }
    }

    /** `remove_clears` as written: `i` from 19 down to 0, removing row `i`
        when it is full. */
    method RemoveClears()
      requires Valid()
      modifies rows, cols
      ensures rows[..] == BottomUpPass(old(rows[..]), 20).0
      ensures cols[..] == ColsAfter(old(cols[..]), BottomUpPass(old(rows[..]), 20).1)
    {
      ghost var removed: seq<nat> := [];
      var n := 20;
      while n > 0
        invariant 0 <= n <= 20
        invariant forall m :: 0 <= m < |removed| ==> removed[m] < 20
        invariant BottomUpPass(old(rows[..]), 20).0 == BottomUpPass(rows[..], n).0
        invariant BottomUpPass(old(rows[..]), 20).1 == removed + BottomUpPass(rows[..], n).1
        invariant cols[..] == ColsAfter(old(cols[..]), removed)
      {
        var i := n - 1;
        BottomUpStep(rows[..], n, removed);
        if RowFull(rows[i]) {
          ColsAfterStep(old(cols[..]), removed, i);
          RemoveRow(i);
          removed := removed + [i];
        }
        n := i;
      }
      assert removed + BottomUpPass(rows[..], 0).1 == removed;
    }

    /** The evidently intended `remove_clears`: examining the rows from the
        top down, a row that slides into index `i` has already been
        examined, so every full row goes. */
    method RemoveAllClears()
      requires Valid()
      modifies rows, cols
      ensures rows[..] == Cleared(old(rows[..]))
      ensures cols[..] == ColsAfter(old(cols[..]), FullIndices(old(rows[..])))
    {
      ghost var b, c := rows[..], cols[..];
      var i := 0;
      while i < 20
        invariant 0 <= i <= 20
        invariant rows[..] == TopDownState(b, i)
        invariant cols[..] == ColsState(c, b, i)
      {
        if RowFull(rows[i]) {
          TopDownFullStep(b, i);
          ColsStateStep(c, b, i);
          RemoveRow(i);
        } else {
          TopDownKeepStep(b, i);
          ColsStateStep(c, b, i);
        }
        i := i + 1;
      }
      TopDownDone(b);
      ColsStateDone(c, b);
    }
  }
}
