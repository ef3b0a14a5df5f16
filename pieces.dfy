// The seven tetromino types, their rotation grids and the `Piece` value that
// moves over the board (src/piece.rs). A grid is a 4x4 bit set in a u16.
module Pieces {
  import opened Util

  datatype PieceType = I | O | J | L | S | Z | T

  datatype RotateDir = Cw | Ccw

  /** `PieceType::list()`: every type once, in the fixed order I, O, J, L, S, Z, T. */
  function List(): (r: seq<PieceType>)
    ensures |r| == 7
    ensures forall i, j :: 0 <= i < j < 7 ==> r[i] != r[j]
    ensures r[0] == I && r[6] == T
  {
    [I, O, J, L, S, Z, T]
  }

  /** The position of a type in `List()`. */
  function IndexOf(t: PieceType): (k: nat)
    ensures k < 7 && List()[k] == t
  {
    match t
    case I => 0
    case O => 1
    case J => 2
    case L => 3
    case S => 4
    case Z => 5
    case T => 6
  }

  /** `Piece::num_rotations`. */
  function NumRotations(t: PieceType): nat {
    match t
    case I => 2
    case O => 1
    case J => 4
    case L => 4
    case S => 2
    case Z => 2
    case T => 4
  }

  /** `PieceType::grids`: the four rotation grids, clockwise order. */
  function Grids(t: PieceType): (g: seq<bv16>)
    ensures |g| == 4
  {
    match t
    case I => [0x00F0, 0x2222, 0x00F0, 0x2222]
    case O => [0x0660, 0x0660, 0x0660, 0x0660]
    case J => [0x0E20, 0x44C0, 0x8E00, 0x6440]
    case L => [0x0E80, 0xC440, 0x2E00, 0x4460]
    case S => [0x06C0, 0x4620, 0x06C0, 0x4620]
    case Z => [0x0C60, 0x2640, 0x0C60, 0x2640]
    case T => [0x0E40, 0x4C40, 0x4E00, 0x4640]
  }

  /** Bit `k` of a grid: `g & (1 << k) != 0`. */
  predicate Bit16(g: bv16, k: nat)
    requires k < 16
  {
    g & (1 << k) != 0
  }

  /** `find_grid_i`: the first of the four indices holding `grid`; `None`
      where the source panics. */
  function FindGridI(grids: seq<bv16>, grid: bv16): (r: Option<nat>)
    requires |grids| == 4
    ensures r.Some? ==> r.value < 4
  {
    if grid == grids[0] then Some(0)
    else if grid == grids[1] then Some(1)
    else if grid == grids[2] then Some(2)
    else if grid == grids[3] then Some(3)
    else None
  }

  /** `find_grid_i` finds exactly the grids in the table, at their first index. */
  lemma FindGridIFindsFirst(grids: seq<bv16>, grid: bv16)
    requires |grids| == 4
    ensures FindGridI(grids, grid).Some? <==> grid in grids
    ensures FindGridI(grids, grid).Some? ==>
      var k := FindGridI(grids, grid).value;
      grids[k] == grid && forall j :: 0 <= j < k ==> grids[j] != grid
  {
  }

  /** `rotate`: from the first index of the grid, one step clockwise or three
      steps (one counter-clockwise) around the table; `None` where the source
      panics because the grid is not in its type's table. */
  function RotateGrid(t: PieceType, grid: bv16, dir: RotateDir): (r: Option<bv16>)
  {
    match FindGridI(Grids(t), grid)
    case None => None
    case Some(k) => Some(Grids(t)[(k + if dir == Cw then 1 else 3) % 4])
  }

  /** `rotate` keeps the grid within its type's table, and panics only off it. */
  lemma RotateStaysInTable(t: PieceType, grid: bv16, dir: RotateDir)
    ensures RotateGrid(t, grid, dir).Some? <==> grid in Grids(t)
    ensures RotateGrid(t, grid, dir).Some? ==> RotateGrid(t, grid, dir).value in Grids(t)
  {
    FindGridIFindsFirst(Grids(t), grid);
  }

  /** Loop index `i` of `cell_positions` tests mask `1 << (15 - i)`. */
  predicate Scanned(g: bv16, i: nat)
    requires i < 16
  {
    Bit16(g, 15 - i)
  }

  /** The loop indices `i` below `n` of `cell_positions`' scan whose mask bit
      `15 - i` is set, in scan order. */
  function ScanTo(g: bv16, n: nat): seq<nat>
    requires n <= 16
  {
    if n == 0 then [] else ScanTo(g, n - 1) + (if Scanned(g, n - 1) then [n - 1] else [])
  }

  /** Every index of the full scan. */
  function Cells(g: bv16): seq<nat> {
    ScanTo(g, 16)
  }

  /** The cell `cell_positions` reports for loop index `i`: `pos` plus (i / 4, i % 4). */
  function Place(pos: (int, int), i: nat): (int, int) {
    (pos.0 + i / 4, pos.1 + i % 4)
  }

  /** The cells reported for a run of loop indices. */
  function Places(pos: (int, int), idx: seq<nat>): (r: seq<(int, int)>)
    ensures |r| == |idx|
    ensures forall k :: 0 <= k < |idx| ==> r[k] == Place(pos, idx[k])
  {
    if |idx| == 0 then [] else Places(pos, idx[..|idx| - 1]) + [Place(pos, idx[|idx| - 1])]
  }

  /** The offsets `cell_positions` adds to `pos`, one per set bit, in scan order. */
  function Offsets(g: bv16): seq<(int, int)> {
    Places((0, 0), Cells(g))
  }

  lemma {:induction false} ScanToMembers(g: bv16, n: nat, i: nat)
    requires n <= 16
    ensures i in ScanTo(g, n) <==> i < n && Bit16(g, 15 - i)
  {
    if n > 0 {
      ScanToMembers(g, n - 1, i);
    }
  }

  /** The number of set bits, one term per bit. */
  function PopCount(g: bv16): nat {
    BitCount(g, 15) + BitCount(g, 14) + BitCount(g, 13) + BitCount(g, 12) +
    BitCount(g, 11) + BitCount(g, 10) + BitCount(g, 9) + BitCount(g, 8) +
    BitCount(g, 7) + BitCount(g, 6) + BitCount(g, 5) + BitCount(g, 4) +
    BitCount(g, 3) + BitCount(g, 2) + BitCount(g, 1) + BitCount(g, 0)
  }

  function BitCount(g: bv16, k: nat): nat
    requires k < 16
  {
    if Bit16(g, k) then 1 else 0
  }

  lemma ScanStep(g: bv16, n: nat)
    requires 1 <= n <= 16
    ensures |ScanTo(g, n)| == |ScanTo(g, n - 1)| + BitCount(g, 16 - n)
  {
  }

  /** A grid with four set bits gives the scan four indices. */
  lemma {:induction false} FourBitsFourCells(g: bv16)
    requires PopCount(g) == 4
    ensures |ScanTo(g, 16)| == 4
  {
    ScanStep(g, 1); ScanStep(g, 2); ScanStep(g, 3); ScanStep(g, 4);
    ScanStep(g, 5); ScanStep(g, 6); ScanStep(g, 7); ScanStep(g, 8);
    ScanStep(g, 9); ScanStep(g, 10); ScanStep(g, 11); ScanStep(g, 12);
    ScanStep(g, 13); ScanStep(g, 14); ScanStep(g, 15); ScanStep(g, 16);
  }

  /** Every table grid has exactly four cells, so `cell_positions` never panics on it. */
  lemma TableGridsHaveFourCells(t: PieceType, k: nat)
    requires k < 4
    ensures |ScanTo(Grids(t)[k], 16)| == 4
  {
    FourBitsFourCells(Grids(t)[k]);
  }

  /** The first index holding entry `a` of a table whose `n` distinct grids
      repeat with period `n`. */
  function FirstIdx(n: nat, a: nat): (f: nat)
    requires a < 4
    ensures f < 4
  {
    if n == 4 then a
    else if n == 2 then (if a == 0 || a == 2 then 0 else 1)
    else 0
  }

  /** The table index `rotate` lands on from entry `a`. */
  function TurnIdx(n: nat, a: nat, dir: RotateDir): (r: nat)
    requires a < 4
    ensures r < 4
  {
    (FirstIdx(n, a) + if dir == Cw then 1 else 3) % 4
  }

  /** Each table repeats with period `num_rotations`. */
  lemma TablePeriodic(t: PieceType, a: nat)
    requires a < 4
    ensures FindGridI(Grids(t), Grids(t)[a]) == Some(FirstIdx(NumRotations(t), a))
    ensures Grids(t)[a] == Grids(t)[FirstIdx(NumRotations(t), a)]
  {
    match t
    case I =>
    case O =>
    case J =>
    case L =>
    case S =>
    case Z =>
    case T =>
  }

  lemma TurnStep(t: PieceType, a: nat, dir: RotateDir)
    requires a < 4
    ensures RotateGrid(t, Grids(t)[a], dir) == Some(Grids(t)[TurnIdx(NumRotations(t), a, dir)])
  {
    TablePeriodic(t, a);
  }

  lemma TurnBackIdx(n: nat, a: nat)
    requires n == 1 || n == 2 || n == 4
    requires a < 4
    ensures FirstIdx(n, TurnIdx(n, TurnIdx(n, a, Cw), Ccw)) == FirstIdx(n, a)
    ensures FirstIdx(n, TurnIdx(n, TurnIdx(n, a, Ccw), Cw)) == FirstIdx(n, a)
  {
  }

  lemma FourTurnsIdx(n: nat, a: nat)
    requires n == 1 || n == 2 || n == 4
    requires a < 4
    ensures FirstIdx(n, TurnIdx(n, TurnIdx(n, TurnIdx(n, TurnIdx(n, a, Cw), Cw), Cw), Cw)) == FirstIdx(n, a)
  {
  }

  lemma SameFirstSameGrid(t: PieceType, a: nat, b: nat)
    requires a < 4 && b < 4
    requires FirstIdx(NumRotations(t), a) == FirstIdx(NumRotations(t), b)
    ensures Grids(t)[a] == Grids(t)[b]
  {
    TablePeriodic(t, a);
    TablePeriodic(t, b);
  }

  /** For table grids a clockwise turn followed by a counter-clockwise turn
      restores the grid, and so does the reverse order. */
  lemma RotationsRestore(t: PieceType, a: nat)
    requires a < 4
    ensures var g1 := RotateGrid(t, Grids(t)[a], Cw);
            g1.Some? && RotateGrid(t, g1.value, Ccw) == Some(Grids(t)[a])
    ensures var g1 := RotateGrid(t, Grids(t)[a], Ccw);
            g1.Some? && RotateGrid(t, g1.value, Cw) == Some(Grids(t)[a])
  {
    var n := NumRotations(t);
    TurnStep(t, a, Cw);
    TurnStep(t, TurnIdx(n, a, Cw), Ccw);
    TurnStep(t, a, Ccw);
    TurnStep(t, TurnIdx(n, a, Ccw), Cw);
    TurnBackIdx(n, a);
    SameFirstSameGrid(t, TurnIdx(n, TurnIdx(n, a, Cw), Ccw), a);
    SameFirstSameGrid(t, TurnIdx(n, TurnIdx(n, a, Ccw), Cw), a);
  }

  /** Four clockwise turns of a table grid restore it. */
  lemma FourTurnsRestore(t: PieceType, a: nat)
    requires a < 4
    ensures var g1 := RotateGrid(t, Grids(t)[a], Cw);
            g1.Some? &&
            var g2 := RotateGrid(t, g1.value, Cw);
            g2.Some? &&
            var g3 := RotateGrid(t, g2.value, Cw);
            g3.Some? &&
            RotateGrid(t, g3.value, Cw) == Some(Grids(t)[a])
  {
    var n := NumRotations(t);
    var x1 := TurnIdx(n, a, Cw);
    var x2 := TurnIdx(n, x1, Cw);
    var x3 := TurnIdx(n, x2, Cw);
    TurnStep(t, a, Cw);
    TurnStep(t, x1, Cw);
    TurnStep(t, x2, Cw);
    TurnStep(t, x3, Cw);
    FourTurnsIdx(n, a);
    SameFirstSameGrid(t, TurnIdx(n, x3, Cw), a);
  }

  /** `num_rotations` is the number of distinct grids of the type. */
  lemma NumRotationsCountsDistinctGrids(t: PieceType)
    ensures NumRotations(t) == |set k | 0 <= k < 4 :: Grids(t)[k]|
  {
    var gs := Grids(t);
    var s := set k | 0 <= k < 4 :: gs[k];
    assert s == {gs[0], gs[1], gs[2], gs[3]} by {
      forall x | x in s ensures x in {gs[0], gs[1], gs[2], gs[3]} {
        var k :| 0 <= k < 4 && gs[k] == x;
      }
    }
  }

  /** A piece: its type, current rotation grid and board position. */
  class Piece {
    const kind: PieceType
    var grid: bv16
    const pos: (int, int)

    constructor (kind: PieceType, grid: bv16, pos: (int, int))
      ensures this.kind == kind && this.grid == grid && this.pos == pos
    {
      this.kind := kind;
      this.grid := grid;
      this.pos := pos;
    }

    /** `at(i, j)`: bit `4i + j` of the grid. */
    predicate At(i: nat, j: nat)
      reads this
      requires i < 4 && j < 4
    {
      Bit16(grid, 4 * i + j)
    }

    /** `rotate`: the grid moves along its type's table; the source panics when
        the current grid is not in the table. */
    method Rotate(dir: RotateDir)
      requires grid in Grids(kind)
      modifies this`grid
      ensures RotateGrid(kind, old(grid), dir) == Some(grid)
    {
      var offset := if dir == Cw then 1 else 3;
      var grids := Grids(kind);
      var k := FindGridI(grids, grid).value;
      grid := grids[(k + offset) % 4];
    }

    /** `cell_positions`: the first four set cells in scan order, offset by
        `pos`; `None` where the source panics (fewer than four cells). */
    method CellPositions() returns (r: Option<seq<(int, int)>>)
      ensures r.None? <==> |Cells(grid)| < 4
      ensures r.Some? ==> r.value == Places(pos, Cells(grid)[..4])
    {
      var g := grid;
      var res := new (int, int)[4];
      var resI := 0;
      for i := 0 to 16
        invariant resI < 4
        invariant |ScanTo(g, i)| == resI
        invariant forall k :: 0 <= k < resI ==> res[k] == Place(pos, ScanTo(g, i)[k])
      {
        if Scanned(g, i) {
          res[resI] := Place(pos, i);
          if resI == 3 {
            FourthCell(g, i, pos, res[..]);
            return Some(res[..]);
          }
          resI := resI + 1;
        }
      }
      return None;
    }
  }

  /** The scan up to `n` is a prefix of the scan up to any later `m`. */
  lemma {:induction false} ScanPrefix(g: bv16, n: nat, m: nat)
    requires n <= m <= 16
    ensures |ScanTo(g, n)| <= |ScanTo(g, m)|
    ensures ScanTo(g, m)[..|ScanTo(g, n)|] == ScanTo(g, n)
    decreases m - n
  {
    if n < m {
      ScanPrefix(g, n, m - 1);
    }
  }

  lemma ScanPrefixOfCells(g: bv16, n: nat)
    requires n <= 16
    ensures |ScanTo(g, n)| <= |Cells(g)|
    ensures Cells(g)[..|ScanTo(g, n)|] == ScanTo(g, n)
  {
    ScanPrefix(g, n, 16);
  }

  /** The fourth set cell found at loop index `i` completes the first four cells. */
  lemma FourthCell(g: bv16, i: nat, pos: (int, int), found: seq<(int, int)>)
    requires i < 16 && |ScanTo(g, i)| == 3 && Scanned(g, i)
    requires |found| == 4 && found[3] == Place(pos, i)
    requires forall k :: 0 <= k < 3 ==> found[k] == Place(pos, ScanTo(g, i)[k])
    ensures |Cells(g)| >= 4
    ensures found == Places(pos, Cells(g)[..4])
  {
    ScanPrefixOfCells(g, i + 1);
    assert Cells(g)[..4] == ScanTo(g, i) + [i];
  }

  lemma {:induction false} ScanToAscending(g: bv16, n: nat)
    requires n <= 16
    ensures forall a, b :: 0 <= a < b < |ScanTo(g, n)| ==> ScanTo(g, n)[a] < ScanTo(g, n)[b]
    ensures forall a :: 0 <= a < |ScanTo(g, n)| ==> ScanTo(g, n)[a] < n
  {
    if n > 0 {
      ScanToAscending(g, n - 1);
    }
  }

  /** A scanned loop index `m` yields the offset (m / 4, m % 4). */
  lemma CellGivesOffset(g: bv16, m: nat)
    requires m in Cells(g)
    ensures (m / 4, m % 4) in Offsets(g)
  {
    var k :| 0 <= k < |Cells(g)| && Cells(g)[k] == m;
    assert Offsets(g)[k] == Place((0, 0), m);
  }

  /** An offset (m / 4, m % 4) comes from the scanned loop index `m`. */
  lemma OffsetGivesCell(g: bv16, m: nat)
    requires m < 16 && (m / 4, m % 4) in Offsets(g)
    ensures m in Cells(g)
  {
    var k :| 0 <= k < |Offsets(g)| && Offsets(g)[k] == (m / 4, m % 4);
    var c := Cells(g)[k];
    assert Offsets(g)[k] == Place((0, 0), c);
    assert c == 4 * (c / 4) + c % 4;
    assert c == m;
  }

  /** The full scan holds exactly the loop indices whose mask bit is set. */
  lemma CellsMembers(g: bv16, m: nat)
    ensures m in Cells(g) <==> m < 16 && Bit16(g, 15 - m)
  {
    ScanToMembers(g, 16, m);
  }

  /** A loop index is scanned exactly when its offset is reported. */
  lemma CellIffOffset(g: bv16, m: nat)
    requires m < 16
    ensures m in Cells(g) <==> (m / 4, m % 4) in Offsets(g)
  {
    if m in Cells(g) {
      CellGivesOffset(g, m);
    }
    if (m / 4, m % 4) in Offsets(g) {
      OffsetGivesCell(g, m);
    }
  }

  /** Loop index `15 - (4 i + j)` sits at row `3 - i`, column `3 - j`. */
  lemma HalfTurnIndex(i: nat, j: nat, m: nat)
    requires i < 4 && j < 4 && m == 15 - (4 * i + j)
    ensures (m / 4, m % 4) == (3 - i, 3 - j) && 15 - m == 4 * i + j
  {
  }

  /** `at` and `cell_positions` read the same grid under a half turn: bit
      `4i + j` is reported by `cell_positions` at offset (3 - i, 3 - j). */
  lemma {:induction false} AtIsHalfTurnOfOffsets(g: bv16, i: nat, j: nat)
    requires i < 4 && j < 4
    ensures Bit16(g, 4 * i + j) <==> (3 - i, 3 - j) in Offsets(g)
  {
    var m: nat := 15 - (4 * i + j);
    HalfTurnIndex(i, j, m);
    CellsMembers(g, m);
    CellIffOffset(g, m);
  }
}
