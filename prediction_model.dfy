// The data preparation of src/PredictionModel.ts: recognising the piece
// that was placed between two boards, padding a choice list to the model's
// width, and labelling the choice that was played. The TensorFlow parts are
// not part of this model; the board operations and the piece grid table
// (defined in files outside it) are parameters.
module PredictionModel {
  import opened Util
  import opened Pieces
  import opened HyperParams
  import opened Rollout

  /** A board square or an offset between two, as (row, column). */
  type Cell = (int, int)

  /** The board operations this file uses but does not define: `get(i, j)`,
      `Board.equal`, `removeClears` (applied to a clone), `Board.checkerboard`
      and the rotation grids `PIECE_GRIDS`. */
  datatype Ops<!G> = Ops(get: (Board<G>, int, int) -> bool, equal: (Board<G>, Board<G>) -> bool,
                         removeClears: Board<G> -> Board<G>, checkerboard: Board<G>,
                         grids: PieceType -> seq<bv16>)

  const NotFourBlocks: string := "Failed to find 4 blocks in tetromino"
  const NoPiece: string := "Failed to detect piece"
  const TooManyChoices: string := "Too many choices, consider increasing evalNodeCount"

  // ---------------------------------------------------------------------
  // Row-major scans

  /** The cells where `marked` holds among those a row-major scan `width`
      cells wide visits before cell `(i, j)`, in scan order. */
  function Found(marked: Cell -> bool, width: nat, i: nat, j: nat): (r: seq<Cell>)
    requires j <= width
    decreases i, j
  {
    if j == 0 then (if i == 0 then [] else Found(marked, width, i - 1, width))
    else Found(marked, width, i, j - 1) + (if marked((i, j - 1)) then [(i, j - 1)] else [])
  }

  /** `c` relative to `start`. */
  function Rel(c: Cell, start: Cell): Cell {
    (c.0 - start.0, c.1 - start.1)
  }

  /** `relPositions`: every cell after the first, relative to the first. */
  function RelOffsets(cells: seq<Cell>): (r: seq<Cell>)
    ensures |r| == if |cells| == 0 then 0 else |cells| - 1
    ensures forall k :: 0 <= k < |r| ==> r[k] == Rel(cells[k + 1], cells[0])
  {
    if |cells| == 0 then [] else seq(|cells| - 1, k requires 0 <= k < |cells| - 1 => Rel(cells[k + 1], cells[0]))
  }

  /** `start` and `relPositions` after the scan of the given cells. */
  predicate Scanned(cells: seq<Cell>, start: Option<Cell>, rel: seq<Cell>) {
    && start == (if |cells| == 0 then None else Some(cells[0]))
    && rel == RelOffsets(cells)
  }

  /** The step of both scanning loops at cell `c`. */
  lemma ScanStep(cells: seq<Cell>, c: Cell, start: Option<Cell>, rel: seq<Cell>)
    requires Scanned(cells, start, rel)
    ensures start.None? ==> Scanned(cells + [c], Some(c), rel)
    ensures start.Some? ==> Scanned(cells + [c], start, rel + [Rel(c, start.value)])
  {
    if start.Some? {
      assert RelOffsets(cells + [c]) == RelOffsets(cells) + [Rel(c, start.value)];
    }
  }

  /** The nested `i`/`j` loops of `detectPiece` (20 x 10 board) and of the
      piece table (4 x 4 grid), collecting the first marked cell and the
      others relative to it. */
  method ScanCells(marked: Cell -> bool, rows: nat, width: nat) returns (start: Option<Cell>, rel: seq<Cell>)
    ensures Scanned(Found(marked, width, rows, 0), start, rel)
  {
    start, rel := None, [];
    var i := 0;
    while i < rows
      invariant 0 <= i <= rows
      invariant Scanned(Found(marked, width, i, 0), start, rel)
    {
      var j := 0;
      while j < width
        invariant 0 <= j <= width
        invariant Scanned(Found(marked, width, i, j), start, rel)
      {
        if marked((i, j)) {
          ScanStep(Found(marked, width, i, j), (i, j), start, rel);
          if start.None? {
            start := Some((i, j));
          } else {
            rel := rel + [(i - start.value.0, j - start.value.1)];
          }
        }
        j := j + 1;
      }
      i := i + 1;
    }
  }

  // ---------------------------------------------------------------------
  // detectPieceStaticData

  /** The bits of a grid: `g & (1 << k) !== 0`. */
  function GridBit(g: bv16): nat -> bool {
    (k: nat) => k < 16 && Bit16(g, k)
  }

  /** Cell `(i, j)` of a 4 x 4 grid is bit `4i + j`. */
  function Marked(bit: nat -> bool): Cell -> bool {
    (c: Cell) => 0 <= c.0 < 4 && 0 <= c.1 < 4 && bit(4 * c.0 + c.1)
  }

  /** The table entry of a 4 x 4 grid with bits `bit`: the offsets of its
      other three cells from its first, or the exception when it does not
      have four. */
  function BitsPattern(bit: nat -> bool): Result<seq<Cell>, string> {
    var rel := RelOffsets(Found(Marked(bit), 4, 4, 0));
    if |rel| == 3 then Success(rel) else Failure(NotFourBlocks)
  }

  /** One grid's entry in the table. */
  function GridPattern(g: bv16): Result<seq<Cell>, string> {
    BitsPattern(GridBit(g))
  }

  /** How many of the bits below `n` are set. */
  function CountBelow(bit: nat -> bool, n: nat): nat {
    if n == 0 then 0 else CountBelow(bit, n - 1) + (if bit(n - 1) then 1 else 0)
  }

  lemma FoundStep(marked: Cell -> bool, width: nat, i: nat, j: nat)
    requires 0 < j <= width
    ensures |Found(marked, width, i, j)| == |Found(marked, width, i, j - 1)| + (if marked((i, j - 1)) then 1 else 0)
  {
  }

  lemma CountStep(bit: nat -> bool, n: nat)
    requires n > 0
    ensures CountBelow(bit, n) == CountBelow(bit, n - 1) + (if bit(n - 1) then 1 else 0)
  {
  }

  /** A 4 x 4 scan up to cell `(i, j)` meets one cell per set bit below
      bit `4i + j`, when cell `(a, b)` is bit `4a + b`. */
  lemma {:induction false} ScanCounts(marked: Cell -> bool, bit: nat -> bool, i: nat, j: nat)
    requires j <= 4 && 4 * i + j <= 16
    requires forall a: nat, b: nat :: a < 4 && b < 4 ==> marked((a, b)) == bit(4 * a + b)
    ensures |Found(marked, 4, i, j)| == CountBelow(bit, 4 * i + j)
    decreases i, j
  {
    if j == 0 {
      if i > 0 {
        ScanCounts(marked, bit, i - 1, 4);
      }
    } else {
      ScanCounts(marked, bit, i, j - 1);
      FoundStep(marked, 4, i, j);
      CountStep(bit, 4 * i + j);
    }
  }

  lemma MarkedIsBit(bit: nat -> bool)
    ensures forall a: nat, b: nat :: a < 4 && b < 4 ==> Marked(bit)((a, b)) == bit(4 * a + b)
  {
  }

  /** A grid decodes exactly when it has four set bits. */
  lemma BitsPatternIffFour(bit: nat -> bool)
    ensures BitsPattern(bit).Success? <==> CountBelow(bit, 16) == 4
    ensures BitsPattern(bit).Success? ==> |BitsPattern(bit).value| == 3
  {
    var cells := Found(Marked(bit), 4, 4, 0);
    FoundCountsBits(bit);
    assert |RelOffsets(cells)| == 3 <==> |cells| == 4;
  }

  /** The scan of a 4 x 4 grid finds one cell per set bit. */
  lemma FoundCountsBits(bit: nat -> bool)
    ensures |Found(Marked(bit), 4, 4, 0)| == CountBelow(bit, 16)
  {
    MarkedIsBit(bit);
    ScanCounts(Marked(bit), bit, 4, 0);
  }

  /** The table loop for one grid. */
  method DecodeGrid(g: bv16) returns (r: Result<seq<Cell>, string>)
    ensures r == GridPattern(g)
  {
    var start, rel := ScanCells(Marked(GridBit(g)), 4, 4);
    if |rel| != 3 {
      return Failure(NotFourBlocks);
    }
    r := Success(rel);
  }

  /** The patterns of a list of grids, decoded by `decode` (`GridPattern`
      in the source), failing at the first bad grid. */
  function Patterns(gs: seq<bv16>, decode: bv16 -> Result<seq<Cell>, string>): (r: Result<seq<seq<Cell>>, string>)
    ensures r.Failure? <==> exists m :: 0 <= m < |gs| && decode(gs[m]).Failure?
    ensures r.Failure? ==> exists m :: 0 <= m < |gs| && decode(gs[m]) == Failure(r.error)
    ensures r.Success? ==> |r.value| == |gs|
    ensures r.Success? ==> forall m :: 0 <= m < |gs| ==> decode(gs[m]) == Success(r.value[m])
  {
    if |gs| == 0 then Success([])
    else
      var n := |gs| - 1;
      var init := Patterns(gs[..n], decode);
      var last := decode(gs[n]);
      assert forall m :: 0 <= m < n ==> gs[..n][m] == gs[m];
      if init.Failure? then init
      else if last.Failure? then Failure(last.error)
      else Success(init.value + [last.value])
  }

  /** `detectPieceStaticData`: per piece type of `types` (`ALL_PIECE_TYPES`
      in the source), the patterns of its grids; building it throws at the
      first grid that does not decode. */
  function StaticTable(grids: PieceType -> seq<bv16>, types: seq<PieceType>, decode: bv16 -> Result<seq<Cell>, string>)
    : (r: Result<seq<seq<seq<Cell>>>, string>)
    ensures r.Failure? <==> exists k :: 0 <= k < |types| && Patterns(grids(types[k]), decode).Failure?
    ensures r.Failure? ==> exists k, m :: (0 <= k < |types| && 0 <= m < |grids(types[k])| &&
      decode(grids(types[k])[m]) == Failure(r.error))
    ensures r.Success? ==> |r.value| == |types|
    ensures r.Success? ==> forall k :: 0 <= k < |types| ==> Patterns(grids(types[k]), decode) == Success(r.value[k])
  {
    if |types| == 0 then Success([])
    else
      var n := |types| - 1;
      var init := StaticTable(grids, types[..n], decode);
      var last := Patterns(grids(types[n]), decode);
      assert forall k :: 0 <= k < n ==> types[..n][k] == types[k];
      if init.Failure? then init
      else if last.Failure? then Failure(last.error)
      else Success(init.value + [last.value])
  }

  /** A table fails exactly when some grid is `bad` for a decoder that
      fails on exactly those grids, and then with the decoder's message. */
  lemma TableFailsOnBadGrid(grids: PieceType -> seq<bv16>, types: seq<PieceType>, decode: bv16 -> Result<seq<Cell>, string>,
                            bad: bv16 -> bool, error: string)
    requires forall x :: decode(x).Failure? <==> bad(x)
    requires forall x :: decode(x).Failure? ==> decode(x).error == error
    ensures StaticTable(grids, types, decode).Failure? <==>
      exists k, m :: 0 <= k < |types| && 0 <= m < |grids(types[k])| && bad(grids(types[k])[m])
    ensures StaticTable(grids, types, decode).Failure? ==> StaticTable(grids, types, decode).error == error
  {
    var table := StaticTable(grids, types, decode);
    if exists k, m :: 0 <= k < |types| && 0 <= m < |grids(types[k])| && bad(grids(types[k])[m]) {
      var k, m :| 0 <= k < |types| && 0 <= m < |grids(types[k])| && bad(grids(types[k])[m]);
      var x := grids(types[k])[m];
      assert bad(x);
      assert decode(x).Failure?;
    }
    if table.Failure? {
      var k, m :| 0 <= k < |types| && 0 <= m < |grids(types[k])| &&
        decode(grids(types[k])[m]) == Failure(table.error);
      var x := grids(types[k])[m];
      assert decode(x) == Failure(table.error);
      assert bad(x) && decode(x).error == error;
    }
  }

  /** Every grid decodes exactly when it has four set bits, and otherwise
      fails with "Failed to find 4 blocks in tetromino". */
  lemma GridPatternFailsIff()
    ensures forall x :: GridPattern(x).Failure? <==> CountBelow(GridBit(x), 16) != 4
    ensures forall x :: GridPattern(x).Failure? ==> GridPattern(x).error == NotFourBlocks
    ensures forall x :: GridPattern(x).Success? ==> |GridPattern(x).value| == 3
  {
    forall x: bv16
      ensures GridPattern(x).Failure? <==> CountBelow(GridBit(x), 16) != 4
      ensures GridPattern(x).Success? ==> |GridPattern(x).value| == 3
    {
      BitsPatternIffFour(GridBit(x));
    }
  }

  /** Over all piece types, the table fails exactly when some grid of some
      type is `bad`, for a decoder that fails on exactly those grids. */
  lemma AllTypesTableFails(grids: PieceType -> seq<bv16>, decode: bv16 -> Result<seq<Cell>, string>,
                           bad: bv16 -> bool, error: string)
    requires forall x :: decode(x).Failure? <==> bad(x)
    requires forall x :: decode(x).Failure? ==> decode(x).error == error
    requires forall x :: decode(x).Success? ==> |decode(x).value| == 3
    ensures StaticTable(grids, List(), decode).Failure? <==>
      exists t, m :: 0 <= m < |grids(t)| && bad(grids(t)[m])
    ensures StaticTable(grids, List(), decode).Failure? ==> StaticTable(grids, List(), decode).error == error
    ensures StaticTable(grids, List(), decode).Success? ==> WellFormedTable(StaticTable(grids, List(), decode).value)
  {
    TableFailsOnBadGrid(grids, List(), decode, bad, error);
    var table := StaticTable(grids, List(), decode);
    if table.Success? {
      forall k, m | 0 <= k < |table.value| && 0 <= m < |table.value[k]|
        ensures |table.value[k][m]| == 3
      {
        var gs := grids(List()[k]);
        assert Patterns(gs, decode) == Success(table.value[k]);
        var x := gs[m];
        assert decode(x) == Success(table.value[k][m]);
        assert |decode(x).value| == 3;
      }
    }
    if exists t, m :: 0 <= m < |grids(t)| && bad(grids(t)[m]) {
      var t, m :| 0 <= m < |grids(t)| && bad(grids(t)[m]);
      assert List()[IndexOf(t)] == t;
    }
  }

  /** The table of the source, every grid decoded by `GridPattern`, fails
      with "Failed to find 4 blocks in tetromino" exactly when some grid of
      some type has other than four set bits; otherwise it has one entry per
      piece type and every pattern has three offsets. */
  lemma StaticTableFails(grids: PieceType -> seq<bv16>)
    ensures StaticTable(grids, List(), GridPattern).Failure? <==>
      exists t, m :: 0 <= m < |grids(t)| && CountBelow(GridBit(grids(t)[m]), 16) != 4
    ensures StaticTable(grids, List(), GridPattern).Failure? ==>
      StaticTable(grids, List(), GridPattern).error == NotFourBlocks
    ensures StaticTable(grids, List(), GridPattern).Success? ==>
      WellFormedTable(StaticTable(grids, List(), GridPattern).value)
  {
    GridPatternFailsIff();
    AllTypesTableFails(grids, GridPattern, (x: bv16) => CountBelow(GridBit(x), 16) != 4, NotFourBlocks);
  }

  // ---------------------------------------------------------------------
  // detectPiece

  /** Cells filled in `to` but not in `from`. */
  function NewMarked<G>(ops: Ops<G>, from: Board<G>, to: Board<G>): Cell -> bool {
    (c: Cell) => ops.get(to, c.0, c.1) && !ops.get(from, c.0, c.1)
  }

  /** The new cells of the 20 x 10 board, in row-major order. */
  function NewCells<G>(ops: Ops<G>, from: Board<G>, to: Board<G>): seq<Cell> {
    Found(NewMarked(ops, from, to), 10, 20, 0)
  }

  /** The index of the first piece type whose patterns include `rel`. */
  function FirstMatch(table: seq<seq<seq<Cell>>>, rel: seq<Cell>): (r: Option<nat>)
    ensures r.Some? ==> r.value < |table| && rel in table[r.value]
    ensures r.Some? ==> forall k :: 0 <= k < r.value ==> rel !in table[k]
    ensures r.None? <==> forall k :: 0 <= k < |table| ==> rel !in table[k]
  {
    if |table| == 0 then None
    else
      var n := |table| - 1;
      var init := FirstMatch(table[..n], rel);
      assert forall k :: 0 <= k < n ==> table[..n][k] == table[k];
      if init.Some? then init
      else if rel in table[n] then Some(n)
      else None
  }

  /** What `detectPiece({ from, to })` returns or throws, given the table
      built when the file is loaded (`StaticTable`, one entry per piece type). */
  function Detect<G>(ops: Ops<G>, table: seq<seq<seq<Cell>>>, from: Board<G>, to: Board<G>): Result<PieceType, string>
    requires WellFormedTable(table)
  {
    DetectRel(table, RelOffsets(NewCells(ops, from, to)))
  }

  /** The outcome of `detectPiece` for the offsets `rel` of the new cells. */
  function DetectRel(table: seq<seq<seq<Cell>>>, rel: seq<Cell>): Result<PieceType, string>
    requires WellFormedTable(table)
  {
    if |rel| != 3 then Failure(NotFourBlocks)
    else match FirstMatch(table, rel)
      case None => Failure(NoPiece)
      case Some(k) => Success(List()[k])
  }

  /** A table as the loader builds it: one entry per piece type, every
      pattern three offsets long. */
  predicate WellFormedTable(table: seq<seq<seq<Cell>>>) {
    && |table| == |List()|
    && forall k, m :: 0 <= k < |table| && 0 <= m < |table[k]| ==> |table[k][m]| == 3
  }

  /** The innermost loop of `detectPiece`: offset by offset, stopping at the
      first that differs. */
  method Matches(rel: seq<Cell>, pattern: seq<Cell>) returns (same: bool)
    requires |rel| == 3 && |pattern| == 3
    ensures same <==> rel == pattern
  {
    same := true;
    var x := 0;
    while x < 3
      invariant 0 <= x <= 3
      invariant rel[..x] == pattern[..x]
    {
      if rel[x].0 != pattern[x].0 || rel[x].1 != pattern[x].1 {
        same := false;
        break;
      }
      assert rel[..x + 1] == rel[..x] + [rel[x]];
      assert pattern[..x + 1] == pattern[..x] + [pattern[x]];
      x := x + 1;
    }
    if same {
      assert rel == rel[..3] && pattern == pattern[..3];
    }
  }

  /** The search loops of `detectPiece`: piece types in table order, then
      each type's rotations. */
  method Search(table: seq<seq<seq<Cell>>>, rel: seq<Cell>) returns (r: Option<nat>)
    requires WellFormedTable(table) && |rel| == 3
    ensures r == FirstMatch(table, rel)
  {
    var pieceIndex := 0;
    while pieceIndex < |table|
      invariant 0 <= pieceIndex <= |table|
      invariant forall k :: 0 <= k < pieceIndex ==> rel !in table[k]
    {
      var patterns := table[pieceIndex];
      var m := 0;
      while m < |patterns|
        invariant 0 <= m <= |patterns|
        invariant rel !in patterns[..m]
      {
        var same := Matches(rel, patterns[m]);
        if same {
          return Some(pieceIndex);
        }
        assert patterns[..m + 1] == patterns[..m] + [patterns[m]];
        m := m + 1;
      }
      assert patterns[..m] == patterns;
      pieceIndex := pieceIndex + 1;
    }
    r := None;
  }

  /** `detectPiece`: the scan of the board, the count check, the search. */
  method DetectPiece<G>(ops: Ops<G>, table: seq<seq<seq<Cell>>>, from: Board<G>, to: Board<G>) returns (r: Result<PieceType, string>)
    requires WellFormedTable(table)
    ensures r == Detect(ops, table, from, to)
  {
    var start, rel := ScanCells(NewMarked(ops, from, to), 20, 10);
    if |rel| != 3 {
      return Failure(NotFourBlocks);
    }
    var found := Search(table, rel);
    if found.None? {
      return Failure(NoPiece);
    }
    r := Success(List()[found.value]);
  }

  /** A detected piece left exactly four new cells, and its type is the
      first whose table entry holds their offsets. */
  lemma DetectedPieceFits<G>(ops: Ops<G>, table: seq<seq<seq<Cell>>>, from: Board<G>, to: Board<G>)
    requires WellFormedTable(table) && Detect(ops, table, from, to).Success?
    ensures |NewCells(ops, from, to)| == 4
    ensures exists k :: (0 <= k < 7 && List()[k] == Detect(ops, table, from, to).value &&
      RelOffsets(NewCells(ops, from, to)) in table[k])
    ensures forall k :: 0 <= k < 7 && List()[k] == Detect(ops, table, from, to).value ==>
      forall j :: 0 <= j < k ==> RelOffsets(NewCells(ops, from, to)) !in table[j]
  {
    var k := FirstMatch(table, RelOffsets(NewCells(ops, from, to))).value;
    assert List()[k] == Detect(ops, table, from, to).value;
    forall k' | 0 <= k' < 7 && List()[k'] == Detect(ops, table, from, to).value
      ensures k' == k
    {
      ListDistinct(k, k');
    }
  }

  lemma ListDistinct(a: nat, b: nat)
    requires a < 7 && b < 7 && List()[a] == List()[b]
    ensures a == b
  {
  }

  /** The cells moved by `d`. */
  function Shift(cells: seq<Cell>, d: Cell): (r: seq<Cell>)
    ensures |r| == |cells|
    ensures forall k :: 0 <= k < |cells| ==> r[k] == (cells[k].0 + d.0, cells[k].1 + d.1)
  {
    seq(|cells|, k requires 0 <= k < |cells| => (cells[k].0 + d.0, cells[k].1 + d.1))
  }

  /** Moving every new cell by the same amount (and keeping them on the
      board, so that the scan finds them moved) does not change what is
      detected: only the offsets between the cells are compared. */
  lemma ShiftedDetect<G>(ops: Ops<G>, table: seq<seq<seq<Cell>>>, from: Board<G>, to: Board<G>,
                         from': Board<G>, to': Board<G>, d: Cell)
    requires WellFormedTable(table)
    requires NewCells(ops, from', to') == Shift(NewCells(ops, from, to), d)
    ensures Detect(ops, table, from', to') == Detect(ops, table, from, to)
  {
    ShiftKeepsOffsets(NewCells(ops, from, to), d);
  }

  lemma ShiftKeepsOffsets(cells: seq<Cell>, d: Cell)
    ensures RelOffsets(Shift(cells, d)) == RelOffsets(cells)
  {
    var a, b := RelOffsets(Shift(cells, d)), RelOffsets(cells);
    assert |a| == |b|;
    forall k | 0 <= k < |a|
      ensures a[k] == b[k]
    {
      assert a[k] == Rel(Shift(cells, d)[k + 1], Shift(cells, d)[0]);
    }
  }

  // ---------------------------------------------------------------------
  // expandChoices

  /** `choices` followed by copies of `pad` up to `evalNodeCount` boards. */
  function Padded<G>(choices: seq<Board<G>>, pad: Board<G>): (r: seq<Board<G>>)
    requires |choices| <= EvalNodeCount
    ensures |r| == EvalNodeCount
    ensures r[..|choices|] == choices
    ensures forall i :: |choices| <= i < EvalNodeCount ==> r[i] == pad
  {
    choices + seq(EvalNodeCount - |choices|, _ => pad)
  }

  /** `expandChoices`: throws when there are more than `evalNodeCount`
      choices; otherwise pushes `Board.checkerboard` until there are
      exactly that many, keeping each choice at its index. */
  method ExpandChoices<G>(choices: seq<Board<G>>, checkerboard: Board<G>) returns (r: Result<seq<Board<G>>, string>)
    ensures r.Failure? <==> |choices| > EvalNodeCount
    ensures r.Failure? ==> r.error == TooManyChoices
    ensures r.Success? ==> r.value == Padded(choices, checkerboard)
  {
    if |choices| > EvalNodeCount {
      return Failure(TooManyChoices);
    }
    var padded := choices;
    while |padded| < EvalNodeCount
      invariant |choices| <= |padded| <= EvalNodeCount
      invariant padded == choices + seq(|padded| - |choices|, _ => checkerboard)
      decreases EvalNodeCount - |padded|
    {
      padded := padded + [checkerboard];
    }
    r := Success(padded);
  }

  // ---------------------------------------------------------------------
  // prepareTrainingData

  /** The index of the last choice equal to `to`. */
  function LastMatch<G>(equal: (Board<G>, Board<G>) -> bool, choices: seq<Board<G>>, to: Board<G>): (r: Option<nat>)
    ensures r.Some? ==> r.value < |choices| && equal(choices[r.value], to)
    ensures r.Some? ==> forall j :: r.value < j < |choices| ==> !equal(choices[j], to)
    ensures r.None? <==> forall j :: 0 <= j < |choices| ==> !equal(choices[j], to)
  {
    if |choices| == 0 then None
    else
      var n := |choices| - 1;
      assert forall j :: 0 <= j < n ==> choices[..n][j] == choices[j];
      if equal(choices[n], to) then Some(n) else LastMatch(equal, choices[..n], to)
  }

  /** The loop over `choices.entries()` that sets `toIndex` at every choice
      equal to `to`. */
  method FindToIndex<G>(equal: (Board<G>, Board<G>) -> bool, choices: seq<Board<G>>, to: Board<G>) returns (toIndex: Option<nat>)
    ensures toIndex == LastMatch(equal, choices, to)
  {
    toIndex := None;
    var i := 0;
    while i < |choices|
      invariant 0 <= i <= |choices|
      invariant toIndex == LastMatch(equal, choices[..i], to)
    {
      assert choices[..i + 1][..i] == choices[..i];
      if equal(choices[i], to) {
        toIndex := Some(i);
      }
      i := i + 1;
    }
    assert choices[..i] == choices;
  }

  /** A label row: 1 at `index`, 0 elsewhere, `n` entries. */
  function LabelRow(n: nat, index: nat): (r: seq<int>)
    ensures |r| == n
  {
    seq(n, i => if i == index then 1 else 0)
  }

  function IntSum(s: seq<int>): int {
    if |s| == 0 then 0 else IntSum(s[..|s| - 1]) + s[|s| - 1]
  }

  /** A label row inside its length sums to 1, so it is a probability
      distribution with all its weight on `index`. */
  lemma {:induction false} LabelRowSum(n: nat, index: nat)
    ensures IntSum(LabelRow(n, index)) == if index < n then 1 else 0
  {
    if n > 0 {
      assert LabelRow(n, index)[..n - 1] == LabelRow(n - 1, index);
      LabelRowSum(n - 1, index);
    }
  }

  /** The label loop: one entry per expanded choice, `i === toIndex ? 1 : 0`. */
  method Labels<G>(expanded: seq<Board<G>>, toIndex: nat) returns (labels: seq<int>)
    ensures labels == LabelRow(|expanded|, toIndex)
  {
    labels := [];
    var i := 0;
    while i < |expanded|
      invariant 0 <= i <= |expanded|
      invariant labels == LabelRow(i, toIndex)
    {
      labels := labels + [if i == toIndex then 1 else 0];
      i := i + 1;
    }
  }

  /** A data point: the board before and after a move. */
  datatype DataPoint<G> = DataPoint(from: Board<G>, to: Board<G>)

  /** One training row: the padded choices (the source's `xs` are their ML
      inputs) and the label row. */
  datatype Row<G> = Row(choices: seq<Board<G>>, labels: seq<int>)

  /** The loop body after the piece is known: the row for the last choice
      equal to `to` (already cleared), or no row when none is (a skip). */
  function RowFor<G>(equal: (Board<G>, Board<G>) -> bool, choices: seq<Board<G>>, to: Board<G>, pad: Board<G>)
    : Result<Option<Row<G>>, string>
  {
    match LastMatch(equal, choices, to)
    case None => Success(None)
    case Some(i) =>
      if |choices| > EvalNodeCount then Failure(TooManyChoices)
      else Success(Some(Row(Padded(choices, pad), LabelRow(EvalNodeCount, i))))
  }

  /** A row has `evalNodeCount` choices and labels; its labels sum to 1 and
      mark the last choice equal to `to`, which keeps its index in the
      padded list. */
  lemma RowIsLabelled<G>(equal: (Board<G>, Board<G>) -> bool, choices: seq<Board<G>>, to: Board<G>, pad: Board<G>)
    requires RowFor(equal, choices, to, pad).Success? && RowFor(equal, choices, to, pad).value.Some?
    ensures var row := RowFor(equal, choices, to, pad).value.value;
      && |row.choices| == EvalNodeCount && |row.labels| == EvalNodeCount
      && IntSum(row.labels) == 1
      && exists i :: (0 <= i < |choices| && row.labels[i] == 1 && row.choices[i] == choices[i] &&
        equal(choices[i], to) && forall j :: i < j < |choices| ==> !equal(choices[j], to))
  {
    var i := LastMatch(equal, choices, to).value;
    var row := RowFor(equal, choices, to, pad).value.value;
    LabelRowSum(EvalNodeCount, i);
    assert row.choices[..|choices|] == choices;
    assert row.choices[i] == choices[i];
  }

  /** A point is skipped exactly when no choice equals `to`, and the body
      throws exactly when one does and there are too many choices. */
  lemma RowForCases<G>(equal: (Board<G>, Board<G>) -> bool, choices: seq<Board<G>>, to: Board<G>, pad: Board<G>)
    ensures RowFor(equal, choices, to, pad) == Success(None) <==>
      forall j :: 0 <= j < |choices| ==> !equal(choices[j], to)
    ensures RowFor(equal, choices, to, pad).Failure? <==>
      |choices| > EvalNodeCount && exists j :: 0 <= j < |choices| && equal(choices[j], to)
    ensures RowFor(equal, choices, to, pad).Failure? ==> RowFor(equal, choices, to, pad).error == TooManyChoices
  {
  }

  /** The body of the `prepareTrainingData` loop for one point: detection
      (whose exception escapes), then the row for the detected piece's
      choices and the cleared `to` board. */
  function PointRow<G>(env: Env<G>, ops: Ops<G>, table: seq<seq<seq<Cell>>>, p: DataPoint<G>): Result<Option<Row<G>>, string>
    requires WellFormedTable(table)
  {
    match Detect(ops, table, p.from, p.to)
    case Failure(e) => Failure(e)
    case Success(t) => RowFor(ops.equal, env.findChoices(p.from, t), ops.removeClears(p.to), ops.checkerboard)
  }

  /** The body as a function value, for the fold below. */
  function PointFn<G>(env: Env<G>, ops: Ops<G>, table: seq<seq<seq<Cell>>>): DataPoint<G> -> Result<Option<Row<G>>, string>
    requires WellFormedTable(table)
  {
    p => PointRow(env, ops, table, p)
  }

  /** The rows and the skip count after the points so far. */
  datatype Prepared<G> = Prepared(rows: seq<Row<G>>, skips: nat)

  /** The `prepareTrainingData` loop over `data` with body `point`, the
      first exception ending it. */
  function PrepareAll<G>(point: DataPoint<G> -> Result<Option<Row<G>>, string>, data: seq<DataPoint<G>>)
    : (r: Result<Prepared<G>, string>)
    ensures r.Success? ==> |r.value.rows| + r.value.skips == |data|
  {
    if |data| == 0 then Success(Prepared([], 0))
    else
      var n := |data| - 1;
      var init := PrepareAll(point, data[..n]);
      if init.Failure? then init
      else match point(data[n])
        case Failure(e) => Failure(e)
        case Success(None) => Success(Prepared(init.value.rows, init.value.skips + 1))
        case Success(Some(row)) => Success(Prepared(init.value.rows + [row], init.value.skips))
  }

  /** Every row of a finished preparation comes from one of the points; a
      preparation fails exactly when some point's body throws, and then
      with the error of the first such point. */
  lemma {:induction false} PrepareAllRows<G>(point: DataPoint<G> -> Result<Option<Row<G>>, string>, data: seq<DataPoint<G>>)
    ensures PrepareAll(point, data).Failure? <==> exists k :: 0 <= k < |data| && point(data[k]).Failure?
    ensures PrepareAll(point, data).Failure? ==> exists k :: (0 <= k < |data| &&
      point(data[k]) == Failure(PrepareAll(point, data).error) &&
      forall j :: 0 <= j < k ==> point(data[j]).Success?)
    ensures PrepareAll(point, data).Success? ==>
      forall r :: r in PrepareAll(point, data).value.rows ==> exists k :: 0 <= k < |data| && point(data[k]) == Success(Some(r))
  {
    if |data| > 0 {
      var n := |data| - 1;
      PrepareAllRows(point, data[..n]);
      assert forall k :: 0 <= k < n ==> data[..n][k] == data[k];
    }
  }

  /** After a failed prefix the preparation stays failed with that error. */
  lemma {:induction false} FailureStays<G>(point: DataPoint<G> -> Result<Option<Row<G>>, string>, data: seq<DataPoint<G>>, i: nat)
    requires i <= |data| && PrepareAll(point, data[..i]).Failure?
    ensures PrepareAll(point, data) == PrepareAll(point, data[..i])
    decreases |data| - i
  {
    if i < |data| {
      assert data[..i + 1][..i] == data[..i];
      FailureStays(point, data, i + 1);
    } else {
      assert data[..i] == data;
    }
  }

  /** One more point: the preparation so far extended by its row, its skip
      or its exception. */
  lemma PrepareNext<G>(point: DataPoint<G> -> Result<Option<Row<G>>, string>, data: seq<DataPoint<G>>, i: nat)
    requires i < |data| && PrepareAll(point, data[..i]).Success?
    ensures point(data[i]).Failure? ==> PrepareAll(point, data[..i + 1]) == Failure(point(data[i]).error)
    ensures point(data[i]) == Success(None) ==> (PrepareAll(point, data[..i + 1]) ==
      Success(Prepared(PrepareAll(point, data[..i]).value.rows, PrepareAll(point, data[..i]).value.skips + 1)))
    ensures point(data[i]).Success? && point(data[i]).value.Some? ==> (PrepareAll(point, data[..i + 1]) ==
      Success(Prepared(PrepareAll(point, data[..i]).value.rows + [point(data[i]).value.value], PrepareAll(point, data[..i]).value.skips)))
  {
    assert data[..i + 1][..i] == data[..i];
    assert data[..i + 1][i] == data[i];
  }

  /** The body of the loop for one point. */
  method PreparePoint<G>(env: Env<G>, ops: Ops<G>, table: seq<seq<seq<Cell>>>, p: DataPoint<G>)
    returns (r: Result<Option<Row<G>>, string>)
    requires WellFormedTable(table)
    ensures r == PointRow(env, ops, table, p)
  {
    var pieceType := DetectPiece(ops, table, p.from, p.to);
    if pieceType.Failure? {
      return Failure(pieceType.error);
    }
    var to := ops.removeClears(p.to);
    var choices := env.findChoices(p.from, pieceType.value);
    var toIndex := FindToIndex(ops.equal, choices, to);
    if toIndex.None? {
      return Success(None);
    }
    var expanded := ExpandChoices(choices, ops.checkerboard);
    if expanded.Failure? {
      return Failure(expanded.error);
    }
    var labels := Labels(expanded.value, toIndex.value);
    r := Success(Some(Row(expanded.value, labels)));
  }

  /** `prepareTrainingData`: the rows and the skip count of its loop; the
      label tensor has `trainingData.length - skips` rows. */
  method PrepareTrainingData<G>(env: Env<G>, ops: Ops<G>, table: seq<seq<seq<Cell>>>, data: seq<DataPoint<G>>)
    returns (r: Result<Prepared<G>, string>)
    requires WellFormedTable(table)
    ensures r == PrepareAll(PointFn(env, ops, table), data)
  {
    var point := PointFn(env, ops, table);
    var rows: seq<Row<G>> := [];
    var skips := 0;
    var i := 0;
    while i < |data|
      invariant 0 <= i <= |data|
      invariant PrepareAll(point, data[..i]) == Success(Prepared(rows, skips))
    {
      var res := PreparePoint(env, ops, table, data[i]);
      assert res == point(data[i]);
      PrepareNext(point, data, i);
      if res.Failure? {
        FailureStays(point, data, i + 1);
        return Failure(res.error);
      }
      if res.value.None? {
        skips := skips + 1;
      } else {
        rows := rows + [res.value.value];
      }
      i := i + 1;
    }
    assert data[..i] == data;
    r := Success(Prepared(rows, skips));
  }
}
