# turbostack core, modelled in Dafny

turbostack trains neural networks to play Tetris. It has two halves.

- **TypeScript half.** Plays games with a board evaluator and turns the positions into training data. Two kinds of data:
  - the move each position led to (the move-prediction model);
  - the score the game went on to reach (the score model).
  It keeps the samples in stores that split them into training and validation sets.
- **Rust half.** A 20 x 10 bit board, the seven tetrominoes, a piece generator and an expectimax game loop.

This project models the core of both halves and proves what each operation promises:
- the choice rules: the first maximum, and softmax at temperature 0;
- the rollout and training-data generators, over explicit random streams;
- the data-set stores;
- the move-prediction preprocessing, which detects a placed piece and expands the choices to a one-hot row;
- Welford's running statistics and least-squares line fitting;
- the bit board's row and column operations;
- the piece tables and rotations;
- the piece generator and the game loop.

Pieces the model cannot see become parameters:
- the TypeScript board and its move generator;
- the Rust board's placement search;
- the static evaluators;
- `Math.random`, the Rust RNG, and `exp`.

Numbers are exact reals and unbounded integers, except where the source's bit widths matter. Those keep their widths: the bit board uses `bv16`/`bv32`, positions are 64-bit `usize` values, the generator uses `u32`/`u8` ranges.

Each source file is one module:

| file | module |
|---|---|
| util.dfy | `Util`: Option/Result, `-Infinity`, first index of the maximum, JS `slice` |
| hyper_params.dfy | `HyperParams` |
| random.dfy | `Random`: uniform and piece streams read through a cursor |
| stats.dfy, welford.dfy, softmax.dfy, fit_line.dfy | statistics |
| shuffle.dfy, split_data_set.dfy, split_data_set2.dfy, training_data_set.dfy | data-set stores |
| rollout.dfy | board evaluation, move application, game-board generation |
| training_data.dfy, score_training_data.dfy | training-data generators |
| prediction_model.dfy | move-prediction preprocessing |
| pieces.dfy, board.dfy, piece_type_generator.dfy, game.dfy | Rust half |

## Model

| member | source | states |
|---|---|---|
| Util.FirstMaxIndex | src/applyMove.ts:30-31 | the index returned holds a value no other element exceeds, and every earlier element is strictly smaller (`indexOf(Math.max(...))`) |
| Util.MaxExt | src/softmax.ts:2 | `Math.max` of nothing is -Infinity; otherwise it is an element and bounds every element |
| Util.Ceil | src/SplitDataSet.ts:16 | `Math.ceil(x)` is the least integer not below `x` |
| Util.JsSlice | src/SplitDataSet.ts:18-19 | `slice` never lengthens; on in-range bounds it is the plain subsequence |
| Util.Recent | src/SplitDataSet.ts:26-27 | `slice(-k)` is a suffix: the last `k` elements, all of them when fewer or when `k` is 0 |
| HyperParams.ValCount | src/SplitDataSet.ts:16 | `Math.ceil(n * 0.2)` exactly: at least a fifth of `n`, less than one above it, and at most `n` |
| Stats.Sum | src/Stats.ts:2-4 | the `reduce` without seed over a non-empty array is the total |
| Stats.TotalOfNonnegative | src/Stats.ts:2-4 | a sum of non-negative values is non-negative |
| Stats.TotalOfConstant | src/Stats.ts:2-4 | `n` copies of `c` sum to `n c` |
| Stats.MeanIsTotalOverCount | src/Stats.ts:6-8 | `m` is the mean exactly when `n m` is the total |
| Stats.VariancesNonnegative | src/Stats.ts:10-24 | the squares of `stdev` and `stdevSample` are never negative |
| Stats.ConstantHasNoVariance | src/Stats.ts:10-24 | on a constant array the mean is that constant and both variances are 0 |
| Stats.SampleVarianceScales | src/Stats.ts:10-24 | sample variance times `n - 1` equals population variance times `n` |
| Stats.SqDevsRecentre | src/Stats.ts:10-16 | moving the centre of the squared deviations from the mean to `b` adds `n (mean - b)²`: the mean minimises them |
| Welford.UpdateKeepsMean | src/WelfordCalculator.ts:14-17 | the incremental mean update yields the mean of the extended inputs |
| Welford.UpdateKeepsM2 | src/WelfordCalculator.ts:14-19 | `M2 += delta * delta2` keeps `M2` equal to the summed squared deviation from the mean |
| Welford.UpdateSummarises | src/WelfordCalculator.ts:14-24 | one update keeps count, mean, `M2` and best in step with the inputs seen |
| Welford.WelfordCalculator.constructor | src/WelfordCalculator.ts:7-11 | no inputs: count, mean and `M2` are 0, best is -Infinity |
| Welford.WelfordCalculator.Update | src/WelfordCalculator.ts:14-24 | appends the input, bumps the count, raises best on a strictly larger input, and keeps the summary invariant |
| Welford.WelfordCalculator.GetMean | src/WelfordCalculator.ts:27-29 | the arithmetic mean of the inputs, 0 before any |
| Welford.WelfordCalculator.GetVariance | src/WelfordCalculator.ts:32-38 | `NaN` (modelled as `None`) below two inputs; otherwise `M2 / (n - 1)`, which is the sample variance of the inputs and non-negative |
| Welford.WelfordCalculator.M2Nonnegative | src/WelfordCalculator.ts:4 | `M2` is never negative |
| Softmax.Softmax | src/softmax.ts:1-13 | fails (the source's `reduce` of nothing throws) exactly on an empty input at non-zero temperature; otherwise one output per input |
| Softmax.ZeroTemperatureIsArgMax | src/softmax.ts:4-7 | at temperature 0 the output is 1 at the first maximum and 0 elsewhere |
| Softmax.OneHot | src/softmax.ts:6 | `n` entries, 1 at index `k` and 0 elsewhere |
| Softmax.ZeroTemperatureExample | src/softmax.ts:4-7 | `[3, 1, 2]` at temperature 0 gives `[1, 0, 0]` |
| Softmax.PositiveTemperatureWeights | src/softmax.ts:9-12 | at non-zero temperature the output is the weights `exp((v - max)/T)` over their total |
| Softmax.MaxWeightIsExpZero | src/softmax.ts:9 | the maximum's weight is `exp(0)`, because the maximum is subtracted first |
| Softmax.PositiveTemperatureNormalises | src/softmax.ts:9-12 | at non-zero temperature every output is positive and the outputs sum to 1 |
| FitLine.AccumulateIsTotals | src/fit_line.rs:8-13 | the single fold yields the column totals Σx, Σy, Σx², Σxy |
| FitLine.NormalEquations | src/fit_line.rs:15-16 | a defined closed-form `(a, b)` solves the least-squares normal equations |
| FitLine.NormalEquationsUnique | src/fit_line.rs:15-16 | with a non-zero denominator, any solution of the normal equations is the closed form |
| FitLine.FitIsUniqueSolution | src/fit_line.rs:1-19 | a defined fit is the one and only least-squares solution for the points |
| FitLine.FitThroughMeanPoint | src/fit_line.rs:16 | the fitted line passes through `(x̄, ȳ)` |
| FitLine.DenominatorSign | src/fit_line.rs:15 | `nΣx² − (Σx)²` is never negative and is positive exactly when two x differ |
| FitLine.FitDefinedIffDistinctX | src/fit_line.rs:15-16 | the fit is defined exactly when two points have different x |
| FitLine.EmptyHasNoFit | src/fit_line.rs:6-16 | no points, no fit |
| FitLine.FitRecoversExactLine | src/fit_line.rs:1-19 | points on an exact line with two distinct x give back that line |
| FitLine.ExactLineSolves | src/fit_line.rs:1-4 | a line through every point solves the normal equations |
| Pieces.List | src/piece.rs:77-87 | seven distinct types, I first and T last |
| Pieces.IndexOf | src/piece.rs:77-87 | every type sits at exactly the returned index of `list()` |
| Pieces.Grids | src/piece.rs:89-134 | four rotation grids per type |
| Pieces.FindGridIFindsFirst | src/piece.rs:137-145 | `find_grid_i` succeeds exactly on grids of the table, at the first index holding the grid |
| Pieces.RotateStaysInTable | src/piece.rs:37-47 | `rotate` succeeds exactly on table grids and keeps the grid in its type's table |
| Pieces.TablePeriodic | src/piece.rs:89-134 | each table repeats with period `num_rotations` |
| Pieces.RotationsRestore | src/piece.rs:37-47 | a clockwise then a counter-clockwise turn (and the reverse) restores a table grid |
| Pieces.FourTurnsRestore | src/piece.rs:37-47 | four clockwise turns restore a table grid |
| Pieces.NumRotationsCountsDistinctGrids | src/piece.rs:25-35 | `num_rotations` is the number of distinct grids of the type |
| Pieces.TableGridsHaveFourCells | src/piece.rs:54-73 | every table grid has four set cells, so `cell_positions` never panics on one |
| Pieces.Piece.constructor | src/piece.rs:2-6 | a piece holds its type, grid and position |
| Pieces.Piece.Rotate | src/piece.rs:37-47 | the new grid is the old one turned one step along the table (`Cw` +1, `Ccw` +3) |
| Pieces.Piece.CellPositions | src/piece.rs:54-73 | panics (None) exactly when fewer than four bits are set; otherwise the position plus `(i/4, i%4)` for the first four set loop indices, scanning bit 15 down |
| Pieces.CellIffOffset | src/piece.rs:58-66 | a loop index is scanned exactly when its offset is reported |
| Pieces.ScanToAscending | src/piece.rs:58-66 | the scan reports cells in increasing loop-index order |
| Pieces.AtIsHalfTurnOfOffsets | src/piece.rs:49-66 | `at(i, j)` (bit `4i + j`) is set exactly when `cell_positions` reports offset `(3 - i, 3 - j)`: the two read the grid a half turn apart |
| PieceTypeGen.GenIndex | src/piece_type_generator.rs:12-23 | the returned index is below 7 (the mask is applied with `%`, so the test against 7 always passes) |
| PieceTypeGen.GenRepeatsOnlyOnDoubleHit | src/piece_type_generator.rs:13-23 | the first roll is kept unless it repeats the last piece; a piece repeats exactly when both rolls hit it |
| PieceTypeGen.SevenTestIsDead | src/piece_type_generator.rs:13-16 | the first roll is never 7, so `gen` takes it exactly when it differs from the last piece |
| PieceTypeGen.MaskedGenIndex | src/piece_type_generator.rs:13-23 | with the low three bits as the first roll, the index is still below 7: the test against 7 keeps it in range |
| PieceTypeGen.MaskedGenRerollsSeven | src/piece_type_generator.rs:13-23 | with the mask, a 7 is rolled again, and a piece repeats exactly when the first roll is the last piece or 7 and the second roll hits the last piece |
| PieceTypeGen.ModuloDiffersFromMask | src/piece_type_generator.rs:13 | the word 8 gives type 1 as written and type 0 with the mask |
| PieceTypeGen.FirstGenTakesFirstRoll | src/piece_type_generator.rs:8-19 | a fresh generator's first piece is `list()[rand % 7]` |
| PieceTypeGen.PieceTypeGenerator.constructor | src/piece_type_generator.rs:8-10 | `last` starts at `0xff` |
| PieceTypeGen.PieceTypeGenerator.Gen | src/piece_type_generator.rs:12-24 | `last` becomes `GenIndex(old last, rand)` and the result is `list()[last]` |
| BitBoard.RowSetOwnBit | src/board.rs:59-67 | after `set(j, v)`, `get(j)` is `v` and no bit outside column `j`'s mask changed |
| BitBoard.RowSetOther | src/board.rs:55-67 | `set(j, v)` leaves every other column's `get` unchanged |
| BitBoard.RowFlipOwnBit | src/board.rs:55-71 | `flip(j)` toggles `get(j)` and nothing outside its mask |
| BitBoard.RowFlipOther | src/board.rs:55-71 | `flip(j)` leaves every other column unchanged |
| BitBoard.RowFlipTwice | src/board.rs:69-71 | flipping twice is the identity |
| BitBoard.RowFullIffAllSet | src/board.rs:51-57 | `full` holds exactly when all ten columns are set and no bit above them |
| BitBoard.ColRemoveKeepsBelow | src/board.rs:78-82 | removing row `i` keeps the column bits of the rows below it |
| BitBoard.ColRemoveShiftsAbove | src/board.rs:78-82 | from row `i` up, each column bit takes the one above it |
| BitBoard.ColRemoveClearsTop | src/board.rs:78-82 | the column's top bit becomes 0 |
| BitBoard.ColHeightIsTopBit | src/board.rs:84-86 | `height` is 0 exactly for an empty column; otherwise its highest set bit is `height - 1`; never above 32 |
| BitBoard.NonFull | src/board.rs:14-20 | the rows that are not full, in order: never more than the rows, none of them full |
| BitBoard.CountFull | src/board.rs:14-20 | full rows and non-full rows together count every row |
| BitBoard.FullIndices | src/board.rs:14-20 | one index per full row, each naming a full row |
| BitBoard.WithoutFullRow | src/board.rs:22-28 | removing a full row puts one empty row on top of the same non-full rows and leaves one full row fewer |
| BitBoard.CleanPrefixPass | src/board.rs:14-20 | the pass over rows none of which is full removes nothing |
| BitBoard.BottomUpKeepsNonFull | src/board.rs:14-20 | the pass as written keeps the non-full rows in order under one empty row per removal, and removes at most as many rows as are full |
| BitBoard.AdjacentFullRowSurvives | src/board.rs:14-20 | with two full rows at the bottom the pass removes one and leaves a full row at the bottom |
| BitBoard.ClearedHasNoFullRow | src/board.rs:14-20 | after the corrected pass no row is full |
| BitBoard.Board.constructor | src/board.rs:7-12 | twenty empty rows and ten empty columns |
| BitBoard.Board.Set | src/board.rs:38-40 | only row `i` changes, by the row's `set`; afterwards `get(i, j)` is the value |
| BitBoard.Board.Flip | src/board.rs:42-44 | only row `i` changes, by the row's `flip`; `get(i, j)` toggles |
| BitBoard.Board.RemoveRow | src/board.rs:22-32 | the rows above `i` move down one under a new empty top row, and every column removes row `i` |
| BitBoard.Board.ShiftRowsDown | src/board.rs:23-28 | the row half of `remove_row` |
| BitBoard.Board.RemoveRowFromCols | src/board.rs:29-31 | the column half of `remove_row` |
| BitBoard.Board.RemoveClears | src/board.rs:14-20 | rows and columns end as the bottom-up pass as written leaves them |
| BitBoard.Board.RemoveAllClears | src/board.rs:14-20 | rows end as the non-full rows under one empty row per full row; the columns have the full rows removed in order |
| GameLoop.Insert | src/game.rs:71-93 | no placement gives `None`; otherwise the result is one of the placements |
| GameLoop.Evals | src/game.rs:80-90 | one value per placement, each its value one level down |
| GameLoop.Contributions | src/game.rs:100-114 | one contribution per piece type, in `list()` order |
| GameLoop.InsertChoosesFirstBest | src/game.rs:80-92 | the placement kept is worth at least every other one, every earlier one is worth strictly less, and the value returned is its value one level down |
| GameLoop.NextBoard | src/game.rs:58-68 | without a placement the board is marked finished with its cells unchanged; otherwise it is a placement of largest value |
| GameLoop.EvalBounded | src/game.rs:95-115 | static evaluations in `[0, hi]` keep every searched value in `[0, hi]` |
| GameLoop.NoPlacementWorthZero | src/game.rs:100-114 | when no piece type can be placed, a searched value is 0 |
| GameLoop.ScanBestIsFirstMax | src/game.rs:80-92 | the keep-if-strictly-better scan ends on the first maximum |
| GameLoop.InsertIsScan | src/game.rs:78-92 | `insert_piece_type`'s definition equals what its loop computes |
| GameLoop.Game.constructor | src/game.rs:33-47 | both boards are `Board::new(lines_cleared_max)`, the generator is fresh |
| GameLoop.Game.Step | src/game.rs:49-69 | `last_board` is the old board; a finished board and the generator stay; otherwise the generator advances and the board becomes `NextBoard` of the drawn type |
| GameLoop.Game.InsertPieceType | src/game.rs:71-93 | returns `Insert` of the board, type and depth |
| GameLoop.Game.ScanChoices | src/game.rs:80-90 | the loop's best placement and value are the scan over the placements' values |
| GameLoop.Game.EvalBoard | src/game.rs:95-115 | returns `Eval` of the board and depth |
| Util.Pick | src/SplitDataSet.ts:150 | `Math.floor(r * m)` for a draw `r` in [0, 1) is an index below `m`, the one whose unit interval holds `r m` |
| Shuffle.Wrap | src/SplitDataSet.ts:147 | the copy holds every input element at its own index |
| Shuffle.Shuffle | src/SplitDataSet.ts:146-157 | consumes one draw per swap; the result has `size` slots, those past the input are `undefined`, the others come from distinct input positions (all of them once `size` reaches the input length), and a non-positive `size` gives the plain `slice(0, size)`; the input is a value and is not changed |
| Shuffle.Copy | src/SplitDataSet.ts:147-153 | the working array is the input followed by `undefined` up to the highest index written |
| Shuffle.SwapKeepsPermuted | src/SplitDataSet.ts:150-153 | a swap of two input slots (or of a slot with itself) keeps the copy a permutation of the input |
| Shuffle.PaddedIsPermuted | src/SplitDataSet.ts:147 | the fresh copy is a permutation of the input |
| Shuffle.SliceIsShuffled | src/SplitDataSet.ts:156 | the first `size` slots of a permuted copy satisfy the shuffle's promise |
| Shuffle.PrefixSubMultiset | src/SplitDataSet.ts:156 | a prefix of the copy takes each element at most as often as the whole |
| SplitDataSet.StorageFile | src/SplitDataSet.ts:49-56 | save/load fail with "save/load not enabled" exactly for a store without a name; otherwise the file lies under `data/dataset/` and ends in `.json` |
| SplitDataSet.StripExtension | src/SplitDataSet.ts:115 | dropping `.json` and putting it back gives the file name |
| SplitDataSet.ShardNames | src/SplitDataSet.ts:112-116 | never more names than directory entries |
| SplitDataSet.ShardNamesMembers | src/SplitDataSet.ts:112-116 | a name is selected exactly when some entry starts with `name-`, ends with `.json` and is that name plus `.json` |
| SplitDataSet.NoShardNames | src/SplitDataSet.ts:112-120 | no name is selected exactly when no entry is a shard file |
| SplitDataSet.MergedAppend | src/SplitDataSet.ts:136-142 | merging two name lists one after the other concatenates their merges |
| SplitDataSet.FailedShardAddsNothing | src/SplitDataSet.ts:126-130 | a shard whose load throws contributes no items |
| SplitDataSet.SplitDataSet.constructor | src/SplitDataSet.ts:5-13 | both lists empty, the given name kept |
| SplitDataSet.SplitDataSet.Add | src/SplitDataSet.ts:15-20 | the first `ceil(0.2 len)` new items are appended to `valData`, the rest to `data`, in order; `size()` grows by `len` |
| SplitDataSet.SplitDataSet.KeepRecent | src/SplitDataSet.ts:22-28 | `data` keeps its newest `n - ceil(0.2 n)` items and `valData` its newest `ceil(0.2 n)`, with JavaScript's `slice(-k)` meaning (all items for `k = 0`) |
| SplitDataSet.KeepRecentSize | src/SplitDataSet.ts:22-28 | for `n >= 2` at most `n` items remain; for `n` of 1 or 0 the `slice(-0)` keeps whole lists |
| SplitDataSet.SplitDataSet.Sample | src/SplitDataSet.ts:34-47 | throws exactly when `size > size()`; otherwise a fresh unnamed store whose `data` is a shuffle of `size - ceil(0.2 size)` training items and whose `valData` is one of `ceil(0.2 size)` validation items; this store is left as it was |
| SplitDataSet.SampleCannotBeStored | src/SplitDataSet.ts:42-52 | a sample has no name, so `save`/`load` on it throw |
| SplitDataSet.SplitDataSet.LoadMulti | src/SplitDataSet.ts:100-143 | without a name it throws "not enabled", without shard files "No files found", both leaving the lists; otherwise both lists become the shards' lists concatenated in listing order |
| SplitDataSet2.Frac | src/SplitDataSet2.ts:9 | `x % 1` lies in [0, 1) |
| SplitDataSet2.Randish | src/SplitDataSet2.ts:8-10 | `randish(i)` lies in [0, 1) |
| SplitDataSet2.Scramble | src/SplitDataSet2.ts:9 | the slot `89 m mod 144` is below 144 |
| SplitDataSet2.RandishIsSlot | src/SplitDataSet2.ts:5-10 | over exact rationals `randish(i)` is `(89 (i mod 144) mod 144) / 144` |
| SplitDataSet2.ScrambleInvolution | src/SplitDataSet2.ts:5-9 | the scramble is its own inverse on residues, so it is a bijection |
| SplitDataSet2.RandishPeriodic | src/SplitDataSet2.ts:8-10 | `randish` has period 144 |
| SplitDataSet2.ValidationResidues | src/SplitDataSet2.ts:5-10 | exactly `Threshold(v)` residues modulo 144 go to validation |
| SplitDataSet2.ValCountIsCard | src/SplitDataSet2.ts:54-57 | the validation count of a list of `n` items is the number of indices below `n` whose `randish` is below `valSplit` |
| SplitDataSet2.ValCountShift | src/SplitDataSet2.ts:54-57 | counts add up across a batch boundary |
| SplitDataSet2.BatchValidationCount | src/SplitDataSet2.ts:54-57 | each aligned batch of 144 items sends exactly `ceil(144 valSplit)` items (clamped to [0, 144]) to validation |
| SplitDataSet2.Threshold | src/SplitDataSet2.ts:55 | the number of validation slots per batch is at most 144 |
| SplitDataSet2.SlotBelow | src/SplitDataSet2.ts:55 | slot `t` is below `v` exactly when `t` is below the threshold |
| SplitDataSet2.ResidueBelow | src/SplitDataSet2.ts:55 | index `t` of a batch goes to validation exactly when its scramble is below the threshold |
| SplitDataSet2.Below | src/SplitDataSet2.ts:55 | the first `k` naturals, `k` of them |
| SplitDataSet2.ValCountBelow | src/SplitDataSet2.ts:54-57 | no more validation items than items |
| SplitDataSet2.Side | src/SplitDataSet2.ts:54-57 | one side never holds more items than the list |
| SplitDataSet2.SidesCover | src/SplitDataSet2.ts:54-57 | the two sides together hold every item once |
| SplitDataSet2.Part | src/SplitDataSet2.ts:54-57 | one part never holds more items than the list |
| SplitDataSet2.PartStep | src/SplitDataSet2.ts:55-56 | one more item goes to the end of exactly the part `randish` picks |
| SplitDataSet2.PartsCover | src/SplitDataSet2.ts:54-57 | training and validation parts together are a permutation of the items |
| SplitDataSet2.PartSizes | src/SplitDataSet2.ts:54-57 | the validation part has the counted size, the training part the rest |
| SplitDataSet2.PartAfterBatches | src/SplitDataSet2.ts:35-57 | dropping whole batches from the front keeps the later items' sides and order |
| SplitDataSet2.BatchesToRemove | src/SplitDataSet2.ts:35 | `ceil(excess / 144)` batches cover the excess with less than one batch to spare |
| SplitDataSet2.TrimmedBounds | src/SplitDataSet2.ts:31-38 | `trim` removes a multiple of 144 from the front, keeps a suffix, does nothing when within `maxSize`, and otherwise leaves more than `maxSize - 144` and at most `maxSize` items |
| SplitDataSet2.TrimKeepsAssignment | src/SplitDataSet2.ts:31-57 | every item that survives `trim` keeps its train/validation side, in order |
| SplitDataSet2.SplitByRandish | src/SplitDataSet2.ts:54-57 | the loop pushes exactly the training part to `data` and the validation part to `valData` |
| SplitDataSet2.SplitDataSet2.constructor | src/SplitDataSet2.ts:15-24 | an accepted `maxSize` gives an empty store within its bound |
| SplitDataSet2.New | src/SplitDataSet2.ts:20-24 | throws "maxSize must be at least 144" exactly when `maxSize < 144` |
| SplitDataSet2.SplitDataSet2.Trim | src/SplitDataSet2.ts:31-38 | `allData` becomes `Trimmed(allData, maxSize)` |
| SplitDataSet2.SplitDataSet2.Add | src/SplitDataSet2.ts:26-29 | `allData` becomes the appended list trimmed, and stays within `maxSize` |
| SplitDataSet2.SplitDataSet2.Sample | src/SplitDataSet2.ts:48-66 | `size` is clamped to `size()`; `data` shuffles the training part to `size - ceil(size valSplit)` items and `valData` the validation part to `ceil(size valSplit)` |
| SplitDataSet2.SplitDataSet2.All | src/SplitDataSet2.ts:44-46 | `all(v)` is `sample(v, size())` |
| TrainingDataSet.WindowOffsetBounds | src/TrainingDataSet.ts:46-47 | for a draw in [0, 1) and a list at least as long as the window, the offset is in `[0, len - win]`, below `len - win` when the list is longer |
| TrainingDataSet.Window | src/TrainingDataSet.ts:50-51 | a window never holds more items than the list |
| TrainingDataSet.WindowIsContiguous | src/TrainingDataSet.ts:46-51 | a window of a long enough list has exactly `win` consecutive items, in order, at the drawn offset |
| TrainingDataSet.TrainingDataSet.constructor | src/TrainingDataSet.ts:8-10 | both lists empty |
| TrainingDataSet.TrainingDataSet.Add | src/TrainingDataSet.ts:12-17 | the first `ceil(0.2 len)` new items are appended to `valData`, the rest to `data`, in order; `size()` grows by `len` |
| TrainingDataSet.TrainingDataSet.KeepRecent | src/TrainingDataSet.ts:19-25 | newest `n - ceil(0.2 n)` training and `ceil(0.2 n)` validation items, with `slice(-0)` keeping all |
| TrainingDataSet.TrainingDataSet.Sample | src/TrainingDataSet.ts:38-54 | throws exactly when `size > size()`; otherwise a fresh set of two windows (validation offset drawn first), this set unchanged |
| Rollout.Greedy | src/applyMove.ts:19-37 | no choice gives none; otherwise the first choice of highest evaluation |
| Rollout.ApplyMove | src/applyMove.ts:6-38 | a finished or too-tall board is returned as it is, drawing nothing; a board where the drawn piece fits nowhere comes back finished and otherwise unchanged; otherwise the first best choice |
| Rollout.ApplyNMoves | src/applyMove.ts:40-50 | the loop computes `Moves`: up to `n` moves, stopping right after one that finishes the board |
| Rollout.NoMoves | src/applyMove.ts:41-49 | zero moves return the board |
| Rollout.StoppedIsFixed | src/applyMove.ts:7-50 | a finished or too-tall board is a fixed point of any number of moves |
| Rollout.MovesDrawAtMostN | src/applyMove.ts:40-50 | `n` moves draw at most `n` pieces |
| Rollout.GenerateGameBoards | src/generateGameBoards.ts:5-55 | a returned game starts at the start board, each later position is the greedy move from the one before, it ends stuck or on a finishing move, has fewer than 2500 positions, and scores the last board's score plus the number of positions; it throws "Should not be possible" exactly when the start is finished, and "This should not be possible" only when the greedy game from the start is still unfinished at its 2500th position, which a returned game rules out |
| Rollout.PrefixEndsStuck | src/generateGameBoards.ts:26-48 | a game ends on its last position when the drawn piece fits nowhere, and one that ends within 2500 positions does not run too long |
| Rollout.PrefixEndsFinished | src/generateGameBoards.ts:12-48 | a game ends after the greedy move that finishes the board, scoring that board's score plus the number of positions |
| Rollout.GameExcludesTooLong | src/generateGameBoards.ts:12-18 | a greedy game of fewer than 2500 positions never reaches the 2500-position guard |
| Rollout.PrefixOutlastsGame | src/generateGameBoards.ts:12-40 | an unfinished prefix of the greedy game is shorter than the finished game |
| Rollout.GameIsDeterministic | src/generateGameBoards.ts:5-55 | the draws determine the game: two records of it are equal |
| Rollout.GameContinues | src/generateGameBoards.ts:36-39 | every position but the last is followed by its greedy move, which is not finished |
| Rollout.SamePrefix | src/generateGameBoards.ts:12-39 | two records of a game agree position by position |
| Rollout.DeeperEvaluate | src/BoardEvaluator.ts:6-28 | one value per input board, in order, each the deeper value of that board |
| Rollout.SumOfBestCases | src/BoardEvaluator.ts:13-21 | the running sum is -Infinity exactly when some type so far has no choice (`Math.max()`), and otherwise the total of the best evaluations |
| Rollout.DeeperValueCases | src/BoardEvaluator.ts:14-23 | the value is -Infinity exactly when some piece type has no choice, otherwise the sum of the seven best evaluations over 7 |
| TrainingData.Augment | src/generateTrainingData.ts:60-78 | keeps the board; its score is the mean of ten scores, the given one first and nine final scores of greedy games played on from the board; an error is one of those games throwing |
| TrainingData.ArePlayoutScoresIff | src/generateTrainingData.ts:67-70 | a list of scores collected by the loop is exactly a list each of whose elements is the final score of a greedy game from the board |
| TrainingData.Max | src/generateTrainingData.ts:142-147 | the head after a descending sort is an element no other exceeds |
| TrainingData.TypeEntries | src/generateTrainingData.ts:134-148 | two entries for a type with no choice (its `board.score`, then the `undefined` head of an empty list), one otherwise |
| TrainingData.AugmentLookahead | src/generateTrainingData.ts:128-156 | keeps the board; its score is the mean of the pushed entries, `NaN` when one is `undefined` |
| TrainingData.EntriesCount | src/generateTrainingData.ts:134-148 | at least one entry per type, exactly one when every type has a choice |
| TrainingData.AllPlacedEntries | src/generateTrainingData.ts:134-148 | with a choice for every type, the entries are the types' best evaluations in order |
| TrainingData.LookaheadAllPlaced | src/generateTrainingData.ts:128-156 | when every type fits, the score is the mean of the seven best evaluations, the deeper evaluator's value |
| TrainingData.UnplacedGivesUndefined | src/generateTrainingData.ts:137-147 | a type without a choice pushes an `undefined` entry |
| TrainingData.LookaheadUnplacedIsNaN | src/generateTrainingData.ts:137-150 | a piece type without a choice makes the lookahead score `NaN` |
| TrainingData.TrainingGame | src/generateTrainingData.ts:25-54 | one or two pairs; the first is a position of a greedy game from the start, scored by `augment` with that game's final score first; one pair only when a piece type fits nowhere on it; a second pair is a choice from the first board, scored by `augment` with its own game's final score first; an error is a game from the start or from a sampled board throwing |
| TrainingData.PositionSample | src/generateTrainingData.ts:25-34 | a position of a greedy game from the start, scored by `augment` starting from that game's final score; an error is a sampled game throwing |
| TrainingData.PlayoutPair | src/generateTrainingData.ts:46-54 | keeps the board; scored by `augment` starting from the final score of a greedy game from that board; an error is that game or a playout throwing |
| TrainingData.GenerateTrainingData | src/generateTrainingData.ts:21-58 | at least `n` pairs, every score defined; each pair a position of a greedy game from the start or a choice from one, scored by `augment` as in `TrainingGame`; an error is a sampled game throwing |
| TrainingData.LookaheadGame | src/generateTrainingData.ts:94-122 | between `samplesPerGame` and twice that many pairs, each a position of the game or a choice from one, scored by `augmentLookahead`; an error is the game's own |
| TrainingData.LookaheadPairs | src/generateTrainingData.ts:96-122 | per sample a position, then a choice from it when the drawn piece fits; each scored by `augmentLookahead` |
| TrainingData.GenerateLookaheadTrainingData | src/generateTrainingData.ts:86-126 | at least `n` pairs, each a position of a greedy game from the start or a choice from one, scored by `augmentLookahead`; an error is a game from the start throwing |
| ScoreTrainingData.RandMaxN | src/generateScoreTrainingData.ts:76-84 | the largest of 0 and `n` draws: in [0, 1), at least each draw, and 0 or one of them; `n` draws taken; the value is `MaxOfDraws`, the running maximum of the draws from the cursor on |
| ScoreTrainingData.MaxOfDraws | src/generateScoreTrainingData.ts:76-84 | the running maximum of 0 and `n` draws lies in [0, 1) |
| ScoreTrainingData.RandMinN | src/generateScoreTrainingData.ts:86-94 | the smallest of 1 and `n` draws: in [0, 1], at most each draw, and 1 or one of them |
| ScoreTrainingData.Augment | src/generateScoreTrainingData.ts:96-116 | keeps both boards; exactly `nPlayoutsToAvg` samples, each a final score of a greedy game from the board, and the score is their mean; the samples are `Playouts` from the cursor: game after game, each starting where the previous one stopped drawing, the last stopping at `next`; an error is one of those games throwing |
| ScoreTrainingData.PlayoutsSnoc | src/generateScoreTrainingData.ts:103-106 | one more game, started where the earlier playouts stopped, extends them by its final score |
| ScoreTrainingData.LookaheadScores | src/generateScoreTrainingData.ts:124-139 | exactly seven scores |
| ScoreTrainingData.AugmentLookahead | src/generateScoreTrainingData.ts:118-147 | no previous board or samples; the score is the mean of the seven type scores (`board.score` for a type with no choice, else its best evaluation) |
| ScoreTrainingData.LookaheadIsDeeperValue | src/generateScoreTrainingData.ts:118-147 | where every type fits, that mean is the deeper evaluator's value |
| ScoreTrainingData.DeepSamples | src/generateScoreTrainingData.ts:29-51 | exactly `deepSamplesPerGame` samples, an unplaceable draw retried; each a choice from a rollout position with the playout scores and their mean; a finished result is a `DeepRun` of at most `tries` passes, pass by pass from the cursor to `next`; an error is a game from such a choice throwing; stopping unfinished needs a positive count and either fewer tries than samples or a position where some piece fits nowhere, and is a `DeepRun` of exactly `tries` passes that gave fewer samples than the count |
| ScoreTrainingData.DeepPass | src/generateScoreTrainingData.ts:30-50 | one pass: the `DeepStep` from the cursor (three draws for `randMaxN(3)`, a piece, a choice, then the playouts), giving at most one deep sample; no sample only when some position has a piece type with no choice; an error is a game from a placement throwing |
| ScoreTrainingData.DeepTraceStep | src/generateScoreTrainingData.ts:29-51 | a pass taken while fewer than the count are held, starting where the trace stopped, extends the trace, and its samples are appended |
| ScoreTrainingData.LookaheadSamples | src/generateScoreTrainingData.ts:53-70 | the samples are `LookaheadRun` of `lookaheadSamplesPerGame` passes from the cursor, two draws a pass: at most that many, each a rollout position scored by `augmentLookahead` |
| ScoreTrainingData.LookaheadStep | src/generateScoreTrainingData.ts:54-69 | one pass gives at most one sample, a rollout position |
| ScoreTrainingData.LookaheadPass | src/generateScoreTrainingData.ts:54-69 | the pass's samples are `LookaheadStep` at the cursor |
| ScoreTrainingData.LookaheadRun | src/generateScoreTrainingData.ts:53-70 | `i` passes give at most `i` samples, each a rollout position |
| ScoreTrainingData.LookaheadRunSnoc | src/generateScoreTrainingData.ts:53-70 | pass `i + 1`, two draws after pass `i`, appends its `LookaheadStep` samples to the run |
| ScoreTrainingData.ScoreGame | src/generateScoreTrainingData.ts:23-70 | one game's points: its deep samples then at most `lookaheadSamplesPerGame` lookahead samples, all score points of a greedy game from the start; a finished game is `ScoreGameYields`: the greedy game from the cursor, its `DeepRun` within `tries` passes, then its `LookaheadRun`, stopping at `next`; stopping unfinished is `ScoreGameStalls`, the deep run using up its tries; an error is a sampled game throwing |
| ScoreTrainingData.GameYields | src/generateScoreTrainingData.ts:23-70 | a greedy game, a deep run from where it stopped and a lookahead run from where that stopped make up what the game yields |
| ScoreTrainingData.GenerateScoreTrainingData | src/generateScoreTrainingData.ts:15-74 | at least `n` points, each a deep or a lookahead sample of a greedy game from the start; a finished result is a `GamesRun` of at most `games` games from the cursor, each played while fewer than `n` points were held and each yielding as `ScoreGameYields` says; an error is a sampled game throwing; stopping unfinished needs `n > 0` and either `games` such games from the cursor that together gave fewer than `n` points, or fewer games followed by one whose deep samples stalled |
| ScoreTrainingData.ScoreTraceStep | src/generateScoreTrainingData.ts:21-71 | a game played while fewer than `n` points are held, starting where the trace stopped, extends the trace, and its points are appended |
| PredictionModel.RelOffsets | src/PredictionModel.ts:314-321 | one offset per cell after the first, each relative to the first |
| PredictionModel.ScanCells | src/PredictionModel.ts:311-324 | the nested loop leaves `start` at the first new cell in row-major order and the offsets of the others, in order |
| PredictionModel.FoundCountsBits | src/PredictionModel.ts:358-373 | the scan of a grid finds as many cells as the grid has set bits |
| PredictionModel.BitsPatternIffFour | src/PredictionModel.ts:358-377 | a grid decodes exactly when it has four set bits, and then to three offsets |
| PredictionModel.DecodeGrid | src/PredictionModel.ts:354-380 | the loop over bit `4i + j` computes the grid's pattern or its exception |
| PredictionModel.Patterns | src/PredictionModel.ts:354-380 | fails exactly when some grid fails, with that grid's error; otherwise one pattern per grid |
| PredictionModel.StaticTable | src/PredictionModel.ts:353-381 | fails exactly when some grid of some type fails; otherwise one entry per type holding its grids' patterns |
| PredictionModel.GridPatternFailsIff | src/PredictionModel.ts:375-377 | decoding throws "Failed to find 4 blocks" exactly on grids without four set bits |
| PredictionModel.StaticTableFails | src/PredictionModel.ts:353-381 | the table fails exactly when some grid lacks four set bits; otherwise it is well formed |
| PredictionModel.FirstMatch | src/PredictionModel.ts:330-348 | the first type whose patterns include the offsets; none exactly when no type's do |
| PredictionModel.Matches | src/PredictionModel.ts:334-342 | the early-exit comparison is true exactly when the offsets are equal |
| PredictionModel.Search | src/PredictionModel.ts:330-348 | the nested search loop computes `FirstMatch` |
| PredictionModel.DetectPiece | src/PredictionModel.ts:307-351 | returns `Detect`: "Failed to find 4 blocks" unless three offsets, "Failed to detect piece" when none matches, else the first matching type |
| PredictionModel.DetectedPieceFits | src/PredictionModel.ts:311-350 | a detected piece has exactly four new cells and is the first type whose patterns hold their offsets |
| PredictionModel.ShiftKeepsOffsets | src/PredictionModel.ts:314-321 | shifting all cells keeps their relative offsets |
| PredictionModel.ShiftedDetect | src/PredictionModel.ts:311-348 | shifting the new cells does not change the detected piece |
| PredictionModel.Padded | src/PredictionModel.ts:388-390 | exactly `evalNodeCount` boards: the choices at their indices, then checkerboards |
| PredictionModel.ExpandChoices | src/PredictionModel.ts:383-393 | throws exactly on more than `evalNodeCount` choices; otherwise the padded list |
| PredictionModel.LastMatch | src/PredictionModel.ts:242-248 | the last index whose choice equals `to`; none exactly when none does |
| PredictionModel.FindToIndex | src/PredictionModel.ts:242-248 | the loop computes `LastMatch` |
| PredictionModel.LabelRow | src/PredictionModel.ts:258-262 | a label row of the requested length |
| PredictionModel.LabelRowSum | src/PredictionModel.ts:258-262 | a label row sums to 1 when its index is in range |
| PredictionModel.Labels | src/PredictionModel.ts:258-262 | the label loop builds the one-hot row at `toIndex` over the expanded choices |
| PredictionModel.RowIsLabelled | src/PredictionModel.ts:242-268 | a row has `evalNodeCount` choices and labels summing to 1, marking the last choice equal to `to` at its own index |
| PredictionModel.RowForCases | src/PredictionModel.ts:242-256 | a point is skipped exactly when no choice equals `to`, and throws exactly when one does and there are too many choices |
| PredictionModel.PrepareAll | src/PredictionModel.ts:234-271 | rows plus skips count every point |
| PredictionModel.PrepareAllRows | src/PredictionModel.ts:234-269 | preparation fails exactly when some point throws, with the first such error; every row comes from a point |
| PredictionModel.FailureStays | src/PredictionModel.ts:234-269 | an exception ends the loop |
| PredictionModel.PrepareNext | src/PredictionModel.ts:234-269 | one more point adds its row, its skip or its exception |
| PredictionModel.PreparePoint | src/PredictionModel.ts:235-268 | the loop body computes `PointRow` |
| PredictionModel.PrepareTrainingData | src/PredictionModel.ts:228-269 | the loop computes `PrepareAll` over the points |

## Left out

- Floating point: every `number` and `f32` is an exact real, so the model does not round. `exp` is a positive parameter and `sqrt` is left out: `stdev` and `stdevSample` are stated through their squares.
- `NaN`: there is no `NaN` among the reals. Where the source makes one, the model gives `None` or leaves the input out, as the next four lines say.
- TrainingData.AugmentLookahead: the mean of entries with an `undefined` among them (src/generateTrainingData.ts:137-156) is `NaN`; the score is `None` there.
- Welford.WelfordCalculator.GetVariance: below two inputs the source returns an explicit `NaN` (src/WelfordCalculator.ts:33-35); the model returns `None`.
- FitLine.Fit: with no points, or with every x equal, the division at src/fit_line.rs:15-16 is `0/0`, which is `NaN` in `f32`; the model returns `None`, and FitLine.FitDefinedIffDistinctX and FitLine.EmptyHasNoFit state exactly when.
- Stats.SampleVariance: requires two or more values. For one value src/Stats.ts:18-23 computes `sqrt(0/0)`, which is `NaN`, and the model does not cover that input; Stats.SampleVarianceScales and Stats.VariancesNonnegative state nothing about it either.
- `Math.random`, `getRandomPieceType` and the Rust `StdRng` are read from an explicit stream (`Random.Draws`) or passed in as a `rand` argument.
- Code outside these files is passed in as parameters, and nothing is assumed of it beyond its signature:
  - the TypeScript `Board` class: `findChoices`, `maxHeight`, `clone`, `Board.equal`, `removeClears`, `Board.checkerboard`, `get`;
  - the piece grid table `PIECE_GRIDS`;
  - the board evaluators;
  - the Rust game board's `find_choices` and `board_eval`.
- The batch coalescer and the evaluator's call order are not modelled: the wrapped evaluator is a pure function here, so when and how often it is called is not observable.
- All file I/O is left out:
  - `save`, `load` and `loadMulti`'s reads are not modelled;
  - a directory listing and each shard's load outcome are inputs;
  - `SplitDataSet2`'s JSON-lines `save`/`load` are not modelled.
- TensorFlow is left out:
  - the tensors and reshapes of `prepareTrainingData`;
  - `toMlInputData`;
  - `TrainingDataSet.prepare`.
- Rollout.GenerateGameBoards: takes its start board as an argument. src/generateGameBoards.ts declares only the evaluator parameter and starts from `new Board(130)`, while src/generateTrainingData.ts and src/generateScoreTrainingData.ts pass a start board as well; the model follows the callers.
- PredictionModel.ExpandChoices: returns the padded list as a new value. The source pushes onto the caller's array in place; no caller reads that array again.
- ScoreTrainingData.DeepSamples: stops with `Unfinished` after `tries` position draws. The source retries forever while every drawn piece fits nowhere; the bound is what keeps the method terminating. `Unfinished` is possible only when the count is positive and either `tries` is below it or some position has a piece type that fits nowhere on it; it is then the run of `tries` passes from the cursor, which gave fewer samples than the count.
- ScoreTrainingData.GenerateScoreTrainingData: stops with `Unfinished` after `games` games. The bound is a termination argument; the source has none. The contract states that `Unfinished` is reached only with `n > 0`, and then either the `games` games played from the cursor all finished and together gave fewer than `n` points, or after fewer games one game's deep samples stalled. With `deepSamplesPerGame` at 0 the second case cannot occur. Each game also takes at least `GameDraws` draws.
- TrainingData.GenerateLookaheadTrainingData: requires `samplesPerGame > 0` unless `n <= 0`. Otherwise the source never stops.
- The empty-rollout check at src/generateScoreTrainingData.ts:25-27 is not modelled as a branch, because a successful `GenerateGameBoards` never returns an empty game.
- BitBoard.Board.Set: changes only the rows, as the source does. No lemma states that rows and columns agree after `set` or `flip`.
- BitBoard.Board.Set: requires `i < 20` and `j < 10` (and so does `Flip`, with the row functions requiring `j < 10`). Outside that range the source panics on the array index or on `9 - j`, and the model does not represent the panic. Bit positions are `usize` values, modelled as 64-bit vectors.
- The piece generator's `rand` is a `u32` range and `last` a `u8` range.
- GameLoop.Game.Step: requires a positive search depth unless the board is finished. At depth 0 the source stops at `assert!(depth > 0)` (src/game.rs:77); every call site in src/main.rs, src/fit_initial_model.rs and src/ground_fitness.rs passes a positive depth.
- Pieces.Piece.Rotate: requires the current grid to be one of its type's four grids. Otherwise `find_grid_i` panics (src/piece.rs:137-145), and the model does not represent the panic; `Piece.constructor` accepts any grid, as a `Piece` struct literal with its public fields does.
- Stats.Sum: requires a non-empty array. `reduce` without an initial value throws on an empty array, and the model does not represent the exception.
- TrainingDataSet.TrainingDataSet.Add: uses a validation split of 0.2, and so do `KeepRecent` and `Sample`. src/TrainingDataSet.ts:3 imports `validationSplit` from programs/helpers/hyperParams.ts, which does not export it, so the import does not resolve; the model takes the value src/hyperParams.ts:24 exports, the one src/SplitDataSet.ts uses.
- The order of `ALL_PIECE_TYPES` is taken to be the Rust `PieceType::list()` order (`Pieces.List`), which fixes the order of the lookahead scores. src/PieceType.ts is not part of this model.
- The `Debug` rendering of `Game` and all `toString` methods are formatting only, so they are left out.

## Findings

| source | as written | input that shows it | evidently intended | confidence | as-written member | corrected member |
|---|---|---|---|---|---|---|
| src/board.rs:14-20 | `remove_clears` walks rows 19 down to 0 once and, after removing row `i`, goes on to `i - 1`, so the row just shifted down into `i` is never examined | rows 18 and 19 both full, all others empty: row 19 is removed, the full row 18 drops to 19 and stays | every full row is removed, leaving the non-full rows under one empty row per full row | not executed; medium (the pass is as the source writes it, the intent is inferred) | BitBoard.AdjacentFullRowSurvives, BitBoard.Board.RemoveClears | BitBoard.Board.RemoveAllClears, BitBoard.ClearedHasNoFullRow |
| src/piece_type_generator.rs:13-16 | the first roll is `rand % 0b111`, i.e. `rand % 7`, so it is never 7 and the test `rand0 != 7` can never fail | `rand = 8` on a fresh generator: `8 % 7` gives type 1, while the low three bits are 0 | `rand & 0b111`: the low three bits as the first roll, with 7, which names no type, rolled again from `rand >> 3` | not executed; medium (the dead test is certain, the intended mask is inferred) | PieceTypeGen.SevenTestIsDead, PieceTypeGen.ModuloDiffersFromMask | PieceTypeGen.MaskedGenIndex, PieceTypeGen.MaskedGenRerollsSeven |
