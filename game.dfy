// src/game.rs: the Rust game loop. Each step draws a piece type and places
// it where a depth-limited expectimax search scores best: a placement is
// worth the average, over the seven piece types, of the best placement of
// the next piece, down to the static board evaluation.
//
// The board's placement search, its constructor and the static evaluation
// are not part of this model; they enter as the parameters in `Rules`.
// Scores are exact reals where the source uses `f32`.
module GameLoop {
  import opened Util
  import opened Pieces
  import opened PieceTypeGen
  import Stats

  /** What the game loop reads of a board: its cells (abstract) and whether
      the game on it is over. */
  datatype GameBoard<G> = GameBoard(cells: G, finished: bool)

  /** `Board::new(lines_cleared_max)`, `Board::find_choices(piece_type)` and
      `BoardEval::eval`. */
  datatype Rules<!G> = Rules(
    newBoard: nat -> GameBoard<G>,
    findChoices: (GameBoard<G>, PieceType) -> seq<GameBoard<G>>,
    boardEval: GameBoard<G> -> real)

  /** `insert_piece_type(board, t, depth)`: no placement gives `None`;
      otherwise the first placement whose value one level down is largest,
      with that value. */
  function Insert<G>(rules: Rules<G>, board: GameBoard<G>, t: PieceType, depth: nat): (r: Option<(GameBoard<G>, real)>)
    requires depth > 0
    ensures r.None? <==> |rules.findChoices(board, t)| == 0
    ensures r.Some? ==> r.value.0 in rules.findChoices(board, t)
    decreases depth, 0
  {
    var choices := rules.findChoices(board, t);
    if |choices| == 0 then None
    else
      var k := BestIndex(rules, choices, depth - 1);
      Some((choices[k], Evals(rules, choices, depth - 1)[k]))
  }

  /** The first index of the largest value. */
  function BestIndex<G>(rules: Rules<G>, choices: seq<GameBoard<G>>, depth: nat): (k: nat)
    requires |choices| > 0
    ensures k < |choices|
    decreases depth, 5
  {
    FirstMaxIndex(Evals(rules, choices, depth))
  }

  /** `insert_piece_type` keeps the first placement of largest value: a
      later one replaces it only when strictly better. */
  lemma InsertChoosesFirstBest<G>(rules: Rules<G>, board: GameBoard<G>, t: PieceType, depth: nat)
    requires depth > 0
    ensures Insert(rules, board, t, depth).Some? ==>
      IsFirstBest(rules, rules.findChoices(board, t), depth - 1,
        BestIndex(rules, rules.findChoices(board, t), depth - 1), Insert(rules, board, t, depth).value)
  {
  }

  /** `best` is `choices[k]` with its value, no choice is worth more, and
      every earlier choice is worth strictly less. */
  ghost predicate IsFirstBest<G>(rules: Rules<G>, choices: seq<GameBoard<G>>, depth: nat, k: nat, best: (GameBoard<G>, real))
    requires k < |choices|
  {
    && best == (choices[k], Eval(rules, choices[k], depth))
    && (forall j :: 0 <= j < |choices| ==> Eval(rules, choices[j], depth) <= best.1)
    && (forall j :: 0 <= j < k ==> Eval(rules, choices[j], depth) < best.1)
  }

  /** The value of each placement at `depth`. */
  function Evals<G>(rules: Rules<G>, choices: seq<GameBoard<G>>, depth: nat): (r: seq<real>)
    ensures |r| == |choices|
    ensures forall i :: 0 <= i < |choices| ==> r[i] == Eval(rules, choices[i], depth)
    decreases depth, 4
  {
    seq(|choices|, i requires 0 <= i < |choices| => Eval(rules, choices[i], depth))
  }

  /** `eval(board, depth)`: the static evaluation at depth 0; above it, the
      best values of the seven piece types summed and divided by 7, a type
      without a placement adding 0. */
  function Eval<G>(rules: Rules<G>, board: GameBoard<G>, depth: nat): real
    decreases depth, 3
  {
    if depth == 0 then rules.boardEval(board)
    else Stats.Total(Contributions(rules, board, depth)) / 7.0
  }

  /** What each piece type of `PieceType::list()` adds to the sum. */
  function Contributions<G>(rules: Rules<G>, board: GameBoard<G>, depth: nat): (r: seq<real>)
    requires depth > 0
    ensures |r| == 7
    ensures forall i :: 0 <= i < 7 ==> r[i] == Contribution(rules, board, List()[i], depth)
    decreases depth, 2
  {
    seq(7, i requires 0 <= i < 7 => Contribution(rules, board, List()[i], depth))
  }

  function Contribution<G>(rules: Rules<G>, board: GameBoard<G>, t: PieceType, depth: nat): real
    requires depth > 0
    decreases depth, 1
  {
    match Insert(rules, board, t, depth)
    case Some(best) => best.1
    case None => 0.0
  }

  /** The board after a step that places `t`: the best placement, or the
      same cells marked finished when there is none. */
  function NextBoard<G>(rules: Rules<G>, board: GameBoard<G>, t: PieceType, depth: nat): (r: GameBoard<G>)
    requires depth > 0
    ensures |rules.findChoices(board, t)| == 0 ==> r == board.(finished := true)
    ensures |rules.findChoices(board, t)| > 0 ==> r in rules.findChoices(board, t)
    ensures |rules.findChoices(board, t)| > 0 ==>
      forall c :: c in rules.findChoices(board, t) ==> Eval(rules, c, depth - 1) <= Eval(rules, r, depth - 1)
  {
    InsertChoosesFirstBest(rules, board, t, depth);
    match Insert(rules, board, t, depth)
    case Some(best) => best.0
    case None => board.(finished := true)
  }

  /** With static evaluations between 0 and `hi`, every value is too: each
      contribution is 0 or a value one level down, and seven of them are
      averaged. */
  lemma {:induction false} EvalBounded<G>(rules: Rules<G>, hi: real, board: GameBoard<G>, depth: nat)
    requires 0.0 <= hi && forall b :: 0.0 <= rules.boardEval(b) <= hi
    ensures 0.0 <= Eval(rules, board, depth) <= hi
    decreases depth
  {
    if depth > 0 {
      var cs := Contributions(rules, board, depth);
      forall i | 0 <= i < 7
        ensures 0.0 <= cs[i] <= hi
      {
        var choices := rules.findChoices(board, List()[i]);
        var best := Insert(rules, board, List()[i], depth);
        InsertChoosesFirstBest(rules, board, List()[i], depth);
        if best.Some? {
          EvalBounded(rules, hi, choices[BestIndex(rules, choices, depth - 1)], depth - 1);
        }
      }
      TotalBounded(cs, hi);
    }
  }

  /** A total of values in `[0, hi]` lies in `[0, |s| * hi]`. */
  lemma {:induction false} TotalBounded(s: seq<real>, hi: real)
    requires forall i :: 0 <= i < |s| ==> 0.0 <= s[i] <= hi
    ensures 0.0 <= Stats.Total(s) <= |s| as real * hi
  {
    if |s| > 0 {
      TotalBounded(s[..|s| - 1], hi);
    }
  }

  /** When no piece type has a placement, a board searched deeper than the
      static evaluation is worth 0. */
  lemma NoPlacementWorthZero<G>(rules: Rules<G>, board: GameBoard<G>, depth: nat)
    requires depth > 0
    requires forall i :: 0 <= i < 7 ==> |rules.findChoices(board, List()[i])| == 0
    ensures Eval(rules, board, depth) == 0.0
  {
    var cs := Contributions(rules, board, depth);
    assert forall i :: 0 <= i < 7 ==> cs[i] == 0.0;
    Stats.TotalOfConstant(cs, 0.0);
  }

  /** The loop of `insert_piece_type` over the first `n` placements with
      values `evals`: the best so far and its value, replaced only by a
      strictly larger value. */
  function ScanBest<B>(choices: seq<B>, evals: seq<real>, n: nat): (r: (Option<B>, real))
    requires n <= |choices| == |evals|
  {
    if n == 0 then (None, 0.0)
    else
      var prev := ScanBest(choices, evals, n - 1);
      if prev.0.None? || evals[n - 1] > prev.1 then (Some(choices[n - 1]), evals[n - 1]) else prev
  }

  /** The scan ends on the first index of the largest value. */
  lemma {:induction false} ScanBestIsFirstMax<B>(choices: seq<B>, evals: seq<real>, n: nat)
    requires n <= |choices| == |evals|
    ensures n == 0 ==> ScanBest(choices, evals, n).0.None?
    ensures n > 0 ==> (ScanBest(choices, evals, n) ==
      (Some(choices[FirstMaxIndex(evals[..n])]), evals[FirstMaxIndex(evals[..n])]))
  {
    if n > 1 {
      ScanBestIsFirstMax(choices, evals, n - 1);
      assert evals[..n][..n - 1] == evals[..n - 1];
    }
  }

  /** `Insert` is what the loop of `insert_piece_type` computes. */
  lemma InsertIsScan<G>(rules: Rules<G>, board: GameBoard<G>, t: PieceType, depth: nat)
    requires depth > 0
    ensures var choices := rules.findChoices(board, t);
      var scan := ScanBest(choices, Evals(rules, choices, depth - 1), |choices|);
      Insert(rules, board, t, depth) == if scan.0.None? then None else Some((scan.0.value, scan.1))
  {
    var choices := rules.findChoices(board, t);
    var evals := Evals(rules, choices, depth - 1);
    ScanBestIsFirstMax(choices, evals, |choices|);
    assert evals[..|choices|] == evals;
  }

  class Game<G> {
    var board: GameBoard<G>
    var lastBoard: GameBoard<G>
    const rules: Rules<G>
    const generator: PieceTypeGenerator
    const searchDepth: nat

    /** `new`: two fresh boards and a fresh generator. The random number
        generator is not modelled; `step` receives its output instead. */
    constructor(linesClearedMax: nat, rules: Rules<G>, searchDepth: nat)
      ensures board == rules.newBoard(linesClearedMax) && lastBoard == board
      ensures this.rules == rules && this.searchDepth == searchDepth
      ensures fresh(generator) && generator.last == 0xff
    {
      board := rules.newBoard(linesClearedMax);
      lastBoard := rules.newBoard(linesClearedMax);
      this.rules := rules;
      generator := new PieceTypeGenerator();
      this.searchDepth := searchDepth;
    }

    /** `step(rand)`: remember the board; unless the game is over, draw a
        piece type from `rand` and move to the best placement, or finish the
        game when there is none. The source panics on a running game with
        search depth 0. */
    method Step(rand: U32)
      requires board.finished || searchDepth > 0
      modifies this, generator
      ensures lastBoard == old(board)
      ensures old(board).finished ==> board == old(board) && generator.last == old(generator.last)
      ensures !old(board).finished ==>
        && generator.last == GenIndex(old(generator.last), rand)
        && board == NextBoard(rules, old(board), List()[generator.last], searchDepth)
    {
      lastBoard := board;
      if board.finished {
        return;
      }
      var pieceType := generator.Gen(rand);
      var next := InsertPieceType(board, pieceType, searchDepth);
      match next {
        case None =>
          board := board.(finished := true);
        case Some(best) =>
          board := best.0;
      }
    }

    /** `insert_piece_type(board, t, depth)`: one pass over the placements
        keeping the first best. */
    method InsertPieceType(board: GameBoard<G>, t: PieceType, depth: nat) returns (r: Option<(GameBoard<G>, real)>)
      requires depth > 0
      ensures r == Insert(rules, board, t, depth)
      decreases depth, 0
    {
      var choices := rules.findChoices(board, t);
      var bestChoice, bestEval := ScanChoices(choices, depth - 1);
      InsertIsScan(rules, board, t, depth);
      r := match bestChoice
        case None => None
        case Some(b) => Some((b, bestEval));
    }

    /** The loop of `insert_piece_type`: each placement valued `depth` levels
        down, a later one taken only when strictly better. */
    method ScanChoices(choices: seq<GameBoard<G>>, depth: nat) returns (bestChoice: Option<GameBoard<G>>, bestEval: real)
      ensures (bestChoice, bestEval) == ScanBest(choices, Evals(rules, choices, depth), |choices|)
      decreases depth, 4
    {
      ghost var evals := Evals(rules, choices, depth);
      bestChoice := None;
      bestEval := 0.0;
      var i := 0;
      while i < |choices|
        invariant 0 <= i <= |choices|
        invariant (bestChoice, bestEval) == ScanBest(choices, evals, i)
      {
        var eval := EvalBoard(choices[i], depth);
        if bestChoice.None? || eval > bestEval {
          bestEval := eval;
          bestChoice := Some(choices[i]);
        }
        i := i + 1;
      }
    }

    /** `eval(board, depth)`. */
    method EvalBoard(board: GameBoard<G>, depth: nat) returns (v: real)
      ensures v == Eval(rules, board, depth)
      decreases depth, 3
    {
      if depth == 0 {
        return rules.boardEval(board);
      }
      ghost var cs := Contributions(rules, board, depth);
      var list := List();
      var sum := 0.0;
      for i := 0 to 7
        invariant sum == Stats.Total(cs[..i])
      {
        var altBoard := InsertPieceType(board, list[i], depth);
        match altBoard {
          case Some(best) =>
            sum := sum + best.1;
          case None =>
        }
        assert cs[..i + 1][..i] == cs[..i];
      }
      assert cs[..7] == cs;
      v := sum / 7.0;
    }
  }
}
