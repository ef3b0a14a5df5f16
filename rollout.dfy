// Greedy play of the stacking game (src/generateGameBoards.ts,
// src/applyMove.ts) and the one-move-deeper evaluator
// (src/BoardEvaluator.ts). The board class itself is not part of this model:
// a board is seen through its grid (left open), its score and its `finished`
// flag, and `findChoices` and `maxHeight` are parameters. A board evaluator
// gives one value per board.
module Rollout {
  import opened Util
  import opened Pieces
  import opened Random
  import opened HyperParams
  import Stats

  /** A board as the rollouts see it. `clone()` copies all three parts. */
  datatype Board<G> = Board(grid: G, score: real, finished: bool)

  /** The board operations defined outside this model: the boards reachable
      by placing a piece of a type (`findChoices`) and the stack height
      (`maxHeight`). */
  datatype Env<!G> = Env(findChoices: (Board<G>, PieceType) -> seq<Board<G>>, maxHeight: Board<G> -> int)

  /** A `BoardEvaluator`: one value per board. */
  ghost predicate IsEvaluator<G(!new)>(eval: seq<Board<G>> -> seq<real>) {
    forall bs :: |eval(bs)| == |bs|
  }

  /** `c` is the first choice of highest evaluation. */
  ghost predicate IsBestChoice<G(!new)>(choices: seq<Board<G>>, evals: seq<real>, c: Board<G>) {
    exists k :: 0 <= k < |choices| && k < |evals| && choices[k] == c &&
      (forall j :: 0 <= j < |evals| ==> evals[j] <= evals[k]) &&
      (forall j :: 0 <= j < k ==> evals[j] < evals[k])
  }

  /** The board a greedy player moves to with a piece of type `t`: none when
      the piece cannot be placed. */
  function Greedy<G(!new)>(env: Env<G>, eval: seq<Board<G>> -> seq<real>, b: Board<G>, t: PieceType): (r: Option<Board<G>>)
    requires IsEvaluator(eval)
    ensures r.None? <==> |env.findChoices(b, t)| == 0
    ensures r.Some? ==> IsBestChoice(env.findChoices(b, t), eval(env.findChoices(b, t)), r.value)
  {
    var choices := env.findChoices(b, t);
    if |choices| == 0 then None
    else
      var k := FirstMaxIndex(eval(choices));
      Some(choices[k])
  }

  // ---------------------------------------------------------------------
  // applyMove / applyNMoves

  /** The boards `applyMove` leaves alone without drawing a piece. */
  predicate Stopped<G(!new)>(env: Env<G>, b: Board<G>) {
    b.finished || env.maxHeight(b) > ArtificialHeightLimit
  }

  /** `applyMove(board, evaluator)` with the piece drawn at `at`: a finished
      or too-tall board is returned as it is; a board where the piece fits
      nowhere comes back finished; otherwise the best choice. */
  function ApplyMove<G(!new)>(env: Env<G>, eval: seq<Board<G>> -> seq<real>, b: Board<G>, draws: Draws, at: nat): (r: (Board<G>, nat))
    requires IsEvaluator(eval)
    ensures Stopped(env, b) ==> r == (b, at)
    ensures !Stopped(env, b) ==> r.1 == at + 1
    ensures !Stopped(env, b) && |env.findChoices(b, draws.piece(at))| == 0 ==>
      r.0 == b.(finished := true)
    ensures !Stopped(env, b) && |env.findChoices(b, draws.piece(at))| > 0 ==>
      IsBestChoice(env.findChoices(b, draws.piece(at)), eval(env.findChoices(b, draws.piece(at))), r.0)
  {
    if Stopped(env, b) then (b, at)
    else
      match Greedy(env, eval, b, draws.piece(at))
      case None => (b.(finished := true), at + 1)
      case Some(c) => (c, at + 1)
  }

  /** Up to `n` moves, stopping right after a move that finishes the board. */
  function Moves<G(!new)>(env: Env<G>, eval: seq<Board<G>> -> seq<real>, b: Board<G>, draws: Draws, at: nat, n: int): (Board<G>, nat)
    requires IsEvaluator(eval)
    decreases n
  {
    if n <= 0 then (b, at)
    else
      var (b', at') := ApplyMove(env, eval, b, draws, at);
      if b'.finished then (b', at') else Moves(env, eval, b', draws, at', n - 1)
  }

  /** `applyNMoves(board, evaluator, n)`. */
  method ApplyNMoves<G(!new)>(env: Env<G>, eval: seq<Board<G>> -> seq<real>, board: Board<G>, draws: Draws, at: nat, n: int)
    returns (r: Board<G>, next: nat)
    requires IsEvaluator(eval)
    ensures (r, next) == Moves(env, eval, board, draws, at, n)
  {
    r, next := board, at;
    var i := 0;
    while i < n
      invariant n <= 0 || 0 <= i <= n
      invariant Moves(env, eval, r, draws, next, n - i) == Moves(env, eval, board, draws, at, n)
    {
      var moved := ApplyMove(env, eval, r, draws, next);
      r, next := moved.0, moved.1;
      if r.finished {
        return;
      }
      i := i + 1;
    }
  }

  /** No moves leave the board as it is. */
  lemma NoMoves<G(!new)>(env: Env<G>, eval: seq<Board<G>> -> seq<real>, b: Board<G>, draws: Draws, at: nat)
    requires IsEvaluator(eval)
    ensures Moves(env, eval, b, draws, at, 0) == (b, at)
  {
  }

  /** A finished or too-tall board is a fixed point of any number of moves. */
  lemma {:induction false} StoppedIsFixed<G(!new)>(env: Env<G>, eval: seq<Board<G>> -> seq<real>, b: Board<G>, draws: Draws, at: nat, n: int)
    requires IsEvaluator(eval) && Stopped(env, b)
    ensures Moves(env, eval, b, draws, at, n) == (b, at)
    decreases n
  {
    if n > 0 && !b.finished {
      StoppedIsFixed(env, eval, b, draws, at, n - 1);
    }
  }

  /** `n` moves take at most `n` pieces, and the result is either finished
      or the board after the last of them. */
  lemma {:induction false} MovesDrawAtMostN<G(!new)>(env: Env<G>, eval: seq<Board<G>> -> seq<real>, b: Board<G>, draws: Draws, at: nat, n: int)
    requires IsEvaluator(eval)
    ensures at <= Moves(env, eval, b, draws, at, n).1 <= at + (if n > 0 then n else 0)
    decreases n
  {
    if n > 0 {
      var (b', at') := ApplyMove(env, eval, b, draws, at);
      if !b'.finished {
        MovesDrawAtMostN(env, eval, b', draws, at', n - 1);
      }
    }
  }

  // ---------------------------------------------------------------------
  // generateGameBoards

  const MaxGameIterations: nat := 2500
  const TooLong: string := "This should not be possible"
  const NoPositions: string := "Should not be possible"

  /** What `generateGameBoards` returns. */
  datatype Game<G> = Game(positions: seq<Board<G>>, finalScore: real)

  /** `positions` and `finalScore` record a greedy game from `start` whose
      k-th piece is drawn at `at + k`: every position is unfinished, each
      later one is the greedy move from its predecessor, and after the last
      one either the piece fits nowhere (the game ends on that position) or
      the greedy move finishes the board. The final score adds one point per
      position to the last board's score. */
  ghost predicate IsGame<G(!new)>(env: Env<G>, eval: seq<Board<G>> -> seq<real>, start: Board<G>, draws: Draws, at: nat,
                            positions: seq<Board<G>>, finalScore: real)
    requires IsEvaluator(eval)
  {
    && |positions| > 0 && positions[0] == start
    && (forall k :: 0 <= k < |positions| ==> !positions[k].finished)
    && (forall k :: 0 <= k < |positions| - 1 ==>
          Greedy(env, eval, positions[k], draws.piece(at + k)) == Some(positions[k + 1]))
    && var last := positions[|positions| - 1];
       var step := Greedy(env, eval, last, draws.piece(at + |positions| - 1));
       && (step.None? ==> finalScore == last.score + |positions| as real)
       && (step.Some? ==> step.value.finished && finalScore == step.value.score + |positions| as real)
  }

  /** The invariant of the loop: the positions so far form a game prefix and
      `board` is the greedy move from the last of them. */
  ghost predicate IsPrefix<G(!new)>(env: Env<G>, eval: seq<Board<G>> -> seq<real>, start: Board<G>, draws: Draws, at: nat,
                              positions: seq<Board<G>>, board: Board<G>)
    requires IsEvaluator(eval)
  {
    && (|positions| == 0 ==> board == start)
    && (|positions| > 0 ==> positions[0] == start)
    && (forall k :: 0 <= k < |positions| ==> !positions[k].finished)
    && (forall k :: 0 <= k < |positions| - 1 ==>
          Greedy(env, eval, positions[k], draws.piece(at + k)) == Some(positions[k + 1]))
    && (|positions| > 0 ==>
          Greedy(env, eval, positions[|positions| - 1], draws.piece(at + |positions| - 1)) == Some(board))
  }

  lemma PrefixExtends<G(!new)>(env: Env<G>, eval: seq<Board<G>> -> seq<real>, start: Board<G>, draws: Draws, at: nat,
                         positions: seq<Board<G>>, board: Board<G>, c: Board<G>)
    requires IsEvaluator(eval) && IsPrefix(env, eval, start, draws, at, positions, board) && !board.finished
    requires Greedy(env, eval, board, draws.piece(at + |positions|)) == Some(c)
    ensures IsPrefix(env, eval, start, draws, at, positions + [board], c)
  {
  }

  /** A game ends on its last position when the piece drawn there fits
      nowhere. */
  lemma PrefixEndsStuck<G(!new)>(env: Env<G>, eval: seq<Board<G>> -> seq<real>, start: Board<G>, draws: Draws, at: nat,
                          positions: seq<Board<G>>, board: Board<G>)
    requires IsEvaluator(eval) && IsPrefix(env, eval, start, draws, at, positions, board) && !board.finished
    requires Greedy(env, eval, board, draws.piece(at + |positions|)) == None
    requires |positions| + 1 < MaxGameIterations
    ensures IsGame(env, eval, start, draws, at, positions + [board], board.score + (|positions| + 1) as real)
    ensures !RunsTooLong(env, eval, start, draws, at)
  {
    var p := positions + [board];
    assert p[|p| - 1] == board;
    assert forall k :: 0 <= k < |positions| ==> p[k] == positions[k];
    GameExcludesTooLong(env, eval, start, draws, at, p, board.score + (|positions| + 1) as real);
  }

  /** A game ends after a greedy move that finishes the board. */
  lemma PrefixEndsFinished<G(!new)>(env: Env<G>, eval: seq<Board<G>> -> seq<real>, start: Board<G>, draws: Draws, at: nat,
                             positions: seq<Board<G>>, board: Board<G>)
    requires IsEvaluator(eval) && IsPrefix(env, eval, start, draws, at, positions, board)
    requires board.finished && 0 < |positions| < MaxGameIterations
    ensures IsGame(env, eval, start, draws, at, positions, board.score + |positions| as real)
    ensures !RunsTooLong(env, eval, start, draws, at)
  {
    GameExcludesTooLong(env, eval, start, draws, at, positions, board.score + |positions| as real);
  }

  /** The greedy game from `start`, drawing from `at`, is still unfinished
      when its 2500th position is recorded: a prefix of 2499 positions whose
      greedy move is an unfinished board. */
  ghost predicate RunsTooLong<G(!new)>(env: Env<G>, eval: seq<Board<G>> -> seq<real>, start: Board<G>, draws: Draws, at: nat)
    requires IsEvaluator(eval)
  {
    exists p: seq<Board<G>>, b: Board<G> ::
      IsPrefix(env, eval, start, draws, at, p, b) && |p| == MaxGameIterations - 1 && !b.finished
  }

  /** The two reasons `generateGameBoards` throws `error`: a start board that
      is already finished (no positions), or a game that runs too long. */
  ghost predicate GameFails<G(!new)>(env: Env<G>, eval: seq<Board<G>> -> seq<real>, start: Board<G>, draws: Draws, at: nat, error: string)
    requires IsEvaluator(eval)
  {
    || (error == NoPositions && start.finished)
    || (error == TooLong && !start.finished && RunsTooLong(env, eval, start, draws, at))
  }

  /** A prefix of 2499 positions that the greedy move leaves unfinished is
      the game running too long. */
  lemma PrefixRunsTooLong<G(!new)>(env: Env<G>, eval: seq<Board<G>> -> seq<real>, start: Board<G>, draws: Draws, at: nat,
                            positions: seq<Board<G>>, board: Board<G>)
    requires IsEvaluator(eval) && IsPrefix(env, eval, start, draws, at, positions, board)
    requires |positions| == MaxGameIterations - 1 && !board.finished
    ensures GameFails(env, eval, start, draws, at, TooLong)
  {
  }

  /** `b` is one of the positions of some greedy game from `start`. */
  ghost predicate IsPosition<G(!new)>(env: Env<G>, eval: seq<Board<G>> -> seq<real>, start: Board<G>, draws: Draws, b: Board<G>)
    requires IsEvaluator(eval)
  {
    exists a: nat, p: seq<Board<G>>, s: real :: IsGame(env, eval, start, draws, a, p, s) && b in p
  }

  /** `b` is a placement, for some piece type, from one of `boards`. */
  ghost predicate IsPlacementFrom<G(!new)>(env: Env<G>, boards: seq<Board<G>>, b: Board<G>) {
    exists q, t: PieceType :: q in boards && b in env.findChoices(q, t)
  }

  /** `b` is a board the generators sample from games played from `start`:
      a position of such a game, or a placement from one. */
  ghost predicate IsSampled<G(!new)>(env: Env<G>, eval: seq<Board<G>> -> seq<real>, start: Board<G>, draws: Draws, b: Board<G>)
    requires IsEvaluator(eval)
  {
    || IsPosition(env, eval, start, draws, b)
    || exists a: nat, p: seq<Board<G>>, s: real :: IsGame(env, eval, start, draws, a, p, s) && IsPlacementFrom(env, p, b)
  }

  /** A failure of a generator that plays games from `start` and from the
      boards it samples: one of those games throws `error`. */
  ghost predicate SampledGameFails<G(!new)>(env: Env<G>, eval: seq<Board<G>> -> seq<real>, start: Board<G>, draws: Draws, error: string)
    requires IsEvaluator(eval)
  {
    exists b: Board<G>, a: nat ::
      (b == start || IsSampled(env, eval, start, draws, b)) && GameFails(env, eval, b, draws, a, error)
  }

  /** A position of a game from `start` is a sampled board. */
  lemma PositionOfGame<G(!new)>(env: Env<G>, eval: seq<Board<G>> -> seq<real>, start: Board<G>, draws: Draws,
                                a: nat, p: seq<Board<G>>, s: real, b: Board<G>)
    requires IsEvaluator(eval) && IsGame(env, eval, start, draws, a, p, s) && b in p
    ensures IsPosition(env, eval, start, draws, b) && IsSampled(env, eval, start, draws, b)
  {
  }

  /** A placement from a position of a game from `start` is a sampled board. */
  lemma PlacementOfGame<G(!new)>(env: Env<G>, eval: seq<Board<G>> -> seq<real>, start: Board<G>, draws: Draws,
                                 a: nat, p: seq<Board<G>>, s: real, q: Board<G>, t: PieceType, c: Board<G>)
    requires IsEvaluator(eval) && IsGame(env, eval, start, draws, a, p, s) && q in p && c in env.findChoices(q, t)
    ensures IsSampled(env, eval, start, draws, c)
  {
    assert IsPlacementFrom(env, p, c);
  }

  /** A game thrown from `start` or from a sampled board is a failure of a
      generator sampling from `start`. */
  lemma SampledFailure<G(!new)>(env: Env<G>, eval: seq<Board<G>> -> seq<real>, start: Board<G>, draws: Draws, b: Board<G>, error: string)
    requires IsEvaluator(eval) && (b == start || IsSampled(env, eval, start, draws, b))
    requires exists a: nat :: GameFails(env, eval, b, draws, a, error)
    ensures SampledGameFails(env, eval, start, draws, error)
  {
  }

  /** `generateGameBoards` from `start` (the fresh `new Board(130)` in the
      source file, the given board where callers pass one). */
  method GenerateGameBoards<G(!new)>(env: Env<G>, eval: seq<Board<G>> -> seq<real>, start: Board<G>, draws: Draws, at: nat)
    returns (r: Result<Game<G>, string>, next: nat)
    requires IsEvaluator(eval)
    ensures r.Success? ==> IsGame(env, eval, start, draws, at, r.value.positions, r.value.finalScore)
    ensures r.Success? ==> |r.value.positions| < MaxGameIterations && next == at + |r.value.positions|
    ensures r.Success? ==> !start.finished && !RunsTooLong(env, eval, start, draws, at)
    ensures r.Failure? ==> GameFails(env, eval, start, draws, at, r.error)
    ensures start.finished ==> r == Failure(NoPositions)
    ensures at <= next
  {
    var board := start;
    var positions: seq<Board<G>> := [];
    next := at;
    while !board.finished
      invariant IsPrefix(env, eval, start, draws, at, positions, board)
      invariant |positions| < MaxGameIterations && next == at + |positions|
      decreases MaxGameIterations - |positions|
    {
      var prev := positions;
      positions := prev + [board];
      if |positions| == MaxGameIterations {
        PrefixRunsTooLong(env, eval, start, draws, at, prev, board);
        return Failure(TooLong), next;
      }
      var pieceType := draws.piece(next);
      next := next + 1;
      var choices := env.findChoices(board, pieceType);
      if |choices| == 0 {
        PrefixEndsStuck(env, eval, start, draws, at, prev, board);
        var finalScore := board.score + |positions| as real;
        assert finalScore == board.score + (|prev| + 1) as real;
        return Success(Game(positions, finalScore)), next;
      }
      var evaluated := eval(choices);
      var best := choices[FirstMaxIndex(evaluated)];
      PrefixExtends(env, eval, start, draws, at, prev, board, best);
      board := best;
    }
    if |positions| == 0 {
      return Failure(NoPositions), next;
    }
    PrefixEndsFinished(env, eval, start, draws, at, positions, board);
    r := Success(Game(positions, board.score + |positions| as real));
  }

  /** The game from a start board is determined by the draws: two records of
      it are the same record. */
  lemma GameIsDeterministic<G(!new)>(env: Env<G>, eval: seq<Board<G>> -> seq<real>, start: Board<G>, draws: Draws, at: nat,
                                     p1: seq<Board<G>>, s1: real, p2: seq<Board<G>>, s2: real)
    requires IsEvaluator(eval)
    requires IsGame(env, eval, start, draws, at, p1, s1) && IsGame(env, eval, start, draws, at, p2, s2)
    ensures p1 == p2 && s1 == s2
  {
    var m := if |p1| < |p2| then |p1| else |p2|;
    SamePrefix(env, eval, start, draws, at, p1, s1, p2, s2, m);
    if |p1| < |p2| {
      GameContinues(env, eval, start, draws, at, p2, s2, |p1| - 1);
      assert false;
    }
    if |p2| < |p1| {
      GameContinues(env, eval, start, draws, at, p1, s1, |p2| - 1);
      assert false;
    }
    assert p1 == p2;
  }

  /** A game of fewer than 2500 positions does not run too long: the game
      and the long prefix would agree up to the game's last position, whose
      greedy move ends the game but continues the prefix. */
  lemma GameExcludesTooLong<G(!new)>(env: Env<G>, eval: seq<Board<G>> -> seq<real>, start: Board<G>, draws: Draws, at: nat,
                                     q: seq<Board<G>>, s: real)
    requires IsEvaluator(eval) && IsGame(env, eval, start, draws, at, q, s) && |q| < MaxGameIterations
    ensures !RunsTooLong(env, eval, start, draws, at)
  {
    if RunsTooLong(env, eval, start, draws, at) {
      var p, b :| IsPrefix(env, eval, start, draws, at, p, b) && |p| == MaxGameIterations - 1 && !b.finished;
      PrefixOutlastsGame(env, eval, start, draws, at, p, b, q, s);
      assert false;
    }
  }

  /** A prefix whose greedy move is unfinished is shorter than any game. */
  lemma PrefixOutlastsGame<G(!new)>(env: Env<G>, eval: seq<Board<G>> -> seq<real>, start: Board<G>, draws: Draws, at: nat,
                                    p: seq<Board<G>>, b: Board<G>, q: seq<Board<G>>, s: real)
    requires IsEvaluator(eval) && IsPrefix(env, eval, start, draws, at, p, b) && !b.finished
    requires IsGame(env, eval, start, draws, at, q, s)
    ensures |p| < |q|
  {
    if |p| > 0 {
      var m := if |q| <= |p| then |q| else |p|;
      PrefixAgreesWithGame(env, eval, start, draws, at, p, b, q, s, m);
      PrefixContinues(env, eval, start, draws, at, p, b, m - 1);
    }
  }

  /** Each position of a prefix is followed by an unfinished greedy move:
      the next position, or the board after the last one. */
  lemma PrefixContinues<G(!new)>(env: Env<G>, eval: seq<Board<G>> -> seq<real>, start: Board<G>, draws: Draws, at: nat,
                                 p: seq<Board<G>>, b: Board<G>, k: nat)
    requires IsEvaluator(eval) && IsPrefix(env, eval, start, draws, at, p, b) && !b.finished && k < |p|
    ensures Greedy(env, eval, p[k], draws.piece(at + k)) == Some(if k + 1 < |p| then p[k + 1] else b)
    ensures k + 1 < |p| ==> !p[k + 1].finished
  {
  }

  /** A prefix and a game agree position by position as far as both go. */
  lemma {:induction false} PrefixAgreesWithGame<G(!new)>(env: Env<G>, eval: seq<Board<G>> -> seq<real>, start: Board<G>, draws: Draws, at: nat,
                                                     p: seq<Board<G>>, b: Board<G>, q: seq<Board<G>>, s: real, m: nat)
    requires IsEvaluator(eval) && IsPrefix(env, eval, start, draws, at, p, b)
    requires IsGame(env, eval, start, draws, at, q, s)
    requires m <= |p| && m <= |q|
    ensures forall k :: 0 <= k < m ==> p[k] == q[k]
  {
    if m > 1 {
      PrefixAgreesWithGame(env, eval, start, draws, at, p, b, q, s, m - 1);
      assert p[m - 2] == q[m - 2];
      assert Greedy(env, eval, p[m - 2], draws.piece(at + m - 2)) == Some(p[m - 1]);
      assert Greedy(env, eval, q[m - 2], draws.piece(at + m - 2)) == Some(q[m - 1]);
    }
  }

  /** Every position but the last is followed by its greedy move, which is
      unfinished. */
  lemma GameContinues<G(!new)>(env: Env<G>, eval: seq<Board<G>> -> seq<real>, start: Board<G>, draws: Draws, at: nat,
                               p: seq<Board<G>>, s: real, n: nat)
    requires IsEvaluator(eval) && IsGame(env, eval, start, draws, at, p, s) && n + 1 < |p|
    ensures Greedy(env, eval, p[n], draws.piece(at + n)) == Some(p[n + 1]) && !p[n + 1].finished
  {
  }

  /** Two records of the game agree position by position as far as both go. */
  lemma {:induction false} SamePrefix<G(!new)>(env: Env<G>, eval: seq<Board<G>> -> seq<real>, start: Board<G>, draws: Draws, at: nat,
                                         p1: seq<Board<G>>, s1: real, p2: seq<Board<G>>, s2: real, m: nat)
    requires IsEvaluator(eval)
    requires IsGame(env, eval, start, draws, at, p1, s1) && IsGame(env, eval, start, draws, at, p2, s2)
    requires m <= |p1| && m <= |p2|
    ensures forall k :: 0 <= k < m ==> p1[k] == p2[k]
  {
    if m > 1 {
      SamePrefix(env, eval, start, draws, at, p1, s1, p2, s2, m - 1);
      assert p1[m - 2] == p2[m - 2];
      assert Greedy(env, eval, p1[m - 2], draws.piece(at + m - 2)) == Some(p1[m - 1]);
      assert Greedy(env, eval, p2[m - 2], draws.piece(at + m - 2)) == Some(p2[m - 1]);
    }
  }

  // ---------------------------------------------------------------------
  // deeperBoardEvaluator

  /** `Math.max` of the evaluations of a board's choices for piece type `t`:
      -Infinity when there are none. */
  function BestOf<G(!new)>(env: Env<G>, eval: seq<Board<G>> -> seq<real>, b: Board<G>, t: PieceType): ExtReal {
    MaxExt(eval(env.findChoices(b, t)))
  }

  /** The running `sum` over the first piece types of `types`. */
  function SumOfBest<G(!new)>(env: Env<G>, eval: seq<Board<G>> -> seq<real>, b: Board<G>, types: seq<PieceType>): ExtReal {
    if |types| == 0 then Fin(0.0)
    else SumOfBest(env, eval, b, types[..|types| - 1]).Plus(BestOf(env, eval, b, types[|types| - 1]))
  }

  /** The deeper evaluator's value for one board. */
  function DeeperValue<G(!new)>(env: Env<G>, eval: seq<Board<G>> -> seq<real>, b: Board<G>): ExtReal {
    SumOfBest(env, eval, b, List()).DivBy(7.0)
  }

  /** `deeperBoardEvaluator(boardEvaluator)` applied to `boards`. */
  method DeeperEvaluate<G(!new)>(env: Env<G>, eval: seq<Board<G>> -> seq<real>, boards: seq<Board<G>>) returns (evals: seq<ExtReal>)
    ensures |evals| == |boards|
    ensures forall k :: 0 <= k < |boards| ==> evals[k] == DeeperValue(env, eval, boards[k])
  {
    evals := [];
    var i := 0;
    while i < |boards|
      invariant 0 <= i <= |boards| && |evals| == i
      invariant forall k :: 0 <= k < i ==> evals[k] == DeeperValue(env, eval, boards[k])
    {
      var sum := Fin(0.0);
      var types := List();
      var j := 0;
      while j < |types|
        invariant 0 <= j <= |types|
        invariant sum == SumOfBest(env, eval, boards[i], types[..j])
      {
        assert types[..j + 1][..j] == types[..j];
        var choices := env.findChoices(boards[i], types[j]);
        var highestEval := MaxExt(eval(choices));
        sum := sum.Plus(highestEval);
        j := j + 1;
      }
      assert types[..j] == types;
      evals := evals + [sum.DivBy(7.0)];
      i := i + 1;
    }
  }

  /** The running sum is -Infinity exactly when some type so far has no
      choice; otherwise it is the total of the finite maxima. */
  lemma {:induction false} SumOfBestCases<G(!new)>(env: Env<G>, eval: seq<Board<G>> -> seq<real>, b: Board<G>, types: seq<PieceType>)
    requires IsEvaluator(eval)
    ensures SumOfBest(env, eval, b, types).NegInf? <==>
      exists k :: 0 <= k < |types| && |env.findChoices(b, types[k])| == 0
    ensures SumOfBest(env, eval, b, types).Fin? ==>
      SumOfBest(env, eval, b, types).r == Stats.Total(seq(|types|, k requires 0 <= k < |types| => BestOf(env, eval, b, types[k]).Value()))
  {
    if |types| > 0 {
      var n := |types| - 1;
      SumOfBestCases(env, eval, b, types[..n]);
      var all := seq(|types|, k requires 0 <= k < |types| => BestOf(env, eval, b, types[k]).Value());
      var init := seq(n, k requires 0 <= k < n => BestOf(env, eval, b, types[..n][k]).Value());
      assert all[..n] == init;
      if exists k :: 0 <= k < n && |env.findChoices(b, types[..n][k])| == 0 {
        var k :| 0 <= k < n && |env.findChoices(b, types[..n][k])| == 0;
        assert types[..n][k] == types[k];
      }
      if exists k :: 0 <= k < |types| && |env.findChoices(b, types[k])| == 0 {
        var k :| 0 <= k < |types| && |env.findChoices(b, types[k])| == 0;
        if k < n {
          assert types[..n][k] == types[k];
        }
      }
    }
  }

  /** The deeper value is -Infinity exactly when some piece type has no
      placement; otherwise it is the mean of the seven best evaluations. */
  lemma DeeperValueCases<G(!new)>(env: Env<G>, eval: seq<Board<G>> -> seq<real>, b: Board<G>)
    requires IsEvaluator(eval)
    ensures DeeperValue(env, eval, b).NegInf? <==> exists t :: |env.findChoices(b, t)| == 0
    ensures DeeperValue(env, eval, b).Fin? ==>
      DeeperValue(env, eval, b).r == Stats.Total(seq(7, k requires 0 <= k < 7 => BestOf(env, eval, b, List()[k]).Value())) / 7.0
  {
    SumOfBestCases(env, eval, b, List());
    if exists t :: |env.findChoices(b, t)| == 0 {
      var t :| |env.findChoices(b, t)| == 0;
      assert List()[IndexOf(t)] == t;
    }
  }
}
