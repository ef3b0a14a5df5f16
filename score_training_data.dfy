// src/generateScoreTrainingData.ts: data points for the score model. Each
// greedy game contributes deep samples (a position, a random move from it and
// the mean final score of games played on from the move) and lookahead
// samples (a position and the mean of its best evaluations one move ahead).
module ScoreTrainingData {
  import opened Util
  import opened Pieces
  import opened Random
  import opened HyperParams
  import opened Rollout
  import opened TrainingData
  import Stats

  /** `ScoreModelDataPoint`; a lookahead sample has no previous board and
      no score samples. */
  datatype ScorePoint<G> = ScorePoint(prevBoard: Option<Board<G>>, board: Board<G>, finalScore: real,
                                      finalScoreSamples: Option<seq<real>>)

  /** The largest of 0 and the `n` uniform draws from `at`, folded left to
      right as `randMaxN` keeps it. */
  function MaxOfDraws(n: nat, draws: Draws, at: nat): (m: real)
    requires draws.Valid()
    ensures 0.0 <= m < 1.0
  {
    if n == 0 then 0.0
    else
      var m0 := MaxOfDraws(n - 1, draws, at);
      var r := draws.uniform(at + n - 1);
      if r > m0 then r else m0
  }

  /** `randMaxN(n)`: the largest of 0 and `n` draws. */
  method RandMaxN(n: int, draws: Draws, at: nat) returns (m: real, next: nat)
    requires draws.Valid()
    ensures m == MaxOfDraws(if n > 0 then n else 0, draws, at)
    ensures 0.0 <= m < 1.0
    ensures forall j :: at <= j < at + n ==> draws.uniform(j) <= m
    ensures m == 0.0 || exists j :: at <= j < at + n && m == draws.uniform(j)
    ensures next == at + (if n > 0 then n else 0)
  {
    m := 0.0;
    var i := 0;
    while i < n
      invariant 0 <= i <= (if n > 0 then n else 0)
      invariant 0.0 <= m < 1.0
      invariant forall j :: at <= j < at + i ==> draws.uniform(j) <= m
      invariant m == 0.0 || exists j :: at <= j < at + i && m == draws.uniform(j)
      invariant m == MaxOfDraws(i, draws, at)
    {
      var r := draws.uniform(at + i);
      if r > m {
        m := r;
      }
      i := i + 1;
    }
    next := at + i;
  }

  /** `randMinN(n)`: the smallest of 1 and `n` draws. */
  method RandMinN(n: int, draws: Draws, at: nat) returns (m: real, next: nat)
    requires draws.Valid()
    ensures 0.0 <= m <= 1.0
    ensures forall j :: at <= j < at + n ==> m <= draws.uniform(j)
    ensures m == 1.0 || exists j :: at <= j < at + n && m == draws.uniform(j)
    ensures next == at + (if n > 0 then n else 0)
  {
    m := 1.0;
    var i := 0;
    while i < n
      invariant 0 <= i <= (if n > 0 then n else 0)
      invariant 0.0 <= m <= 1.0
      invariant forall j :: at <= j < at + i ==> m <= draws.uniform(j)
      invariant m == 1.0 || exists j :: at <= j < at + i && m == draws.uniform(j)
    {
      var r := draws.uniform(at + i);
      if r < m {
        m := r;
      }
      i := i + 1;
    }
    next := at + i;
  }

  /** `scores` are the final scores of greedy games from `start` played one
      after another from cursor `at`, each starting where the one before
      stopped drawing, and `next` is where the last one stopped. */
  ghost predicate Playouts<G(!new)>(env: Env<G>, eval: seq<Board<G>> -> seq<real>, start: Board<G>, draws: Draws, at: nat,
                                    scores: seq<real>, next: nat)
    requires IsEvaluator(eval)
    decreases |scores|
  {
    if |scores| == 0 then next == at
    else
      exists mid: nat, p: seq<Board<G>> {:trigger IsGame(env, eval, start, draws, mid, p, scores[|scores| - 1])} ::
        && Playouts(env, eval, start, draws, at, scores[..|scores| - 1], mid)
        && IsGame(env, eval, start, draws, mid, p, scores[|scores| - 1])
        && next == mid + |p|
  }

  /** One more game extends the playouts. */
  lemma PlayoutsSnoc<G(!new)>(env: Env<G>, eval: seq<Board<G>> -> seq<real>, start: Board<G>, draws: Draws, at: nat,
                              scores: seq<real>, mid: nat, p: seq<Board<G>>, x: real)
    requires IsEvaluator(eval)
    requires Playouts(env, eval, start, draws, at, scores, mid) && IsGame(env, eval, start, draws, mid, p, x)
    ensures Playouts(env, eval, start, draws, at, scores + [x], mid + |p|)
  {
    var s := scores + [x];
    assert s[..|s| - 1] == scores && s[|s| - 1] == x;
    assert IsGame(env, eval, start, draws, mid, p, s[|s| - 1]);
  }

  /** `augment`: `nPlayoutsToAvg` final scores of games played on from
      `board`, and their mean. */
  method Augment<G(!new)>(env: Env<G>, eval: seq<Board<G>> -> seq<real>, prevBoard: Board<G>, board: Board<G>, draws: Draws, at: nat)
    returns (r: Result<ScorePoint<G>, string>, next: nat)
    requires IsEvaluator(eval)
    ensures r.Success? ==> r.value.prevBoard == Some(prevBoard) && r.value.board == board
    ensures r.Success? ==> r.value.finalScoreSamples.Some? && |r.value.finalScoreSamples.value| == NPlayoutsToAvg
    ensures r.Success? ==> r.value.finalScore == Stats.Mean(r.value.finalScoreSamples.value)
    ensures r.Success? ==> ArePlayoutScores(env, eval, board, draws, r.value.finalScoreSamples.value)
    ensures r.Success? ==> Playouts(env, eval, board, draws, at, r.value.finalScoreSamples.value, next)
    ensures r.Failure? ==> exists a: nat :: GameFails(env, eval, board, draws, a, r.error)
    ensures at <= next
  {
    var scores: seq<real> := [];
    next := at;
    while |scores| < NPlayoutsToAvg
      invariant |scores| <= NPlayoutsToAvg
      invariant ArePlayoutScores(env, eval, board, draws, scores)
      invariant Playouts(env, eval, board, draws, at, scores, next)
      invariant at <= next
    {
      var game, n := GenerateGameBoards(env, eval, board, draws, next);
      if game.Failure? {
        return Failure(game.error), n;
      }
      PlayoutScoresSnoc(env, eval, board, draws, scores, game.value.finalScore);
      PlayoutsSnoc(env, eval, board, draws, at, scores, next, game.value.positions, game.value.finalScore);
      scores := scores + [game.value.finalScore];
      next := n;
    }
    r := Success(ScorePoint(Some(prevBoard), board, Stats.Mean(scores), Some(scores)));
  }

  /** The score `augmentLookahead` takes for one piece type: the board's own
      score when the piece fits nowhere, else the best evaluation. */
  function TypeScore<G(!new)>(env: Env<G>, eval: seq<Board<G>> -> seq<real>, b: Board<G>, t: PieceType): real
    requires IsEvaluator(eval)
  {
    var choices := env.findChoices(b, t);
    if |choices| == 0 then b.score else Max(eval(choices))
  }

  /** The seven scores, one per piece type in `ALL_PIECE_TYPES` order. */
  function LookaheadScores<G(!new)>(env: Env<G>, eval: seq<Board<G>> -> seq<real>, b: Board<G>): (s: seq<real>)
    requires IsEvaluator(eval)
    ensures |s| == 7
  {
    seq(7, k requires 0 <= k < 7 => TypeScore(env, eval, b, List()[k]))
  }

  /** `augmentLookahead(board)`: the mean of the seven type scores. */
  method AugmentLookahead<G(!new)>(env: Env<G>, eval: seq<Board<G>> -> seq<real>, board: Board<G>) returns (r: ScorePoint<G>)
    requires IsEvaluator(eval)
    ensures r == ScorePoint(None, board, Stats.Mean(LookaheadScores(env, eval, board)), None)
  {
    var scores: seq<real> := [];
    var types := List();
    var i := 0;
    while i < |types|
      invariant 0 <= i <= |types|
      invariant scores == LookaheadScores(env, eval, board)[..i]
    {
      assert LookaheadScores(env, eval, board)[..i + 1] == scores + [TypeScore(env, eval, board, types[i])];
      var choices := env.findChoices(board, types[i]);
      if |choices| == 0 {
        scores := scores + [board.score];
      } else {
        var choiceEvals := eval(choices);
        scores := scores + [Max(choiceEvals)];
      }
      i := i + 1;
    }
    assert scores == LookaheadScores(env, eval, board);
    r := ScorePoint(None, board, Stats.Mean(scores), None);
  }

  /** Where every piece type fits, the lookahead score is the deeper
      evaluator's value. */
  lemma LookaheadIsDeeperValue<G(!new)>(env: Env<G>, eval: seq<Board<G>> -> seq<real>, b: Board<G>)
    requires IsEvaluator(eval)
    requires forall t :: |env.findChoices(b, t)| > 0
    ensures DeeperValue(env, eval, b) == Fin(Stats.Mean(LookaheadScores(env, eval, b)))
  {
    DeeperValueCases(env, eval, b);
    var bests := seq(7, k requires 0 <= k < 7 => BestOf(env, eval, b, List()[k]).Value());
    forall k | 0 <= k < 7
      ensures bests[k] == LookaheadScores(env, eval, b)[k]
    {
      var s := eval(env.findChoices(b, List()[k]));
      assert MaxExt(s).r == Max(s);
    }
    assert bests == LookaheadScores(env, eval, b);
  }

  // ---------------------------------------------------------------------
  // generateScoreTrainingData

  /** How a run with a bounded number of attempts ends: with a value, with
      an exception, or with the bound reached. */
  datatype Run<T> = Done(value: T) | Threw(error: string) | Unfinished

  /** A deep sample: a rollout position, a choice from it for some piece
      type, and the mean of `nPlayoutsToAvg` final scores of greedy games
      played on from that choice. */
  ghost predicate IsDeepSample<G(!new)>(env: Env<G>, eval: seq<Board<G>> -> seq<real>, draws: Draws,
                                        positions: seq<Board<G>>, p: ScorePoint<G>)
    requires IsEvaluator(eval)
  {
    && p.prevBoard.Some? && p.prevBoard.value in positions
    && (exists t :: p.board in env.findChoices(p.prevBoard.value, t))
    && p.finalScoreSamples.Some? && |p.finalScoreSamples.value| == NPlayoutsToAvg
    && ArePlayoutScores(env, eval, p.board, draws, p.finalScoreSamples.value)
    && p.finalScore == Stats.Mean(p.finalScoreSamples.value)
  }

  /** A lookahead sample: a rollout position with no previous board and no
      score samples, scored by the mean of its seven type scores. */
  ghost predicate IsLookaheadSample<G(!new)>(env: Env<G>, eval: seq<Board<G>> -> seq<real>, positions: seq<Board<G>>, p: ScorePoint<G>)
    requires IsEvaluator(eval)
  {
    p.board in positions && p == ScorePoint(None, p.board, Stats.Mean(LookaheadScores(env, eval, p.board)), None)
  }

  /** What every point of `generateScoreTrainingData` from `start` is: a
      deep or a lookahead sample taken from the positions of one greedy game
      from `start`. */
  ghost predicate IsScorePoint<G(!new)>(env: Env<G>, eval: seq<Board<G>> -> seq<real>, start: Board<G>, draws: Draws, p: ScorePoint<G>)
    requires IsEvaluator(eval)
  {
    exists a: nat, positions: seq<Board<G>>, s: real ::
      && IsGame(env, eval, start, draws, a, positions, s)
      && (IsDeepSample(env, eval, draws, positions, p) || IsLookaheadSample(env, eval, positions, p))
  }

  /** One pass of the deep-sample loop from cursor `at`: three draws for
      `randMaxN(3)` pick a position, the next draw its piece type; where the
      piece fits, one more draw picks the placement and `augment` plays its
      games on from there. `added` is the sample the pass adds, if any. */
  ghost predicate DeepStep<G(!new)>(env: Env<G>, eval: seq<Board<G>> -> seq<real>, positions: seq<Board<G>>, draws: Draws,
                                    at: nat, added: seq<ScorePoint<G>>, next: nat)
    requires IsEvaluator(eval) && draws.Valid() && |positions| > 0
  {
    var c := at + 3;
    var prev := positions[Pick(MaxOfDraws(3, draws, at), |positions|)];
    var choices := env.findChoices(prev, draws.piece(c));
    if |choices| == 0 then added == [] && next == c + 1
    else
      var board := choices[Pick(draws.uniform(c + 1), |choices|)];
      exists scores: seq<real> ::
        && |scores| == NPlayoutsToAvg
        && Playouts(env, eval, board, draws, c + 2, scores, next)
        && added == [ScorePoint(Some(prev), board, Stats.Mean(scores), Some(scores))]
  }

  /** The lists of `xs` joined in order. */
  function Concat<T>(xs: seq<seq<T>>): (r: seq<T>)
    decreases |xs|
  {
    if |xs| == 0 then [] else Concat(xs[..|xs| - 1]) + xs[|xs| - 1]
  }

  lemma ConcatSnoc<T>(xs: seq<seq<T>>, x: seq<T>)
    ensures Concat(xs + [x]) == Concat(xs) + x
  {
    assert (xs + [x])[..|xs|] == xs;
  }

  /** A trace of passes of the deep-sample loop: pass `j` starts at
      `cursors[j]`, is taken while fewer than `count` samples are held, adds
      `adds[j]` and stops at `cursors[j + 1]`. */
  ghost predicate DeepTrace<G(!new)>(env: Env<G>, eval: seq<Board<G>> -> seq<real>, positions: seq<Board<G>>, count: int,
                                     draws: Draws, cursors: seq<nat>, adds: seq<seq<ScorePoint<G>>>)
    requires IsEvaluator(eval) && draws.Valid() && |positions| > 0
  {
    && |cursors| == |adds| + 1
    && forall j {:trigger DeepStep(env, eval, positions, draws, cursors[j], adds[j], cursors[j + 1])} :: 0 <= j < |adds| ==>
         && |Concat(adds[..j])| < count
         && DeepStep(env, eval, positions, draws, cursors[j], adds[j], cursors[j + 1])
  }

  /** `k` passes of the deep-sample loop from cursor `at`, each taken while
      fewer than `count` samples are held, end with `samples` at `next`. */
  ghost predicate DeepRun<G(!new)>(env: Env<G>, eval: seq<Board<G>> -> seq<real>, positions: seq<Board<G>>, count: int,
                                   draws: Draws, at: nat, k: nat, samples: seq<ScorePoint<G>>, next: nat)
    requires IsEvaluator(eval) && draws.Valid() && |positions| > 0
  {
    exists cursors: seq<nat>, adds: seq<seq<ScorePoint<G>>> ::
      && |adds| == k && |cursors| == k + 1
      && DeepTrace(env, eval, positions, count, draws, cursors, adds)
      && cursors[0] == at && cursors[k] == next && Concat(adds) == samples
  }

  /** One more pass extends the trace. */
  lemma DeepTraceStep<G(!new)>(env: Env<G>, eval: seq<Board<G>> -> seq<real>, positions: seq<Board<G>>, count: int,
                               draws: Draws, cursors: seq<nat>, adds: seq<seq<ScorePoint<G>>>,
                               added: seq<ScorePoint<G>>, next: nat)
    requires IsEvaluator(eval) && draws.Valid() && |positions| > 0
    requires DeepTrace(env, eval, positions, count, draws, cursors, adds) && |Concat(adds)| < count
    requires DeepStep(env, eval, positions, draws, cursors[|adds|], added, next)
    ensures DeepTrace(env, eval, positions, count, draws, cursors + [next], adds + [added])
    ensures Concat(adds + [added]) == Concat(adds) + added
  {
    ConcatSnoc(adds, added);
    var c, a := cursors + [next], adds + [added];
    forall j | 0 <= j < |a|
      ensures |Concat(a[..j])| < count && DeepStep(env, eval, positions, draws, c[j], a[j], c[j + 1])
    {
      if j < |adds| {
        assert a[..j] == adds[..j] && a[j] == adds[j] && c[j] == cursors[j] && c[j + 1] == cursors[j + 1];
        // names the step, so that the trace's quantifier applies to it
        ghost var step := DeepStep(env, eval, positions, draws, cursors[j], adds[j], cursors[j + 1]);
      } else {
        assert a[..j] == adds;
      }
    }
  }

  /** One pass of the deep-sample loop (one value of `i`): the sample it
      adds, or none when the drawn piece fits nowhere on the drawn position
      (the `i--`). */
  method DeepPass<G(!new)>(env: Env<G>, eval: seq<Board<G>> -> seq<real>, positions: seq<Board<G>>, draws: Draws, at: nat)
    returns (r: Result<seq<ScorePoint<G>>, string>, next: nat)
    requires IsEvaluator(eval) && draws.Valid() && |positions| > 0
    ensures r.Success? ==> |r.value| <= 1 && DeepStep(env, eval, positions, draws, at, r.value, next)
    ensures r.Success? ==> forall k :: 0 <= k < |r.value| ==> IsDeepSample(env, eval, draws, positions, r.value[k])
    ensures r.Success? && |r.value| == 0 ==> exists k, t :: 0 <= k < |positions| && |env.findChoices(positions[k], t)| == 0
    ensures r.Failure? ==> exists b, a: nat :: IsPlacementFrom(env, positions, b) && GameFails(env, eval, b, draws, a, r.error)
    ensures at <= next
  {
    var m;
    m, next := RandMaxN(3, draws, at);
    var i := Pick(m, |positions|);
    var prevBoard := positions[i];
    var t := draws.piece(next);
    next := next + 1;
    var choices := env.findChoices(prevBoard, t);
    if |choices| == 0 {
      return Success([]), next;
    }
    var board := choices[Pick(draws.uniform(next), |choices|)];
    next := next + 1;
    assert IsPlacementFrom(env, positions, board) by {
      assert prevBoard in positions && board in env.findChoices(prevBoard, t);
    }
    var p;
    p, next := Augment(env, eval, prevBoard, board, draws, next);
    if p.Failure? {
      return Failure(p.error), next;
    }
    r := Success([p.value]);
    assert p.value == ScorePoint(Some(prevBoard), board, Stats.Mean(p.value.finalScoreSamples.value), p.value.finalScoreSamples);
  }

  /** The deep-sample loop: `count` samples, a draw whose piece fits nowhere
      being retried (the `i--`). At most `tries` positions are drawn. */
  method DeepSamples<G(!new)>(env: Env<G>, eval: seq<Board<G>> -> seq<real>, positions: seq<Board<G>>, count: int, tries: nat,
                              draws: Draws, at: nat)
    returns (r: Run<seq<ScorePoint<G>>>, next: nat)
    requires IsEvaluator(eval) && draws.Valid() && |positions| > 0
    ensures r.Done? ==> |r.value| == (if count > 0 then count else 0)
    ensures r.Done? ==> forall k :: 0 <= k < |r.value| ==> IsDeepSample(env, eval, draws, positions, r.value[k])
    ensures r.Done? ==> exists k: nat :: k <= tries && DeepRun(env, eval, positions, count, draws, at, k, r.value, next)
    ensures r.Threw? ==> exists b, a: nat :: IsPlacementFrom(env, positions, b) && GameFails(env, eval, b, draws, a, r.error)
    ensures r.Unfinished? ==> 0 < count && (tries < count || exists k, t :: 0 <= k < |positions| && |env.findChoices(positions[k], t)| == 0)
    ensures r.Unfinished? ==> exists s :: |s| < count && DeepRun(env, eval, positions, count, draws, at, tries, s, next)
    ensures at <= next
  {
    var samples: seq<ScorePoint<G>> := [];
    var left := tries;
    next := at;
    ghost var cursors: seq<nat>, adds: seq<seq<ScorePoint<G>>> := [at], [];
    while |samples| < count
      invariant |samples| <= (if count > 0 then count else 0)
      invariant forall k :: 0 <= k < |samples| ==> IsDeepSample(env, eval, draws, positions, samples[k])
      invariant 0 <= left <= tries && at <= next
      invariant (forall k, t :: 0 <= k < |positions| ==> |env.findChoices(positions[k], t)| > 0) ==> tries - left == |samples|
      invariant |adds| == tries - left && |cursors| == |adds| + 1
      invariant DeepTrace(env, eval, positions, count, draws, cursors, adds)
      invariant cursors[0] == at && cursors[|adds|] == next && Concat(adds) == samples
      decreases left
    {
      if left == 0 {
        assert DeepRun(env, eval, positions, count, draws, at, tries, samples, next);
        return Unfinished, next;
      }
      var pass;
      pass, next := DeepPass(env, eval, positions, draws, next);
      if pass.Failure? {
        return Threw(pass.error), next;
      }
      DeepTraceStep(env, eval, positions, count, draws, cursors, adds, pass.value, next);
      cursors, adds := cursors + [next], adds + [pass.value];
      left := left - 1;
      samples := samples + pass.value;
    }
    assert DeepRun(env, eval, positions, count, draws, at, |adds|, samples, next);
    r := Done(samples);
  }

  /** One pass of the lookahead loop at cursor `c`: it draws a position and
      a piece type, and keeps the position, scored by `augmentLookahead`,
      when the piece fits on it. */
  function LookaheadStep<G(!new)>(env: Env<G>, eval: seq<Board<G>> -> seq<real>, positions: seq<Board<G>>, draws: Draws,
                                  c: nat): (s: seq<ScorePoint<G>>)
    requires IsEvaluator(eval) && draws.Valid() && |positions| > 0
    ensures |s| <= 1
    ensures forall k :: 0 <= k < |s| ==> IsLookaheadSample(env, eval, positions, s[k])
  {
    var position := positions[Pick(draws.uniform(c), |positions|)];
    if |env.findChoices(position, draws.piece(c + 1))| > 0
    then [ScorePoint(None, position, Stats.Mean(LookaheadScores(env, eval, position)), None)]
    else []
  }

  /** The samples of the first `i` passes of the lookahead loop from cursor
      `at`, two draws a pass. */
  function LookaheadRun<G(!new)>(env: Env<G>, eval: seq<Board<G>> -> seq<real>, positions: seq<Board<G>>, draws: Draws,
                                 at: nat, i: nat): (s: seq<ScorePoint<G>>)
    requires IsEvaluator(eval) && draws.Valid() && |positions| > 0
    ensures |s| <= i
    ensures forall k :: 0 <= k < |s| ==> IsLookaheadSample(env, eval, positions, s[k])
  {
    if i == 0 then []
    else
      LookaheadRun(env, eval, positions, draws, at, i - 1) + LookaheadStep(env, eval, positions, draws, at + 2 * (i - 1))
  }

  /** One more pass extends the run by that pass's samples. */
  lemma LookaheadRunSnoc<G(!new)>(env: Env<G>, eval: seq<Board<G>> -> seq<real>, positions: seq<Board<G>>, draws: Draws,
                                  at: nat, i: nat, c: nat)
    requires IsEvaluator(eval) && draws.Valid() && |positions| > 0 && c == at + 2 * i
    ensures LookaheadRun(env, eval, positions, draws, at, i + 1)
         == LookaheadRun(env, eval, positions, draws, at, i) + LookaheadStep(env, eval, positions, draws, c)
  {
    var j := i + 1;
    assert j - 1 == i && at + 2 * (j - 1) == c;
    assert LookaheadRun(env, eval, positions, draws, at, j)
        == LookaheadRun(env, eval, positions, draws, at, j - 1) + LookaheadStep(env, eval, positions, draws, at + 2 * (j - 1));
  }

  /** One pass of the lookahead loop at cursor `c`. */
  method LookaheadPass<G(!new)>(env: Env<G>, eval: seq<Board<G>> -> seq<real>, positions: seq<Board<G>>, draws: Draws, c: nat)
    returns (added: seq<ScorePoint<G>>)
    requires IsEvaluator(eval) && draws.Valid() && |positions| > 0
    ensures added == LookaheadStep(env, eval, positions, draws, c)
  {
    var position := positions[Pick(draws.uniform(c), |positions|)];
    var choices := env.findChoices(position, draws.piece(c + 1));
    added := [];
    if |choices| > 0 {
      var p := AugmentLookahead(env, eval, position);
      added := [p];
    }
  }

  /** The lookahead loop: `lookaheadSamplesPerGame` draws of a position,
      kept (scored by `augmentLookahead`) when the drawn piece fits. */
  method LookaheadSamples<G(!new)>(env: Env<G>, eval: seq<Board<G>> -> seq<real>, positions: seq<Board<G>>, draws: Draws, at: nat)
    returns (samples: seq<ScorePoint<G>>, next: nat)
    requires IsEvaluator(eval) && draws.Valid() && |positions| > 0
    ensures |samples| <= LookaheadSamplesPerGame
    ensures forall k :: 0 <= k < |samples| ==> IsLookaheadSample(env, eval, positions, samples[k])
    ensures samples == LookaheadRun(env, eval, positions, draws, at, LookaheadSamplesPerGame)
    ensures next == at + 2 * LookaheadSamplesPerGame
  {
    samples := [];
    next := at;
    var i := 0;
    while i < LookaheadSamplesPerGame
      invariant 0 <= i <= LookaheadSamplesPerGame
      invariant next == at + 2 * i
      invariant samples == LookaheadRun(env, eval, positions, draws, at, i)
    {
      var added := LookaheadPass(env, eval, positions, draws, next);
      LookaheadRunSnoc(env, eval, positions, draws, at, i, next);
      samples := samples + added;
      next := next + 2;
      i := i + 1;
    }
  }

  /** A game thrown from a placement from a rollout position is a game
      thrown from a sampled board. */
  lemma PlacementFailureIsSampled<G(!new)>(env: Env<G>, eval: seq<Board<G>> -> seq<real>, start: Board<G>, draws: Draws,
                                           a: nat, positions: seq<Board<G>>, s: real, error: string)
    requires IsEvaluator(eval) && IsGame(env, eval, start, draws, a, positions, s)
    requires exists b, a': nat :: IsPlacementFrom(env, positions, b) && GameFails(env, eval, b, draws, a', error)
    ensures SampledGameFails(env, eval, start, draws, error)
  {
    var b, a': nat :| IsPlacementFrom(env, positions, b) && GameFails(env, eval, b, draws, a', error);
    assert IsSampled(env, eval, start, draws, b);
  }

  /** The deep and the lookahead samples of one game from `start` are score
      points. */
  lemma GameSamplesAreScorePoints<G(!new)>(env: Env<G>, eval: seq<Board<G>> -> seq<real>, start: Board<G>, draws: Draws,
                                           a: nat, positions: seq<Board<G>>, s: real, deep: seq<ScorePoint<G>>, lookahead: seq<ScorePoint<G>>)
    requires IsEvaluator(eval) && IsGame(env, eval, start, draws, a, positions, s)
    requires forall k :: 0 <= k < |deep| ==> IsDeepSample(env, eval, draws, positions, deep[k])
    requires forall k :: 0 <= k < |lookahead| ==> IsLookaheadSample(env, eval, positions, lookahead[k])
    ensures forall k :: 0 <= k < |deep + lookahead| ==> IsScorePoint(env, eval, start, draws, (deep + lookahead)[k])
  {
    forall k | 0 <= k < |deep + lookahead|
      ensures IsScorePoint(env, eval, start, draws, (deep + lookahead)[k])
    {
      if k >= |deep| {
        assert (deep + lookahead)[k] == lookahead[k - |deep|];
      }
    }
  }

  /** The draws one game of `generateScoreTrainingData` takes at least: a
      piece for the first position of its rollout, and a position and a
      piece for each lookahead sample. */
  const GameDraws: nat := 1 + 2 * LookaheadSamplesPerGame

  /** One game from cursor `at` gives `points` and stops drawing at `next`:
      the greedy game from `start`, then `deepSamplesPerGame` deep samples of
      its positions within `tries` passes, then the lookahead passes. */
  ghost predicate ScoreGameYields<G(!new)>(env: Env<G>, eval: seq<Board<G>> -> seq<real>, start: Board<G>, tries: nat,
                                           draws: Draws, at: nat, points: seq<ScorePoint<G>>, next: nat)
    requires IsEvaluator(eval) && draws.Valid()
  {
    exists p: seq<Board<G>>, s: real, c: nat, k: nat, deep: seq<ScorePoint<G>>, mid: nat
      {:trigger IsGame(env, eval, start, draws, at, p, s), DeepRun(env, eval, p, DeepSamplesPerGame, draws, c, k, deep, mid)} ::
      && IsGame(env, eval, start, draws, at, p, s) && c == at + |p|
      && |deep| == DeepSamplesPerGame && k <= tries
      && DeepRun(env, eval, p, DeepSamplesPerGame, draws, c, k, deep, mid)
      && points == deep + LookaheadRun(env, eval, p, draws, mid, LookaheadSamplesPerGame)
      && next == mid + 2 * LookaheadSamplesPerGame
  }

  /** One game from cursor `at` uses up its `tries` deep-sample passes with
      fewer than `deepSamplesPerGame` samples. */
  ghost predicate ScoreGameStalls<G(!new)>(env: Env<G>, eval: seq<Board<G>> -> seq<real>, start: Board<G>, tries: nat,
                                           draws: Draws, at: nat)
    requires IsEvaluator(eval) && draws.Valid()
  {
    exists p: seq<Board<G>>, s: real, c: nat, deep: seq<ScorePoint<G>>, mid: nat
      {:trigger IsGame(env, eval, start, draws, at, p, s), DeepRun(env, eval, p, DeepSamplesPerGame, draws, c, tries, deep, mid)} ::
      && IsGame(env, eval, start, draws, at, p, s) && c == at + |p|
      && DeepRun(env, eval, p, DeepSamplesPerGame, draws, c, tries, deep, mid)
      && |deep| < DeepSamplesPerGame
  }

  /** A game, its deep samples and its lookahead samples make up what the
      game yields. */
  lemma GameYields<G(!new)>(env: Env<G>, eval: seq<Board<G>> -> seq<real>, start: Board<G>, tries: nat, draws: Draws,
                            at: nat, p: seq<Board<G>>, s: real, k: nat, deep: seq<ScorePoint<G>>, mid: nat,
                            lookahead: seq<ScorePoint<G>>, next: nat)
    requires IsEvaluator(eval) && draws.Valid() && IsGame(env, eval, start, draws, at, p, s)
    requires |deep| == DeepSamplesPerGame && k <= tries
    requires DeepRun(env, eval, p, DeepSamplesPerGame, draws, at + |p|, k, deep, mid)
    requires lookahead == LookaheadRun(env, eval, p, draws, mid, LookaheadSamplesPerGame)
    requires next == mid + 2 * LookaheadSamplesPerGame
    ensures ScoreGameYields(env, eval, start, tries, draws, at, deep + lookahead, next)
  {
  }

  /** One game of `generateScoreTrainingData`: a greedy game from `start`,
      its deep samples, then its lookahead samples. */
  method ScoreGame<G(!new)>(env: Env<G>, eval: seq<Board<G>> -> seq<real>, start: Board<G>, tries: nat, draws: Draws, at: nat)
    returns (r: Run<seq<ScorePoint<G>>>, next: nat)
    requires IsEvaluator(eval) && draws.Valid()
    ensures r.Done? ==> DeepSamplesPerGame <= |r.value| <= DeepSamplesPerGame + LookaheadSamplesPerGame
    ensures r.Done? ==> forall k :: 0 <= k < |r.value| ==> IsScorePoint(env, eval, start, draws, r.value[k])
    ensures r.Done? ==> at + GameDraws <= next
    ensures r.Done? ==> ScoreGameYields(env, eval, start, tries, draws, at, r.value, next)
    ensures r.Unfinished? ==> ScoreGameStalls(env, eval, start, tries, draws, at)
    ensures r.Threw? ==> SampledGameFails(env, eval, start, draws, r.error)
    ensures r.Unfinished? ==>
      && 0 < DeepSamplesPerGame
      && (tries < DeepSamplesPerGame || exists b, t :: IsPosition(env, eval, start, draws, b) && |env.findChoices(b, t)| == 0)
  {
    var game;
    game, next := GenerateGameBoards(env, eval, start, draws, at);
    if game.Failure? {
      SampledFailure(env, eval, start, draws, start, game.error);
      return Threw(game.error), next;
    }
    var positions := game.value.positions;
    ghost var finalScore := game.value.finalScore;
    ghost var c := next;
    var deep;
    deep, next := DeepSamples(env, eval, positions, DeepSamplesPerGame, tries, draws, next);
    if !deep.Done? {
      if deep.Threw? {
        PlacementFailureIsSampled(env, eval, start, draws, at, positions, finalScore, deep.error);
      }
      return (if deep.Threw? then Threw(deep.error) else Unfinished), next;
    }
    ghost var mid := next;
    var lookahead;
    lookahead, next := LookaheadSamples(env, eval, positions, draws, next);
    GameSamplesAreScorePoints(env, eval, start, draws, at, positions, finalScore, deep.value, lookahead);
    ghost var k: nat :| k <= tries && DeepRun(env, eval, positions, DeepSamplesPerGame, draws, c, k, deep.value, mid);
    GameYields(env, eval, start, tries, draws, at, positions, finalScore, k, deep.value, mid, lookahead, next);
    r := Done(deep.value + lookahead);
  }

  /** A trace of games of `generateScoreTrainingData`: game `j` starts at
      `cursors[j]`, is played while fewer than `n` points are held, gives
      `adds[j]` and stops at `cursors[j + 1]`. */
  ghost predicate ScoreTrace<G(!new)>(env: Env<G>, eval: seq<Board<G>> -> seq<real>, start: Board<G>, n: int, tries: nat,
                                      draws: Draws, cursors: seq<nat>, adds: seq<seq<ScorePoint<G>>>)
    requires IsEvaluator(eval) && draws.Valid()
  {
    && |cursors| == |adds| + 1
    && forall j {:trigger ScoreGameYields(env, eval, start, tries, draws, cursors[j], adds[j], cursors[j + 1])} :: 0 <= j < |adds| ==>
         && |Concat(adds[..j])| < n
         && ScoreGameYields(env, eval, start, tries, draws, cursors[j], adds[j], cursors[j + 1])
  }

  /** `k` games from cursor `at`, each played while fewer than `n` points
      are held, give `points` and stop drawing at `next`. */
  ghost predicate GamesRun<G(!new)>(env: Env<G>, eval: seq<Board<G>> -> seq<real>, start: Board<G>, n: int, tries: nat,
                                    draws: Draws, at: nat, k: nat, points: seq<ScorePoint<G>>, next: nat)
    requires IsEvaluator(eval) && draws.Valid()
  {
    exists cursors: seq<nat>, adds: seq<seq<ScorePoint<G>>> ::
      && |adds| == k && |cursors| == k + 1
      && ScoreTrace(env, eval, start, n, tries, draws, cursors, adds)
      && cursors[0] == at && cursors[k] == next && Concat(adds) == points
  }

  /** One more game extends the trace. */
  lemma ScoreTraceStep<G(!new)>(env: Env<G>, eval: seq<Board<G>> -> seq<real>, start: Board<G>, n: int, tries: nat,
                                draws: Draws, cursors: seq<nat>, adds: seq<seq<ScorePoint<G>>>,
                                added: seq<ScorePoint<G>>, next: nat)
    requires IsEvaluator(eval) && draws.Valid()
    requires ScoreTrace(env, eval, start, n, tries, draws, cursors, adds) && |Concat(adds)| < n
    requires ScoreGameYields(env, eval, start, tries, draws, cursors[|adds|], added, next)
    ensures ScoreTrace(env, eval, start, n, tries, draws, cursors + [next], adds + [added])
    ensures Concat(adds + [added]) == Concat(adds) + added
  {
    ConcatSnoc(adds, added);
    var c, a := cursors + [next], adds + [added];
    forall j | 0 <= j < |a|
      ensures |Concat(a[..j])| < n && ScoreGameYields(env, eval, start, tries, draws, c[j], a[j], c[j + 1])
    {
      if j < |adds| {
        assert a[..j] == adds[..j] && a[j] == adds[j] && c[j] == cursors[j] && c[j + 1] == cursors[j + 1];
        // names the game, so that the trace's quantifier applies to it
        ghost var game := ScoreGameYields(env, eval, start, tries, draws, cursors[j], adds[j], cursors[j + 1]);
      } else {
        assert a[..j] == adds;
      }
    }
  }

  /** `generateScoreTrainingData(evaluator, n)` with games from `start` (the
      fresh `new Board(stdMaxLines)`), stopping with `Unfinished` after
      `games` games or `tries` deep-sample draws per game. */
  method GenerateScoreTrainingData<G(!new)>(env: Env<G>, eval: seq<Board<G>> -> seq<real>, start: Board<G>, n: int,
                                            games: nat, tries: nat, draws: Draws, at: nat)
    returns (r: Run<seq<ScorePoint<G>>>, next: nat)
    requires IsEvaluator(eval) && draws.Valid()
    ensures r.Done? ==> |r.value| >= n
    ensures r.Done? ==> forall k :: 0 <= k < |r.value| ==> IsScorePoint(env, eval, start, draws, r.value[k])
    ensures r.Done? ==> exists k: nat :: k <= games && GamesRun(env, eval, start, n, tries, draws, at, k, r.value, next)
    ensures r.Threw? ==> SampledGameFails(env, eval, start, draws, r.error)
    ensures r.Unfinished? ==>
      && 0 < n
      && (|| (exists points :: |points| < n && GamesRun(env, eval, start, n, tries, draws, at, games, points, next))
          || (exists k: nat, points, c: nat ::
                && k < games && |points| < n && GamesRun(env, eval, start, n, tries, draws, at, k, points, c)
                && ScoreGameStalls(env, eval, start, tries, draws, c)))
    ensures r.Unfinished? ==>
      && 0 < n
      && (|| at + games * GameDraws <= next
          || (&& 0 < DeepSamplesPerGame
              && (tries < DeepSamplesPerGame || exists b, t :: IsPosition(env, eval, start, draws, b) && |env.findChoices(b, t)| == 0)))
  {
    var trainingData: seq<ScorePoint<G>> := [];
    var left := games;
    next := at;
    ghost var cursors: seq<nat>, adds: seq<seq<ScorePoint<G>>> := [at], [];
    while |trainingData| < n
      invariant forall k :: 0 <= k < |trainingData| ==> IsScorePoint(env, eval, start, draws, trainingData[k])
      invariant 0 <= left <= games && at + (games - left) * GameDraws <= next
      invariant |adds| == games - left && |cursors| == |adds| + 1
      invariant ScoreTrace(env, eval, start, n, tries, draws, cursors, adds)
      invariant cursors[0] == at && cursors[|adds|] == next && Concat(adds) == trainingData
      decreases left
    {
      if left == 0 {
        assert GamesRun(env, eval, start, n, tries, draws, at, games, trainingData, next);
        return Unfinished, next;
      }
      left := left - 1;
      var points;
      points, next := ScoreGame(env, eval, start, tries, draws, next);
      if !points.Done? {
        return (if points.Threw? then Threw(points.error) else Unfinished), next;
      }
      assert at + (games - left) * GameDraws <= next by {
        assert (games - left) * GameDraws == (games - left - 1) * GameDraws + GameDraws;
      }
      ScorePointsAppend(env, eval, start, draws, trainingData, points.value);
      ScoreTraceStep(env, eval, start, n, tries, draws, cursors, adds, points.value, next);
      cursors, adds := cursors + [next], adds + [points.value];
      trainingData := trainingData + points.value;
    }
    assert GamesRun(env, eval, start, n, tries, draws, at, |adds|, trainingData, next);
    r := Done(trainingData);
  }

  /** Appending the points of one more game keeps every point a score point. */
  lemma ScorePointsAppend<G(!new)>(env: Env<G>, eval: seq<Board<G>> -> seq<real>, start: Board<G>, draws: Draws,
                                   data: seq<ScorePoint<G>>, added: seq<ScorePoint<G>>)
    requires IsEvaluator(eval)
    requires forall k :: 0 <= k < |data| ==> IsScorePoint(env, eval, start, draws, data[k])
    requires forall k :: 0 <= k < |added| ==> IsScorePoint(env, eval, start, draws, added[k])
    ensures forall k :: 0 <= k < |data + added| ==> IsScorePoint(env, eval, start, draws, (data + added)[k])
  {
    forall k | 0 <= k < |data + added|
      ensures IsScorePoint(env, eval, start, draws, (data + added)[k])
    {
      if k >= |data| {
        assert (data + added)[k] == added[k - |data|];
      }
    }
  }
}
