// src/generateTrainingData.ts: training pairs (a board and the score it is
// expected to reach) collected from greedy games. `augment` averages ten
// final scores; `augmentLookahead` averages the best evaluations one move
// ahead. JavaScript's `undefined` and `NaN` scores are written `None`.
module TrainingData {
  import opened Util
  import opened Pieces
  import opened Random
  import opened Rollout
  import Stats

  /** `TrainingDataPair`. */
  datatype Pair<G> = Pair(board: Board<G>, finalScore: Option<real>)

  /** `score` is the final score of some greedy game from `start`. */
  ghost predicate IsPlayoutScore<G(!new)>(env: Env<G>, eval: seq<Board<G>> -> seq<real>, start: Board<G>, draws: Draws, score: real)
    requires IsEvaluator(eval)
  {
    exists a: nat, p: seq<Board<G>> :: IsGame(env, eval, start, draws, a, p, score)
  }

  /** Every score of `scores` is the final score of some greedy game from
      `start`; stated one score at a time, from the last. */
  ghost predicate ArePlayoutScores<G(!new)>(env: Env<G>, eval: seq<Board<G>> -> seq<real>, start: Board<G>, draws: Draws, scores: seq<real>)
    requires IsEvaluator(eval)
    decreases |scores|
  {
    || |scores| == 0
    || (&& ArePlayoutScores(env, eval, start, draws, scores[..|scores| - 1])
        && IsPlayoutScore(env, eval, start, draws, scores[|scores| - 1]))
  }

  /** `ArePlayoutScores` says exactly that each score is a playout score. */
  lemma {:induction false} ArePlayoutScoresIff<G(!new)>(env: Env<G>, eval: seq<Board<G>> -> seq<real>, start: Board<G>, draws: Draws, scores: seq<real>)
    requires IsEvaluator(eval)
    ensures ArePlayoutScores(env, eval, start, draws, scores) <==>
      forall k :: 0 <= k < |scores| ==> IsPlayoutScore(env, eval, start, draws, scores[k])
    decreases |scores|
  {
    if |scores| > 0 {
      var n := |scores| - 1;
      ArePlayoutScoresIff(env, eval, start, draws, scores[..n]);
      assert forall k :: 0 <= k < n ==> scores[..n][k] == scores[k];
    }
  }

  /** One more playout score. */
  lemma PlayoutScoresSnoc<G(!new)>(env: Env<G>, eval: seq<Board<G>> -> seq<real>, start: Board<G>, draws: Draws, scores: seq<real>, x: real)
    requires IsEvaluator(eval)
    requires ArePlayoutScores(env, eval, start, draws, scores) && IsPlayoutScore(env, eval, start, draws, x)
    ensures ArePlayoutScores(env, eval, start, draws, scores + [x])
  {
    assert (scores + [x])[..|scores|] == scores;
  }

  /** `pair` is scored as `augment` scores it: the mean of `first` and nine
      final scores of greedy games played on from its board. */
  ghost predicate IsAugmented<G(!new)>(env: Env<G>, eval: seq<Board<G>> -> seq<real>, draws: Draws, pair: Pair<G>, first: real)
    requires IsEvaluator(eval)
  {
    exists scores: seq<real> ::
      && |scores| == 10 && scores[0] == first
      && ArePlayoutScores(env, eval, pair.board, draws, scores[1..])
      && pair.finalScore == Some(Stats.Mean(scores))
  }

  /** `augment`: the given final score and nine more from games played on
      from the board, averaged. */
  method Augment<G(!new)>(env: Env<G>, eval: seq<Board<G>> -> seq<real>, board: Board<G>, finalScore: real, draws: Draws, at: nat)
    returns (r: Result<Pair<G>, string>, next: nat)
    requires IsEvaluator(eval)
    ensures r.Success? ==> r.value.board == board && r.value.finalScore.Some?
    ensures r.Success? ==> IsAugmented(env, eval, draws, r.value, finalScore)
    ensures r.Failure? ==> exists a: nat :: GameFails(env, eval, board, draws, a, r.error)
  {
    var scores := [finalScore];
    next := at;
    while |scores| < 10
      invariant 1 <= |scores| <= 10 && scores[0] == finalScore
      invariant ArePlayoutScores(env, eval, board, draws, scores[1..])
    {
      var game, n := GenerateGameBoards(env, eval, board, draws, next);
      if game.Failure? {
        return Failure(game.error), n;
      }
      PlayoutScoresSnoc(env, eval, board, draws, scores[1..], game.value.finalScore);
      assert (scores + [game.value.finalScore])[1..] == scores[1..] + [game.value.finalScore];
      scores := scores + [game.value.finalScore];
      next := n;
    }
    r := Success(Pair(board, Some(Stats.Mean(scores))));
    assert IsAugmented(env, eval, draws, r.value, finalScore) by {
      assert r.value.board == board;
    }
  }

  /** The largest of a non-empty list of evaluations: the head after sorting
      them in descending order. */
  function Max(s: seq<real>): (m: real)
    requires |s| > 0
    ensures m in s && forall k :: 0 <= k < |s| ==> s[k] <= m
  {
    s[FirstMaxIndex(s)]
  }

  /** The scores `augmentLookahead` pushes for one piece type: the best
      evaluation of its choices; with no choice, the board's score followed
      by the head of an empty list (`undefined`), since nothing skips to the
      next type. */
  function TypeEntries<G(!new)>(env: Env<G>, eval: seq<Board<G>> -> seq<real>, b: Board<G>, t: PieceType): (e: seq<Option<real>>)
    requires IsEvaluator(eval)
    ensures |e| == if |env.findChoices(b, t)| == 0 then 2 else 1
  {
    var choices := env.findChoices(b, t);
    if |choices| == 0 then [Some(b.score), None]
    else [Some(Max(eval(choices)))]
  }

  /** The scores pushed for the piece types of `types`, in order. */
  function Entries<G(!new)>(env: Env<G>, eval: seq<Board<G>> -> seq<real>, b: Board<G>, types: seq<PieceType>): seq<Option<real>>
    requires IsEvaluator(eval)
  {
    if |types| == 0 then []
    else Entries(env, eval, b, types[..|types| - 1]) + TypeEntries(env, eval, b, types[|types| - 1])
  }

  /** `scores.reduce((a, b) => a + b) / scores.length`: any `undefined`
      makes the result `NaN`. */
  function MeanOrNaN(s: seq<Option<real>>): Option<real>
    requires |s| > 0
  {
    if forall k :: 0 <= k < |s| ==> s[k].Some? then
      Some(Stats.Mean(seq(|s|, k requires 0 <= k < |s| => s[k].value)))
    else None
  }

  /** `augmentLookahead(board)`. */
  method AugmentLookahead<G(!new)>(env: Env<G>, eval: seq<Board<G>> -> seq<real>, board: Board<G>) returns (r: Pair<G>)
    requires IsEvaluator(eval)
    ensures r.board == board
    ensures r.finalScore == MeanOrNaN(Entries(env, eval, board, List()))
  {
    var scores: seq<Option<real>> := [];
    var types := List();
    var i := 0;
    while i < |types|
      invariant 0 <= i <= |types|
      invariant scores == Entries(env, eval, board, types[..i])
    {
      assert types[..i + 1][..i] == types[..i];
      var choices := env.findChoices(board, types[i]);
      if |choices| == 0 {
        scores := scores + [Some(board.score)];
      }
      var choiceEvals := eval(choices);
      if |choiceEvals| == 0 {
        scores := scores + [None];
      } else {
        scores := scores + [Some(Max(choiceEvals))];
      }
      i := i + 1;
    }
    assert types[..i] == types;
    EntriesCount(env, eval, board, types);
    r := Pair(board, MeanOrNaN(scores));
  }

  /** One entry per type, and one more for each type without a choice. */
  lemma {:induction false} EntriesCount<G(!new)>(env: Env<G>, eval: seq<Board<G>> -> seq<real>, b: Board<G>, types: seq<PieceType>)
    requires IsEvaluator(eval)
    ensures |Entries(env, eval, b, types)| >= |types|
    ensures (forall k :: 0 <= k < |types| ==> |env.findChoices(b, types[k])| > 0) ==>
      |Entries(env, eval, b, types)| == |types|
  {
    if |types| > 0 {
      var n := |types| - 1;
      EntriesCount(env, eval, b, types[..n]);
      if forall k :: 0 <= k < |types| ==> |env.findChoices(b, types[k])| > 0 {
        assert forall k :: 0 <= k < n ==> types[..n][k] == types[k];
      }
    }
  }

  /** When every piece type has a choice, the lookahead score is the mean of
      the seven best evaluations, the value the deeper evaluator gives. */
  lemma LookaheadAllPlaced<G(!new)>(env: Env<G>, eval: seq<Board<G>> -> seq<real>, b: Board<G>)
    requires IsEvaluator(eval)
    requires forall t :: |env.findChoices(b, t)| > 0
    ensures MeanOrNaN(Entries(env, eval, b, List())).Some?
    ensures DeeperValue(env, eval, b) == Fin(MeanOrNaN(Entries(env, eval, b, List())).value)
  {
    var bests := seq(7, k requires 0 <= k < 7 => BestOf(env, eval, b, List()[k]).Value());
    AllPlacedEntries(env, eval, b, List());
    DeeperValueCases(env, eval, b);
    var e := Entries(env, eval, b, List());
    assert seq(|e|, k requires 0 <= k < |e| => e[k].value) == bests;
  }

  /** With a choice for every type, the entries are the types' best
      evaluations. */
  lemma {:induction false} AllPlacedEntries<G(!new)>(env: Env<G>, eval: seq<Board<G>> -> seq<real>, b: Board<G>, types: seq<PieceType>)
    requires IsEvaluator(eval)
    requires forall t :: |env.findChoices(b, t)| > 0
    ensures |Entries(env, eval, b, types)| == |types|
    ensures forall k :: 0 <= k < |types| ==>
      Entries(env, eval, b, types)[k] == Some(BestOf(env, eval, b, types[k]).Value())
  {
    if |types| > 0 {
      var n := |types| - 1;
      AllPlacedEntries(env, eval, b, types[..n]);
      var s := eval(env.findChoices(b, types[n]));
      assert MaxExt(s).r == Max(s);
      forall k | 0 <= k < n
        ensures Entries(env, eval, b, types)[k] == Some(BestOf(env, eval, b, types[k]).Value())
      {
        assert types[..n][k] == types[k];
      }
    }
  }

  /** A piece type without a choice makes the lookahead score `NaN`. */
  lemma LookaheadUnplacedIsNaN<G(!new)>(env: Env<G>, eval: seq<Board<G>> -> seq<real>, b: Board<G>, t: PieceType)
    requires IsEvaluator(eval)
    requires |env.findChoices(b, t)| == 0
    ensures MeanOrNaN(Entries(env, eval, b, List())) == None
  {
    UnplacedGivesUndefined(env, eval, b, List(), IndexOf(t));
  }

  lemma {:induction false} UnplacedGivesUndefined<G(!new)>(env: Env<G>, eval: seq<Board<G>> -> seq<real>, b: Board<G>, types: seq<PieceType>, i: nat)
    requires IsEvaluator(eval)
    requires i < |types| && |env.findChoices(b, types[i])| == 0
    ensures None in Entries(env, eval, b, types)
  {
    var n := |types| - 1;
    if i < n {
      UnplacedGivesUndefined(env, eval, b, types[..n], i);
    }
  }

  // ---------------------------------------------------------------------
  // The generators

  /** A pair taken at a position of a greedy game from `start`, scored with
      that game's final score. */
  ghost predicate IsPositionPair<G(!new)>(env: Env<G>, eval: seq<Board<G>> -> seq<real>, start: Board<G>, draws: Draws, pair: Pair<G>)
    requires IsEvaluator(eval)
  {
    exists a: nat, p: seq<Board<G>>, s: real ::
      IsGame(env, eval, start, draws, a, p, s) && pair.board in p && IsAugmented(env, eval, draws, pair, s)
  }

  /** A pair taken at a placement from `q`, scored with the final score of a
      greedy game played on from the placement. */
  ghost predicate IsChoicePair<G(!new)>(env: Env<G>, eval: seq<Board<G>> -> seq<real>, q: Board<G>, draws: Draws, pair: Pair<G>)
    requires IsEvaluator(eval)
  {
    && (exists t: PieceType :: pair.board in env.findChoices(q, t))
    && (exists a: nat, p: seq<Board<G>>, s: real ::
          IsGame(env, eval, pair.board, draws, a, p, s) && IsAugmented(env, eval, draws, pair, s))
  }

  /** What every pair of `generateTrainingData` from `start` is. */
  ghost predicate IsTrainingPair<G(!new)>(env: Env<G>, eval: seq<Board<G>> -> seq<real>, start: Board<G>, draws: Draws, pair: Pair<G>)
    requires IsEvaluator(eval)
  {
    || IsPositionPair(env, eval, start, draws, pair)
    || exists q: Board<G> :: IsPosition(env, eval, start, draws, q) && IsChoicePair(env, eval, q, draws, pair)
  }

  /** The first half of a game of `generateTrainingData`: a greedy game
      from `start`, a random position of it, and that position augmented
      with the game's final score. */
  method PositionSample<G(!new)>(env: Env<G>, eval: seq<Board<G>> -> seq<real>, start: Board<G>, draws: Draws, at: nat)
    returns (r: Result<Pair<G>, string>, next: nat)
    requires IsEvaluator(eval) && draws.Valid()
    ensures r.Success? ==> IsPositionPair(env, eval, start, draws, r.value)
    ensures r.Failure? ==> SampledGameFails(env, eval, start, draws, r.error)
  {
    var game;
    game, next := GenerateGameBoards(env, eval, start, draws, at);
    if game.Failure? {
      SampledFailure(env, eval, start, draws, start, game.error);
      return Failure(game.error), next;
    }
    var positions := game.value.positions;
    var randomPosition := positions[Pick(draws.uniform(next), |positions|)];
    next := next + 1;
    PositionOfGame(env, eval, start, draws, at, positions, game.value.finalScore, randomPosition);
    r, next := Augment(env, eval, randomPosition, game.value.finalScore, draws, next);
    if r.Failure? {
      SampledFailure(env, eval, start, draws, randomPosition, r.error);
      return;
    }
    assert IsGame(env, eval, start, draws, at, positions, game.value.finalScore) && r.value.board in positions;
  }

  /** One game of `generateTrainingData`: a random position of a greedy game
      from `start` with the game's final score, then, when the drawn piece
      fits, a random choice from it with the final score of a game played
      on from there. */
  method TrainingGame<G(!new)>(env: Env<G>, eval: seq<Board<G>> -> seq<real>, start: Board<G>, draws: Draws, at: nat)
    returns (r: Result<seq<Pair<G>>, string>, next: nat)
    requires IsEvaluator(eval) && draws.Valid()
    ensures r.Success? ==> 1 <= |r.value| <= 2
    ensures r.Success? ==> IsPositionPair(env, eval, start, draws, r.value[0])
    ensures r.Success? && |r.value| == 1 ==> exists t: PieceType :: |env.findChoices(r.value[0].board, t)| == 0
    ensures r.Success? && |r.value| == 2 ==> IsChoicePair(env, eval, r.value[0].board, draws, r.value[1])
    ensures r.Failure? ==> SampledGameFails(env, eval, start, draws, r.error)
  {
    var first;
    first, next := PositionSample(env, eval, start, draws, at);
    if first.Failure? {
      return Failure(first.error), next;
    }
    var randomPosition := first.value.board;
    var t := draws.piece(next);
    var choices := env.findChoices(randomPosition, t);
    next := next + 1;
    if |choices| == 0 {
      return Success([first.value]), next;
    }
    var randomChoice := choices[Pick(draws.uniform(next), |choices|)];
    next := next + 1;
    PlacementOfPositionPair(env, eval, start, draws, first.value, t, randomChoice);
    var second;
    second, next := PlayoutPair(env, eval, randomChoice, draws, next);
    if second.Failure? {
      SampledFailure(env, eval, start, draws, randomChoice, second.error);
      return Failure(second.error), next;
    }
    assert IsChoicePair(env, eval, randomPosition, draws, second.value) by {
      assert second.value.board in env.findChoices(randomPosition, t);
    }
    r := Success([first.value, second.value]);
  }

  /** A placement from the board of a position pair is a sampled board. */
  lemma PlacementOfPositionPair<G(!new)>(env: Env<G>, eval: seq<Board<G>> -> seq<real>, start: Board<G>, draws: Draws,
                                         pair: Pair<G>, t: PieceType, c: Board<G>)
    requires IsEvaluator(eval) && IsPositionPair(env, eval, start, draws, pair) && c in env.findChoices(pair.board, t)
    ensures IsPosition(env, eval, start, draws, pair.board) && IsSampled(env, eval, start, draws, c)
  {
    var a: nat, p, s :| IsGame(env, eval, start, draws, a, p, s) && pair.board in p && IsAugmented(env, eval, draws, pair, s);
    PlacementOfGame(env, eval, start, draws, a, p, s, pair.board, t, c);
  }

  /** A board scored by playing a greedy game on from it and augmenting that
      game's final score. */
  method PlayoutPair<G(!new)>(env: Env<G>, eval: seq<Board<G>> -> seq<real>, board: Board<G>, draws: Draws, at: nat)
    returns (r: Result<Pair<G>, string>, next: nat)
    requires IsEvaluator(eval)
    ensures r.Success? ==> r.value.board == board
    ensures r.Success? ==> exists a: nat, p: seq<Board<G>>, s: real ::
      IsGame(env, eval, board, draws, a, p, s) && IsAugmented(env, eval, draws, r.value, s)
    ensures r.Failure? ==> exists a: nat :: GameFails(env, eval, board, draws, a, r.error)
  {
    var game;
    game, next := GenerateGameBoards(env, eval, board, draws, at);
    if game.Failure? {
      return Failure(game.error), next;
    }
    r, next := Augment(env, eval, board, game.value.finalScore, draws, next);
  }

  /** A position pair is a training pair with a defined score, taken at a
      position of a game from `start`. */
  lemma PositionPairIsTrainingPair<G(!new)>(env: Env<G>, eval: seq<Board<G>> -> seq<real>, start: Board<G>, draws: Draws, pair: Pair<G>)
    requires IsEvaluator(eval) && IsPositionPair(env, eval, start, draws, pair)
    ensures pair.finalScore.Some? && IsTrainingPair(env, eval, start, draws, pair)
    ensures IsPosition(env, eval, start, draws, pair.board)
  {
    var a: nat, p, s :| IsGame(env, eval, start, draws, a, p, s) && pair.board in p && IsAugmented(env, eval, draws, pair, s);
  }

  /** A choice pair from a position of a game from `start` is a training pair
      with a defined score. */
  lemma ChoicePairIsTrainingPair<G(!new)>(env: Env<G>, eval: seq<Board<G>> -> seq<real>, start: Board<G>, draws: Draws,
                                          q: Board<G>, pair: Pair<G>)
    requires IsEvaluator(eval) && IsPosition(env, eval, start, draws, q) && IsChoicePair(env, eval, q, draws, pair)
    ensures pair.finalScore.Some? && IsTrainingPair(env, eval, start, draws, pair)
  {
  }

  /** The pairs of one game appended to training pairs are training pairs,
      each with a defined score. */
  lemma GamePairsExtend<G(!new)>(env: Env<G>, eval: seq<Board<G>> -> seq<real>, start: Board<G>, draws: Draws,
                                 data: seq<Pair<G>>, added: seq<Pair<G>>)
    requires IsEvaluator(eval)
    requires forall k :: 0 <= k < |data| ==> data[k].finalScore.Some?
    requires forall k :: 0 <= k < |data| ==> IsTrainingPair(env, eval, start, draws, data[k])
    requires 1 <= |added| <= 2 && IsPositionPair(env, eval, start, draws, added[0])
    requires |added| == 2 ==> IsChoicePair(env, eval, added[0].board, draws, added[1])
    ensures forall k :: 0 <= k < |data + added| ==> (data + added)[k].finalScore.Some?
    ensures forall k :: 0 <= k < |data + added| ==> IsTrainingPair(env, eval, start, draws, (data + added)[k])
  {
    PositionPairIsTrainingPair(env, eval, start, draws, added[0]);
    if |added| == 2 {
      ChoicePairIsTrainingPair(env, eval, start, draws, added[0].board, added[1]);
    }
    forall k | |data| <= k < |data + added|
      ensures (data + added)[k].finalScore.Some? && IsTrainingPair(env, eval, start, draws, (data + added)[k])
    {
      assert (data + added)[k] == added[k - |data|];
    }
  }

  /** `generateTrainingData(evaluator, n)`: games until there are `n` pairs. */
  method GenerateTrainingData<G(!new)>(env: Env<G>, eval: seq<Board<G>> -> seq<real>, start: Board<G>, n: int, draws: Draws, at: nat)
    returns (r: Result<seq<Pair<G>>, string>, next: nat)
    requires IsEvaluator(eval) && draws.Valid()
    ensures r.Success? ==> |r.value| >= n
    ensures r.Success? ==> forall k :: 0 <= k < |r.value| ==> r.value[k].finalScore.Some?
    ensures r.Success? ==> forall k :: 0 <= k < |r.value| ==> IsTrainingPair(env, eval, start, draws, r.value[k])
    ensures r.Failure? ==> SampledGameFails(env, eval, start, draws, r.error)
  {
    var trainingData: seq<Pair<G>> := [];
    next := at;
    while |trainingData| < n
      invariant forall k :: 0 <= k < |trainingData| ==> trainingData[k].finalScore.Some?
      invariant forall k :: 0 <= k < |trainingData| ==> IsTrainingPair(env, eval, start, draws, trainingData[k])
      decreases n - |trainingData|
    {
      var added;
      added, next := TrainingGame(env, eval, start, draws, next);
      if added.Failure? {
        return Failure(added.error), next;
      }
      GamePairsExtend(env, eval, start, draws, trainingData, added.value);
      trainingData := trainingData + added.value;
    }
    r := Success(trainingData);
  }

  /** One game of `generateLookaheadTrainingData`: `samplesPerGame` random
      positions, each followed by a random choice from it when the drawn
      piece fits, all scored by `augmentLookahead`. */
  method LookaheadGame<G(!new)>(env: Env<G>, eval: seq<Board<G>> -> seq<real>, start: Board<G>, samplesPerGame: int, draws: Draws, at: nat)
    returns (r: Result<seq<Pair<G>>, string>, next: nat)
    requires IsEvaluator(eval) && draws.Valid()
    ensures r.Success? ==> samplesPerGame <= |r.value| && (samplesPerGame >= 0 ==> |r.value| <= 2 * samplesPerGame)
    ensures r.Success? ==> forall k :: 0 <= k < |r.value| ==>
      r.value[k].finalScore == MeanOrNaN(Entries(env, eval, r.value[k].board, List()))
    ensures r.Success? ==> forall k :: 0 <= k < |r.value| ==> IsSampled(env, eval, start, draws, r.value[k].board)
    ensures r.Failure? ==> GameFails(env, eval, start, draws, at, r.error)
  {
    var game;
    game, next := GenerateGameBoards(env, eval, start, draws, at);
    if game.Failure? {
      return Failure(game.error), next;
    }
    var positions := game.value.positions;
    var trainingData;
    trainingData, next := LookaheadPairs(env, eval, positions, samplesPerGame, draws, next);
    SampledFromGame(env, eval, start, draws, at, positions, game.value.finalScore, trainingData);
    r := Success(trainingData);
  }

  /** A pair of `generateLookaheadTrainingData` drawn from `positions`: a
      position or a placement from one, scored by `augmentLookahead`. */
  ghost predicate IsLookaheadPair<G(!new)>(env: Env<G>, eval: seq<Board<G>> -> seq<real>, positions: seq<Board<G>>, pair: Pair<G>)
    requires IsEvaluator(eval)
  {
    && pair.finalScore == MeanOrNaN(Entries(env, eval, pair.board, List()))
    && (pair.board in positions || IsPlacementFrom(env, positions, pair.board))
  }

  /** The sampling loop of `generateLookaheadTrainingData` over the
      positions of one game. */
  method LookaheadPairs<G(!new)>(env: Env<G>, eval: seq<Board<G>> -> seq<real>, positions: seq<Board<G>>, samplesPerGame: int,
                                 draws: Draws, at: nat)
    returns (pairs: seq<Pair<G>>, next: nat)
    requires IsEvaluator(eval) && draws.Valid() && |positions| > 0
    ensures samplesPerGame <= |pairs| && (samplesPerGame >= 0 ==> |pairs| <= 2 * samplesPerGame)
    ensures forall k :: 0 <= k < |pairs| ==> IsLookaheadPair(env, eval, positions, pairs[k])
  {
    pairs := [];
    next := at;
    var i := 0;
    while i < samplesPerGame
      invariant 0 <= i && (samplesPerGame >= 0 ==> i <= samplesPerGame)
      invariant i <= |pairs| <= 2 * i
      invariant forall k :: 0 <= k < |pairs| ==> IsLookaheadPair(env, eval, positions, pairs[k])
    {
      var randomPosition := positions[Pick(draws.uniform(next), |positions|)];
      next := next + 1;
      var p := AugmentLookahead(env, eval, randomPosition);
      var added := [p];
      var t := draws.piece(next);
      var choices := env.findChoices(randomPosition, t);
      next := next + 1;
      if |choices| > 0 {
        var randomChoice := choices[Pick(draws.uniform(next), |choices|)];
        next := next + 1;
        assert IsPlacementFrom(env, positions, randomChoice) by {
          assert randomPosition in positions && randomChoice in env.findChoices(randomPosition, t);
        }
        var q := AugmentLookahead(env, eval, randomChoice);
        added := added + [q];
      }
      assert forall k :: 0 <= k < |added| ==> IsLookaheadPair(env, eval, positions, added[k]);
      pairs := pairs + added;
      i := i + 1;
    }
  }

  /** Boards taken at positions of a game from `start`, or at placements
      from them, are sampled boards. */
  lemma SampledFromGame<G(!new)>(env: Env<G>, eval: seq<Board<G>> -> seq<real>, start: Board<G>, draws: Draws,
                                 a: nat, positions: seq<Board<G>>, s: real, pairs: seq<Pair<G>>)
    requires IsEvaluator(eval) && IsGame(env, eval, start, draws, a, positions, s)
    requires forall k :: 0 <= k < |pairs| ==> IsLookaheadPair(env, eval, positions, pairs[k])
    ensures forall k :: 0 <= k < |pairs| ==> IsSampled(env, eval, start, draws, pairs[k].board)
    ensures forall k :: 0 <= k < |pairs| ==> pairs[k].finalScore == MeanOrNaN(Entries(env, eval, pairs[k].board, List()))
  {
  }

  /** `generateLookaheadTrainingData(evaluator, n, samplesPerGame)`. With
      `samplesPerGame <= 0` and `n > 0` the source never stops, which this
      terminating method does not express. */
  method GenerateLookaheadTrainingData<G(!new)>(env: Env<G>, eval: seq<Board<G>> -> seq<real>, start: Board<G>, n: int,
                                                samplesPerGame: int, draws: Draws, at: nat)
    returns (r: Result<seq<Pair<G>>, string>, next: nat)
    requires IsEvaluator(eval) && draws.Valid()
    requires samplesPerGame > 0 || n <= 0
    ensures r.Success? ==> |r.value| >= n
    ensures r.Success? ==> forall k :: 0 <= k < |r.value| ==>
      r.value[k].finalScore == MeanOrNaN(Entries(env, eval, r.value[k].board, List()))
    ensures r.Success? ==> forall k :: 0 <= k < |r.value| ==> IsSampled(env, eval, start, draws, r.value[k].board)
    ensures r.Failure? ==> exists a: nat :: GameFails(env, eval, start, draws, a, r.error)
  {
    var trainingData: seq<Pair<G>> := [];
    next := at;
    while |trainingData| < n
      invariant forall k :: 0 <= k < |trainingData| ==>
        trainingData[k].finalScore == MeanOrNaN(Entries(env, eval, trainingData[k].board, List()))
      invariant forall k :: 0 <= k < |trainingData| ==> IsSampled(env, eval, start, draws, trainingData[k].board)
      decreases n - |trainingData|
    {
      var added;
      added, next := LookaheadGame(env, eval, start, samplesPerGame, draws, next);
      if added.Failure? {
        return Failure(added.error), next;
      }
      trainingData := trainingData + added.value;
    }
    r := Success(trainingData);
  }
}
