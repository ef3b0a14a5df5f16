// The tuning constants the core reads (the values of src/hyperParams.ts).
module HyperParams {

  /** Rollouts averaged per deep sample (`nPlayoutsToAvg`). */
  const NPlayoutsToAvg: nat := 100

  /** Line horizon of a fresh game (`stdMaxLines`). */
  const StdMaxLines: nat := 130

  /** Boards taller than this are not played further (`artificialHeightLimit`). */
  const ArtificialHeightLimit: int := 15

  /** Deep and lookahead samples drawn from each rollout. */
  const DeepSamplesPerGame: nat := 0
  const LookaheadSamplesPerGame: nat := 10

  /** Width of the move-prediction output layer (`evalNodeCount`). */
  const EvalNodeCount: nat := 44

  /** `validationSplit` = 0.2 = 1/5. */
  const ValidationSplit: real := 0.2

  /** `Math.ceil(n * validationSplit)` computed exactly. */
  function ValCount(n: int): (k: int)
    ensures k as real >= n as real * ValidationSplit
    ensures (k as real) - 1.0 < n as real * ValidationSplit
    ensures n >= 0 ==> 0 <= k <= n
  {
    (n + 4) / 5
  }
}
