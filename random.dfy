// The program draws `Math.random()` values and random piece types. The model
// takes both as infinite input streams read through a cursor: a member that
// draws receives the cursor `at` and returns the next unread position.
module Random {
  import opened Pieces

  datatype Draws = Draws(uniform: nat -> real, piece: nat -> PieceType)
  {
    /** Every uniform draw lies in [0, 1), as `Math.random()` promises. */
    ghost predicate Valid() {
      forall k :: 0.0 <= uniform(k) < 1.0
    }
  }
}
