/** The numbers `Math.random()` returns, which the model takes as parameters. */
module Draws {
  /** A value `Math.random()` can return: in [0, 1). */
  predicate IsDraw(r: real) { 0.0 <= r < 1.0 }
}
