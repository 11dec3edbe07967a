/** The ranges the pilot verifier accepts for token counts and costs. */
module PilotBounds {

  predicate Bounded(tokens: int) {
    0 <= tokens <= 1000000000000
  }

  predicate BoundedCost(cost: real) {
    0.0 <= cost <= 1000000000000000.0
  }
}
