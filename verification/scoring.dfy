/**
 The shared scoring primitive. The piecewise-linear `scoring_function` and
 `clamp_score_zero_to_one` of the heuristic base class are not part of this model:
 they are supplied as an opaque `Scorer`, and no property of the model depends on
 their shape or range.
 */
module Scoring {

  /** The six arguments every analyzer passes to `scoring_function`, in its order:
      normal range, scores at its ends, and the two multipliers of the outer ramps. */
  datatype Rule = Rule(
    minValue: real, maxValue: real,
    minScore: real, maxScore: real,
    minOfMin: real, maxOfMax: real)

  datatype Scorer = Scorer(score: (real, Rule) -> real, clamp: real -> real)
}
