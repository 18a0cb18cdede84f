/** How a run went, and which seeds broke. */
module Outcomes {
  /** What broke: something, on one line. */
  type Reason = r: string | r != [] && '\n' !in r && '\r' !in r witness "failed"

  datatype Outcome = Pass | Fail(reason: Reason, step: nat)

  /** The same failure, whatever step it surfaces at. A run that held up is the same as nothing. */
  predicate Reproduces(o: Outcome, original: Outcome) {
    o.Fail? && original.Fail? && o.reason == original.reason
  }

  /** A seed with an outcome that is a failure. */
  datatype AnyBroke = Broke(seed: nat, outcome: Outcome)
  type Broke = b: AnyBroke | b.outcome.Fail? witness Broke(0, Fail("failed", 0))
}
