/** What the two circuit breakers have in common. Times are nanoseconds. */
module Breakers {
  const SECOND := 1000000000

  datatype Phase = Closed | Open | HalfOpen

  /** The documented diagram, plus the manual reset. */
  predicate Documented(before: Phase, after: Phase, manual: bool) {
    || before == after
    || (before == Closed && after == Open)
    || (before == Open && after == HalfOpen)
    || (before == HalfOpen && (after == Closed || after == Open))
    || (manual && after == Closed)
  }

  /** One call made while no other is running: admitted or not at `start`, and if
      admitted, finished at `end`. */
  datatype Request = Request(start: int, end: int, succeeds: bool)

  datatype Config = Config(maxFailures: int, resetTimeout: int, halfOpenLimit: int)
  {
    ghost predicate Valid() {
      maxFailures >= 1 && resetTimeout >= 1 && halfOpenLimit >= 1
    }
  }
}
