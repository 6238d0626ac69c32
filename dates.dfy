// Points in time as the components compare them: `new Date(x)` is either a
// number of milliseconds or an Invalid Date, whose every `<` and `>`
// comparison is false.

module Dates {

  datatype Instant = At(ms: int) | InvalidDate

  /** `a < b` on two Date objects. */
  predicate Before(a: Instant, b: Instant) {
    a.At? && b.At? && a.ms < b.ms
  }

  /** `a <= b` on two Date objects (also false for an Invalid Date). */
  predicate NotAfter(a: Instant, b: Instant) {
    a.At? && b.At? && a.ms <= b.ms
  }
}
