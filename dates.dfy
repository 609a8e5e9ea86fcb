/**
 * Dates as the application sees them. The host's `Date` parser and ISO
 * formatter are not modelled: a date is an integer count of milliseconds,
 * and the outcome of parsing a piece of text is handed to the model as input.
 */
module Dates {
  import opened Wrappers

  /** A JavaScript `Date` value: a timestamp, or the "Invalid Date" that parsing bad text yields. */
  datatype Instant = Valid(ms: int) | InvalidDate

  /** Text received from a form or a request, together with what `new Date(text)` makes of it. */
  datatype DateText = DateText(text: string, parsed: Instant)

  /** The optional date text is truthy: present and not "". */
  predicate Given(d: Option<DateText>) {
    d.Some? && d.value.text != ""
  }

  /** `new Date(text).toISOString()` throws a RangeError on text that is given but not a date. */
  predicate IsoThrows(d: Option<DateText>) {
    Given(d) && d.value.parsed.InvalidDate?
  }

  /** `a >= b` on two `Date` objects: compares their numeric values, and anything compared with NaN is false. */
  predicate AtLeast(a: Instant, b: Instant) {
    a.Valid? && b.Valid? && a.ms >= b.ms
  }

  /** `a <= b` on two `Date` objects. */
  predicate AtMost(a: Instant, b: Instant) {
    AtLeast(b, a)
  }
}
