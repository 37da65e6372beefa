/** Failure-carrying results for the operations of the model that throw in the source. */
module Results {

  /** `Some(value)` or nothing; used where the source keeps a nullable reference. */
  datatype Option<+T> = None | Some(value: T)

  /** A value of an operation, or the reason it threw. */
  datatype Result<+T, +E> = Ok(value: T) | Err(error: E)
}

/** A pair of reals `(first, second)`: a key border `(left, right)` or a note span `(top, bottom)`. */
module Spans {

  datatype Span = Span(first: real, second: real)

  /** `first <= second`. */
  predicate WellFormed(s: Span)
  {
    s.first <= s.second
  }

  predicate AllWellFormed(s: seq<Span>)
  {
    forall i :: 0 <= i < |s| ==> WellFormed(s[i])
  }

  function Length(s: Span): real
  {
    s.second - s.first
  }
}
