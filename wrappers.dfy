/** Option and Result, used for JavaScript's `undefined`/`null` values and thrown errors. */
module Wrappers {

  datatype Option<+T> = None | Some(value: T)

  datatype Result<+R, +E> = Success(value: R) | Failure(error: E)

  /** JavaScript's `!x` for a string that may be `null` or absent: no value, or "". */
  predicate IsFalsy(x: Option<string>)
    ensures !IsFalsy(x) ==> x.Some? && |x.value| > 0
  {
    x.None? || x.value == ""
  }
}
