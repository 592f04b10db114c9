/** Option and Result, used for JavaScript's "maybe undefined" lookups and for Java's exceptions. */
module Wrappers {

  datatype Option<+T> = None | Some(value: T)

  /** A Java call either returns a value or throws; `Failure` carries the thrown exception. */
  datatype Result<+R, +E> = Success(value: R) | Failure(error: E)
}
