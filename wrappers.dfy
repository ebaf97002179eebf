/** Option and Result, the two failure-carrying datatypes the model uses. */
module Wrappers {

  /** A value that may be absent (a nullable reference in the source). */
  datatype Option<+T> = None | Some(value: T)

  /** The outcome of an operation that can throw instead of returning. */
  datatype Result<+T, +E> = Success(value: T) | Failure(error: E)
}
