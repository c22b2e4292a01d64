/** Option and Result values for the client's "None" returns and raised exceptions. */
module Wrappers {

  datatype Option<+T> = None | Some(value: T)

  /** `Failure` stands for an exception the source raises to its caller. */
  datatype Result<+T, +E> = Success(value: T) | Failure(error: E)

  /** An operation that either completes or raises. */
  datatype Outcome<+E> = Pass | Fail(error: E)
}
