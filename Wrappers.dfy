/** Failure-carrying values used in place of null references and exceptions. */
module Wrappers {

  /** A value that may be absent (a C# null reference). */
  datatype Option<+T> = None | Some(value: T)

  /** The value an operation returns, or the exception it throws. */
  datatype Result<+R, +E> = Success(value: R) | Failure(error: E)

  /** Completion of an operation that returns nothing, or the exception it throws. */
  datatype Outcome<+E> = Pass | Fail(error: E)
}
