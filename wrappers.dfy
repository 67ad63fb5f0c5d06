/** Failure-carrying datatypes shared by the model: Java's null and Java's exceptions are
    represented by these instead of by preconditions. */
module Wrappers {

  /** A value that may be absent: Java's null reference. */
  datatype Option<+T> = None | Some(value: T)

  /** The end of a call that returns nothing: it completes normally or fails with an error. */
  datatype Outcome<+E> = Pass | Fail(error: E)

  /** The end of a call that returns a value: the value, or the error it fails with. */
  datatype Result<+T, +E> = Success(value: T) | Failure(error: E)
}
