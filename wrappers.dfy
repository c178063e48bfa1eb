/** Failure-carrying result types shared by the modules of the scanner model. */
module Wrappers {

  /** A value that may be absent, as Python's `None` or an empty match. */
  datatype Option<+T> = None | Some(value: T)

  /** The outcome of a call that may raise: a value, or the error it raises. */
  datatype Result<+T, +E> = Success(value: T) | Failure(error: E)
}
