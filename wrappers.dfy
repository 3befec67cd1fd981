/** Failure-carrying datatypes used for the raised exceptions of the model. */
module Wrappers {

  /** A value that may be absent, such as Python's `None` default argument. */
  datatype Option<+T> = None | Some(value: T)

  /** A function result or the exception it raised. */
  datatype Result<+R, +E> = Success(value: R) | Failure(error: E)

  /** Completion of a procedure that returns nothing, or the exception it raised. */
  datatype Outcome<+E> = Pass | Fail(error: E)
}
