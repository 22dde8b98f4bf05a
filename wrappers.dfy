/** Wrappers: Option stands for a Java reference that may be
    null, Outcome for a void method that may throw, Result for a method that
    returns a value or throws. */
module Wrappers {

  datatype Option<+T> = None | Some(value: T)

  datatype Outcome<+E> = Pass | Fail(error: E)

  datatype Result<+T, +E> = Success(value: T) | Failure(error: E)
}
