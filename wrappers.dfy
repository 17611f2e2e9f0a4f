/** Result types standing in for the exceptions thrown by the persistence layer
    (`firstOrFail`, `findOrFail`) and by the PHP runtime. */
module Wrappers {

  datatype Option<+T> = None | Some(value: T)

  datatype Result<+R, +E> = Success(value: R) | Failure(error: E)

  /** A result without a value: the outcome of an operation run for its effect. */
  datatype Outcome<+E> = Pass | Fail(error: E)
}
