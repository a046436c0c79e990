/** Failure-carrying result type used where the library throws. */
module Wrappers {

  /** Either the value an operation produced, or the error it raised. */
  datatype Result<+R, +E> = Success(value: R) | Failure(error: E)
}
