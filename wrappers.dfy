/** Option and Result values used across the model in place of C#'s null and exceptions. */
module Wrappers {

  /** A value that may be absent (C#'s null). */
  datatype Option<+T> = None | Some(value: T)

  /** Either a value or the error that stopped the computation (an exception in C#). */
  datatype Result<+R, +E> = Success(value: R) | Failure(error: E)
}
