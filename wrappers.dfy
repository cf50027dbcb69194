/** Option and Result values standing in for Kotlin's nullable types and thrown exceptions. */
module Wrappers {

  /** A Kotlin `T?`: `None` is `null`. */
  datatype Option<+T> = None | Some(value: T)

  /** The outcome of an operation that may throw: `Failure` carries the exception it would raise. */
  datatype Result<+R, +E> = Success(value: R) | Failure(error: E)
}
