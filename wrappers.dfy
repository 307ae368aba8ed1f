/** Option and Result, used for Kotlin's nullable values and for its exceptions. */
module Wrappers {

  /** A Kotlin `T?`: `None` is `null`. */
  datatype Option<+T> = None | Some(value: T)

  /** The outcome of an operation that throws on bad input. */
  datatype Result<+R, +E> = Success(value: R) | Failure(error: E)
}
