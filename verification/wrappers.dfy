/** `Option` and `Result`, shared by every module of the model. */
module Wrappers {

  /** A value that may be absent: Go's `nil` error, or a lookup that found nothing. */
  datatype Option<+T> = None | Some(value: T)

  /** The outcome of a foreign operation that yields a value or fails with an error. */
  datatype Result<+R, +E> = Success(value: R) | Failure(error: E)
}
