/** Go's nil-able values and `(value, error)` results. */
module Wrappers {
  /** A value that may be nil, such as a reference, a function or a map. */
  datatype Option<T> = None | Some(value: T)

  /** A value, or the message of the error returned instead. */
  datatype Result<T> = Success(value: T) | Failure(error: string)
}
