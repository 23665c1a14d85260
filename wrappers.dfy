/** Values for operations that may produce nothing or fail. */
module Wrappers {

  /** A value that may be absent: JavaScript's `null`/`undefined` results. */
  datatype Option<+T> = None | Some(value: T)

  /** A value or the error that was thrown instead of it. */
  datatype Result<+T, +E> = Success(value: T) | Failure(error: E)
}
