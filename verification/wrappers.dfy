/** Optional and success-or-failure values, used where the source has
    `null`/`undefined` or throws. */
module Wrappers {

  /** A value that may be absent (`null`, `undefined` or `None` in the source). */
  datatype Option<+T> = None | Some(value: T)

  /** The outcome of an operation that either returns a value or fails. */
  datatype Result<+R, +E> = Success(value: R) | Failure(error: E)
}
