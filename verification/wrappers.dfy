/** Optional values and fallible results, standing in for Go's nil-able
    `error` values and its `(value, error)` return pairs. */
module Wrappers {

  /** A value that may be absent (a nil `error` is `None`). */
  datatype Option<+T> = None | Some(value: T)

  /** Either a value or the error that prevented computing it. */
  datatype Result<+R, +E> = Success(value: R) | Failure(error: E)
}
