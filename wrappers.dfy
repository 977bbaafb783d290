/** Optional values and success-or-error results, used where the Go code
    returns a possibly-nil value or a `(value, error)` pair. */
module Wrappers {

  datatype Option<+T> = None | Some(value: T)

  datatype Result<+T, +E> = Success(value: T) | Failure(error: E)
}
