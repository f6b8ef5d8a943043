/** Optional values and success-or-failure results, used where the Go code returns
    a nil-able pointer or a `(value, error)` pair. */
module Wrappers {

  datatype Option<+T> = None | Some(value: T)

  datatype Result<+T, +E> = Success(value: T) | Failure(error: E)
}
