/** Optional values (Go's nil pointers) and error-or-value results (Go's `(T, error)` pairs). */
module Wrappers {

  datatype Option<+T> = None | Some(value: T)

  datatype Result<+T, +E> = Success(value: T) | Failure(error: E)
}
