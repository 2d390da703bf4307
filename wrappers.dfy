/** Optional values and results with an error payload, used for Python's
    `X | None` and for functions that either return or raise. */
module Wrappers {

  datatype Option<+T> = None | Some(value: T)

  datatype Result<+T, +E> = Success(value: T) | Failure(error: E)
}
