/** Optional values and success/failure results, used for Python's `None`
    and for the exceptions a request handler can raise. */
module Wrappers {

  datatype Option<+T> = None | Some(value: T)

  datatype Result<+R, +E> = Success(value: R) | Failure(error: E)
}
