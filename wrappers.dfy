/** Optional values and success/failure results, standing in for Python's
    `None` and for exceptions raised across a call boundary. */
module Wrappers {

  datatype Option<+T> = None | Some(value: T)

  datatype Result<+R, +E> = Success(value: R) | Failure(error: E)
}
