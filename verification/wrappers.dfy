/** Optional values and results with an error message, used for the lookups
    and the exceptions of the image displayables. */
module Wrappers {

  datatype Option<+T> = None | Some(value: T)

  datatype Result<+R, +E> = Success(value: R) | Failure(error: E)
}
