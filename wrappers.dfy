/** Optional values (Java's nullable references) and results with a failure
    value (Java's thrown exceptions), shared by every module of the model. */
module Wrappers {

  datatype Option<+T> = None | Some(value: T)

  datatype Result<+R, +E> = Success(value: R) | Failure(error: E)
}
