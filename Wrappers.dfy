/** Optional values and results with an error, for the places where the scripts get
    `None` back or an exception escapes. */
module Wrappers {

  datatype Option<+T> = None | Some(value: T)

  datatype Result<+T, +E> = Success(value: T) | Failure(error: E)
}
