/** Optional values and success/failure results, used for the nullable
    references and the thrown exceptions of the uploader. */
module Wrappers {

  datatype Option<+T> = None | Some(value: T)

  datatype Result<+R, +E> = Success(value: R) | Failure(error: E)
}
