/** Optional values and results with an error, used for the nullable columns
    and for the exceptions the service throws. */
module Common {

  datatype Option<+T> = None | Some(value: T)

  datatype Result<+T, +E> = Success(value: T) | Failure(error: E)
}
