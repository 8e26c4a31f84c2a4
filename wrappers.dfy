/** Option and Result, used for Java's nullable values and for the
    ResourceNotFoundException error path of the service. */
module Wrappers {

  datatype Option<+T> = None | Some(value: T)

  datatype Result<+T, +E> = Success(value: T) | Failure(error: E)
}
