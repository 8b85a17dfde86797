/** Option and Result, the two failure-carrying datatypes the model uses for
    Java's nullable references and thrown IllegalArgumentExceptions. */
module Wrappers {

  datatype Option<+T> = None | Some(value: T)

  datatype Result<+R, +E> = Success(value: R) | Failure(error: E)
}
