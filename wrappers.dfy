/** Option and Result, the two failure-carrying wrappers the model uses. */
module Wrappers {

  datatype Option<+T> = None | Some(value: T)

  /** The outcome of a Python call that either returns or raises. */
  datatype Result<+R, +E> = Success(value: R) | Failure(error: E)
}
