/** Option and Result, the two wrappers the model uses for absent values and settled promises. */
module Wrappers {

  datatype Option<+T> = None | Some(value: T)

  /** A settled promise: fulfilled with a value, or rejected with an error. */
  datatype Result<+R, +E> = Success(value: R) | Failure(error: E)
}
