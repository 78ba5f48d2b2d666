/** Option and Result, the model's stand-ins for a nullable reference and for a thrown exception. */
module Wrappers {

  /** None plays the role of a null reference. */
  datatype Option<+T> = None | Some(value: T)

  /** Failure carries the exception a call would have thrown. */
  datatype Result<+R, +E> = Success(value: R) | Failure(error: E)
}
