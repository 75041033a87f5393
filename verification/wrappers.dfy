/** Failure-carrying datatypes used to model Swift optionals and `throws`. */
module Wrappers {

  /** A Swift optional: either absent or a present value. */
  datatype Option<+T> = None | Some(value: T)

  /** The outcome of a Swift function that `throws`: a returned value or the thrown error. */
  datatype Result<+T, +E> = Success(value: T) | Failure(error: E)
}
