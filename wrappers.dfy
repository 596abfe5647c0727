/** Failure-carrying values used by every module of the model. */
module Wrappers {

  datatype Option<+T> = None | Some(value: T)

  /** The outcome of an operation that can fail; `Failure` stands for an `Err`
      that the program propagates with `?` or turns into a panic with `unwrap`. */
  datatype Result<+T, +E> = Success(value: T) | Failure(error: E)
}
