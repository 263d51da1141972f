/** Failure-carrying datatypes used across the model: `Option` stands for a
    value that may be a C# null, `Result` for an operation that either returns
    a value or throws. */
module Wrappers {

  /** A possibly-null value: `None` is C#'s null. */
  datatype Option<+T> = None | Some(value: T)

  /** The outcome of an operation that may throw: `Failure` carries the
      exception that escaped. */
  datatype Result<+R, +E> = Success(value: R) | Failure(error: E)
}
