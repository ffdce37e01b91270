/** The Option and Result types used throughout the model. */
module Wrappers {

  datatype Option<+T> = None | Some(value: T)

  /** A Rust `Result` whose error is only described, not modelled. */
  datatype Result<+T> = Success(value: T) | Failure(error: string)
}
