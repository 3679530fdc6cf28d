/** Failure-carrying result types shared by every module of the model. */
module Wrappers {

  /** A value that may be absent; stands for a JavaScript `T | null` return. */
  datatype Option<+T> = None | Some(value: T)

  /** The outcome of a call that either returns a value or throws. */
  datatype Result<+T, +E> = Ok(value: T) | Err(error: E)
}
