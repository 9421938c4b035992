/** Failure-carrying values shared by every module of the model. */
module Wrappers {

  /** A value that may be absent: a JavaScript `undefined` on the `None` side. */
  datatype Option<+T> = None | Some(value: T)

  /** The outcome of an operation that may throw. */
  datatype Result<+T, +E> = Ok(value: T) | Err(error: E)
}
