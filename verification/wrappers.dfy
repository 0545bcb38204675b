/** Failure-carrying results shared by the flipper and lamp models. */
module Wrappers {

  /** A value that may be absent (a null reference, a missing parent). */
  datatype Option<+T> = None | Some(value: T)

  /** The outcome of an operation that can throw: its value or the error it raises. */
  datatype Result<+T, +E> = Ok(value: T) | Err(error: E)
}
