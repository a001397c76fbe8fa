/** Failure-carrying values: a lookup that may miss and a computation that may throw. */
module Wrappers {

  datatype Option<+T> = None | Some(value: T)

  /** `Err` carries the message of the exception the JavaScript code would have thrown. */
  datatype Result<+T, +E> = Ok(value: T) | Err(error: E)
}
