/** Small failure-carrying datatypes shared by every module of the model. */
module Wrappers {

  /** A value that may be absent (an optional property, `undefined`, `null`). */
  datatype Option<+T> = None | Some(value: T)

  /** The settled state of a promise that yields a value: resolved, or rejected with a message. */
  datatype Result<+T> = Ok(value: T) | Err(message: string)

  /** The settled state of a promise that yields nothing. */
  datatype Outcome = Pass | Fail(message: string)
}
