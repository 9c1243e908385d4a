/** Option and Result, used for JavaScript's `undefined`/`null` and for thrown errors. */
module Wrappers {

  datatype Option<+T> = None | Some(value: T)

  /** A settled promise or a `try` block: either a value or the message of the thrown error. */
  datatype Result<+T> = Ok(value: T) | Err(message: string)
}
