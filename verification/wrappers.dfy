/** Explicit stand-ins for the JavaScript `throw new Error(message)` control flow. */
module Wrappers {

  datatype Option<+T> = None | Some(value: T)

  /** The outcome of a check that returns nothing or throws an Error with `message`. */
  datatype Check = Pass | Fail(message: string)

  /** The outcome of an operation that returns `value` or throws an Error with `message`. */
  datatype Result<+T> = Ok(value: T) | Err(message: string)
}
