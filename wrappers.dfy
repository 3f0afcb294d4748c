/** Option and Result, standing in for JavaScript's null/undefined and Java's
    null returns and thrown exceptions. */
module Wrappers {

  datatype Option<+T> = None | Some(value: T)

  /** The outcome of a call that either returns a value or throws an exception
      carrying a message. */
  datatype Result<+T> = Ok(value: T) | Err(message: string)
}
