/** Option and Result values standing for Java's nullable references and thrown errors. */
module Wrappers {

  /** A Java reference that may be null. */
  datatype Option<+T> = None | Some(value: T)

  /** The outcome of a call that may throw: a value, or the message of the error. */
  datatype Result<+T> = Ok(value: T) | Err(error: string)
}
