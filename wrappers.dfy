/** Option and Result, the two ways the model reports absence and failure. */
module Wrappers {

  datatype Option<+T> = None | Some(value: T)

  /** A Go `(value, error)` pair: an error is carried as its message. */
  datatype Result<+T> = Ok(value: T) | Err(msg: string)
}
