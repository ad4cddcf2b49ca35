/** Option and Result, the two failure-carrying wrappers used across the model. */
module Wrappers {

  /** A value that may be absent: JavaScript's `null`/`undefined` on the way in. */
  datatype Option<+T> = None | Some(value: T) {
    function GetOr(default: T): T {
      match this
      case Some(v) => v
      case None => default
    }
  }

  /** The outcome of an operation that may throw: `Err` carries the error text. */
  datatype Result<+T> = Ok(value: T) | Err(error: string)
}
