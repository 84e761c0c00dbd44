/** Option and Result: absence and failure as values. */
module Wrappers {

  /** `null`/`undefined` in JavaScript, `None` in Python. */
  datatype Option<+T> = None | Some(value: T) {
    function GetOr(default: T): T {
      match this
      case Some(v) => v
      case None => default
    }
  }

  /** A call that either yields a value or fails with an error (a thrown exception). */
  datatype Result<+T, +E> = Ok(value: T) | Err(error: E)
}
