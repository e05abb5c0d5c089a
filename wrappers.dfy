/** Option and Result, the two shapes every script's outcomes take. */
module Wrappers {

  /** A value that may be missing (Python's None). */
  datatype Option<+T> = None | Some(value: T) {
    function GetOr(default: T): T {
      match this
      case Some(v) => v
      case None => default
    }
  }

  /** A value or the error (exception) that replaced it. */
  datatype Result<+T, +E> = Ok(value: T) | Err(error: E)
}
