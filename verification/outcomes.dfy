/** Option and Result values, used where the Python code returns None or raises. */
module Outcomes {

  /** A value that may be absent (Python's `None`). */
  datatype Option<+T> = None | Some(value: T) {
    function GetOr(default: T): T {
      match this
      case Some(v) => v
      case None => default
    }
  }

  /** Either a value or the error that the Python code raises instead of returning. */
  datatype Result<+T, +E> = Ok(value: T) | Err(error: E)
}
