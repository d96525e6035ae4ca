/** Option and Result: absent values (Python's None) and error returns. */
module Wrappers {

  datatype Option<+T> = None | Some(value: T) {
    /** `x or default` for an optional value. */
    function GetOr(default: T): T {
      match this
      case Some(v) => v
      case None => default
    }
  }

  datatype Result<+R, +E> = Ok(value: R) | Err(error: E)
}
