/** Results that may be absent or may fail. */
module Wrappers {
  /** A Go pointer field: nil is None. */
  datatype Option<+T> = None | Some(value: T) {
    function GetOr(default: T): T {
      if Some? then value else default
    }
  }

  /** A Go `(value, error)` pair. */
  datatype Result<+T, +E> = Ok(value: T) | Err(error: E)
}
