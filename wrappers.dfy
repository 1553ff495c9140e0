// Option and Result: the model's stand-ins for Python's `None` and for
// operations that either return a value or raise an exception.
module Wrappers {

  datatype Option<+T> = None | Some(value: T) {

    /** The value, or `default` when there is none. */
    function GetOr(default: T): T {
      match this
      case Some(v) => v
      case None => default
    }
  }

  /** `Ok(value)` for a normal return, `Err(error)` for a raised exception. */
  datatype Result<+T, +E> = Ok(value: T) | Err(error: E)
}
