/** Optional values and results with an error, as used throughout the model. */
module Wrappers {

  /** A value that may be absent: JavaScript's `null`/`undefined`. */
  datatype Option<+T> = None | Some(value: T) {
    function GetOr(default: T): T {
      match this
      case Some(v) => v
      case None => default
    }
  }

  /** The outcome of a handler: either the payload it would send, or the
      message it shows before returning early. */
  datatype Result<+T, +E> = Ok(value: T) | Err(error: E)
}
