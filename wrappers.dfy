/** Optional values and results with an error, as used throughout the model. */
module Wrappers {

  /** A value that a JavaScript expression may leave `undefined`/`null`. */
  datatype Option<+T> = None | Some(value: T) {
    function GetOr(default: T): T {
      match this
      case Some(v) => v
      case None => default
    }
  }

  /** The outcome of a call that either returns a value or throws/returns an error. */
  datatype Result<+T, +E> = Ok(value: T) | Err(error: E)
}
