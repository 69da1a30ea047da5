/** Optional values and results with an error, as used across the model. */
module Wrappers {

  /** A value that may be missing: SQL NULL, a JavaScript null/undefined, an absent storage key. */
  datatype Option<+T> = None | Some(value: T) {
    function GetOr(default: T): T {
      match this
      case Some(v) => v
      case None => default
    }
  }

  /** The outcome of a request handler: a success value or an HTTP error status with its message. */
  datatype Result<+R> = Ok(value: R) | Err(code: nat, message: string)
}
