/** Optional values and success/failure results shared by every module. */
module Wrappers {

  /** A value that may be absent: the model's stand-in for JavaScript null/undefined. */
  datatype Option<+T> = None | Some(value: T) {
    function GetOr(default: T): T {
      match this
      case Some(v) => v
      case None => default
    }
  }

  /** The outcome of a request handler: a value, or the HTTP status and reason it answers with. */
  datatype Result<+T, +E> = Ok(value: T) | Err(error: E)
}
