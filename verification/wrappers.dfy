/** Failure-compatible wrappers shared by every module of the model. */
module Wrappers {

  /** A value that may be absent; Python's `None` versus a value. */
  datatype Option<+T> = None | Some(value: T) {
    function GetOr(default: T): T {
      match this
      case Some(v) => v
      case None => default
    }
  }

  /** Either a success payload or an error message; a plugin handler's
      `{"error": message}` dictionary is `Failure(message)`. */
  datatype Result<+R, +E> = Success(value: R) | Failure(error: E)
}
