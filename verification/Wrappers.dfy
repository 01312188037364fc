/** The optional values and fallible results that the other modules share. */
module Wrappers {

  /** A value that may be absent: `undefined` and `null` in the source. */
  datatype Option<+T> = None | Some(value: T) {
    function GetOr(default: T): T {
      match this
      case Some(v) => v
      case None => default
    }
  }

  /** A returned value, or the exception that took its place. */
  datatype Result<+T, +E> = Success(value: T) | Failure(error: E)
}
