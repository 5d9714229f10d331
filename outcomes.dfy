/** Optional values and the settled outcome of a listing promise. */
module Outcomes {

  /** A value that may be absent (JavaScript `undefined`). */
  datatype Option<+T> = None | Some(value: T) {

    /** The value, or `default` when absent (JavaScript `x || default` on objects). */
    function GetOr(default: T): T {
      match this
      case Some(v) => v
      case None => default
    }
  }

  /** A promise that resolved with a value or was rejected with an error message. */
  datatype Result<+T> = Ok(value: T) | Failure(message: string)
}
