/** Failure-carrying values shared by every module of the model. */
module Wrappers {

  /** A value that may be absent (Python `None`, JavaScript `undefined`). */
  datatype Option<+T> = None | Some(value: T) {
    function GetOr(default: T): T {
      match this
      case Some(v) => v
      case None => default
    }
  }

  /** The outcome of an operation that can raise: the value, or the text of the error. */
  datatype Outcome<+T> = Ok(value: T) | Err(error: string)
}
