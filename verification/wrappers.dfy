/** Failure-compatible optional values shared by every module of the model. */
module Wrappers {

  /** A value that may be absent: a regex that did not match, a lookup that failed. */
  datatype Option<+T> = None | Some(value: T) {

    /** The wrapped value, or `default` when there is none. */
    function GetOr(default: T): T {
      match this
      case Some(v) => v
      case None => default
    }
  }

  /** The result of a computation during which Python may raise: its value,
      or `Raises` when an exception escapes. */
  datatype Outcome<+T> = Ok(value: T) | Raises
}
