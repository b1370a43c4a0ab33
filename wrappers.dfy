/** Small wrapper types shared by the whole model. */
module Wrappers {

  /** A value that may be absent: Python's `None`, or a dictionary key that is
      not present. */
  datatype Option<+T> = None | Some(value: T) {

    /** The value, or `default` when absent: `d.get(key, default)`. */
    function GetOr(default: T): T {
      match this
      case Some(v) => v
      case None => default
    }
  }

  /** The outcome of one HTTP exchange: the decoded JSON body, or a failure
      (connection error, timeout, non-2xx status, body that is not JSON). */
  datatype Fetch<+T> = Ok(payload: T) | Fail
}
