/** Small value wrappers shared by every module of the model. */
module Wrappers {

  /** A value that may be missing: JavaScript `null`/`undefined`, Python `None`. */
  datatype Option<+T> = None | Some(value: T) {
    function GetOr(default: T): T {
      match this
      case Some(v) => v
      case None => default
    }
  }

  /** The outcome of one awaited call to the remote API: the decoded body, or a
      rejection (network error, 4xx or 5xx). */
  datatype Remote<+T> = Ok(value: T) | Fail
}
