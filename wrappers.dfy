/** Option, Result and Outcome: the value-or-failure shapes the model returns. */
module Wrappers {

  datatype Option<+T> = None | Some(value: T) {
    /** The value, or `default` when absent. */
    function GetOr(default: T): T {
      match this
      case Some(v) => v
      case None => default
    }
  }

  /** The outcome of a handler that answers with a value. */
  datatype Result<+T, +E> = Ok(value: T) | Err(error: E)

  /** The outcome of a handler that answers with no body (HTTP 204). */
  datatype Outcome<+E> = Pass | Fail(error: E)
}
