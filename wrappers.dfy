/** Option and Result values used for the source's `undefined`/`null` and its thrown errors. */
module Wrappers {

  /** A value that may be absent (`undefined` or `null` in the source). */
  datatype Option<+T> = None | Some(value: T) {
    function GetOr(default: T): T {
      match this
      case Some(v) => v
      case None => default
    }
  }

  /** The outcome of an operation that can throw: a value, or the message it throws. */
  datatype Result<+T> = Ok(value: T) | Err(message: string)
}
