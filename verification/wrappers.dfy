/** Option and Result values standing in for JavaScript's `undefined`/`null`
    and for thrown errors. */
module Wrappers {

  /** A value that may be absent (`undefined` or `null` in the source). */
  datatype Option<+T> = None | Some(value: T) {

    /** `x ?? d`: the value when present, otherwise the default. */
    function GetOr(default: T): T {
      match this
      case Some(v) => v
      case None => default
    }
  }

  /** The outcome of an operation that can throw: either a value or the
      error message it throws. */
  datatype Result<+T> = Ok(value: T) | Err(message: string)
}
