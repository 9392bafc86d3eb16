/** Option and Result values used where the JavaScript code returns null,
    undefined or throws. */
module Wrappers {

  /** An optional value: `None` stands for JavaScript's null or undefined. */
  datatype Option<+T> = None | Some(value: T) {
    function GetOr(default: T): T {
      match this
      case Some(v) => v
      case None => default
    }
  }

  /** The outcome of an operation that may throw: `Err` carries the
      error's message, as the code's `catch` blocks read `error.message`. */
  datatype Result<+T> = Ok(value: T) | Err(error: string)
}
