/** Option and Result, used wherever the source returns `undefined`/`null` or throws. */
module Wrappers {

  datatype Option<+T> = None | Some(value: T) {
    function GetOr(default: T): T {
      match this
      case Some(v) => v
      case None => default
    }
  }

  /** `Err` carries the name of the JavaScript error the source throws and its message. */
  datatype Result<+T> = Ok(value: T) | Err(kind: ErrorKind, message: string) {
    predicate IsOk() { Ok? }
  }

  /** The error classes the modelled code throws. */
  datatype ErrorKind = TypeError | RangeError | SyntaxError | UserError | Timeout
}
