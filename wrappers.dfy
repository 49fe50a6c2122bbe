/** Option and Result, used for JavaScript's `undefined` returns and for thrown errors. */
module Wrappers {

  datatype Option<+T> = None | Some(value: T) {
    function GetOr(default: T): T {
      match this
      case Some(v) => v
      case None => default
    }
  }

  /** `Ok(v)` is a normal return; `Err(e)` is an exception thrown with `e`. */
  datatype Result<+T, +E> = Ok(value: T) | Err(error: E)
}
