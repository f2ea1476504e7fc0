/** Option and Result: the absent value and the raised error of the modelled code. */
module Wrappers {

  /** `None` stands for Python's `None`. */
  datatype Option<+T> = None | Some(value: T) {
    function GetOr(default: T): T {
      match this
      case Some(v) => v
      case None => default
    }
  }

  /** `Err` stands for an exception raised by a constructor's validation. */
  datatype Result<+T, +E> = Ok(value: T) | Err(error: E)
}
