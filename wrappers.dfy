/** Option and Result: the model's stand-ins for Python's `None` defaults and raised exceptions. */
module Wrappers {

  datatype Option<+T> = None | Some(value: T) {
    function GetOr(default: T): T {
      match this
      case Some(v) => v
      case None => default
    }
  }

  /** `Err` stands for an exception that the program raises and does not catch. */
  datatype Result<+T, +E> = Ok(value: T) | Err(error: E)
}
