/** Result types for operations that may fail or find nothing. */
module Wrappers {

  datatype Option<+T> = None | Some(value: T) {
    function GetOr(default: T): T {
      match this
      case Some(v) => v
      case None => default
    }
  }

  datatype Result<+T, +E> = Ok(value: T) | Err(error: E)

  /** For operations that raise on bad input and may also return nothing. */
  datatype Outcome<+T, +E> = Found(value: T) | Nothing | Raised(error: E)
}
