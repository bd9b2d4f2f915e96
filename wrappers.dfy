/** Option and Result, the two failure-carrying types the engine returns. */
module Wrappers {

  datatype Option<+T> = None | Some(value: T) {
    function GetOr(default: T): T {
      match this
      case Some(v) => v
      case None => default
    }
  }

  /** Rust's `Result<T, E>`: a validator returns exactly one of a value or an error. */
  datatype Result<+T, +E> = Ok(value: T) | Err(error: E)
}
