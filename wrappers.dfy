/** Option and Result, the two failure-carrying types the backends return
    (Rust's `Option<T>` and `anyhow::Result<T>`). */
module Wrappers {

  datatype Option<+T> = None | Some(value: T) {
    /** `unwrap_or`: the wrapped value, or `default` when there is none. */
    function GetOr(default: T): T {
      match this
      case Some(v) => v
      case None => default
    }
  }

  /** The error side carries the diagnostic text an `anyhow` error would print. */
  datatype Result<+T> = Ok(value: T) | Err(message: string)
}
