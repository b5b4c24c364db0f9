/** Option and Result, the two failure-carrying shapes the program uses
    (Rust's `Option<T>` and `anyhow::Result<T>`, whose error is a message). */
module Wrappers {

  datatype Option<+T> = None | Some(value: T) {
    /** `Option::unwrap_or` */
    function GetOr(default: T): T {
      match this
      case Some(v) => v
      case None => default
    }
  }

  /** An `anyhow::Result`: the error side carries the message text. */
  datatype Result<+T> = Ok(value: T) | Err(error: string)
}
