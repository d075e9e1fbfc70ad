/** Option and Result, the two wrapper types the scanner's Rust code returns
    (`Option<T>` and `anyhow::Result<T>`, whose error is kept as its message). */
module Wrappers {

  datatype Option<+T> = None | Some(value: T) {

    /** `unwrap_or(default)` / `unwrap_or_default()` */
    function GetOr(default: T): T
    {
      match this
      case Some(v) => v
      case None => default
    }
  }

  /** `anyhow::Result<T>`: the error is represented by its display text. */
  datatype Result<+T> = Ok(value: T) | Err(error: string)
}
