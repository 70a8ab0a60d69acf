/** Option and Result, the two failure-carrying shapes the model uses in place of
    Rust's `Option<T>` and of serde's `Result<T, serde_json::Error>`. */
module Wrappers {

  datatype Option<+T> = None | Some(value: T)

  /** A decode result: the value, or the decoder's error text. */
  datatype Result<+T> = Ok(value: T) | Err(error: string)
}
