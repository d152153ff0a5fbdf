/** Option and Result, the two failure shapes the program uses (Rust's
    `Option<T>` and `Result<T, String>`). */
module Wrappers {

  datatype Option<+T> = None | Some(value: T)

  datatype Result<+T, +E> = Ok(value: T) | Err(error: E)
}
