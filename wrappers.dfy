/** Option and Result, the two failure-carrying datatypes the model uses for
    Rust's `Option`/`eyre::Result` and for Python's raised exceptions. */
module Wrappers {

  datatype Option<+T> = None | Some(value: T)

  datatype Result<+T, +E> = Ok(value: T) | Err(error: E)
}
