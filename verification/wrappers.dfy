/** Failure-carrying values: `Option` for the decoder's and the parser's
    "no value", `Result` for operations that can panic. */
module Wrappers {

  datatype Option<+T> = None | Some(value: T)

  datatype Result<+T, +E> = Ok(value: T) | Err(error: E)
}
