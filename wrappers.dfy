/** Failure-carrying values: `Option` for searches that may find nothing and
    `Result` for the `Result<T, String>` values the lexer and parser return. */
module Wrappers {

  datatype Option<+T> = None | Some(value: T)

  datatype Result<+T, +E> = Ok(value: T) | Err(error: E)
}
