/** Option and Result values standing in for the source's null references and exceptions. */
module Wrappers {

  datatype Option<+T> = None | Some(value: T)

  datatype Result<+T, +E> = Ok(value: T) | Err(error: E)

  /** The outcome of a call that returns nothing when it succeeds. */
  datatype Outcome<+E> = Pass | Fail(error: E)
}
