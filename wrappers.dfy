/** Result types standing in for Python's exceptions. */
module Wrappers {

  datatype Option<+T> = None | Some(value: T)

  /** The value of an expression that may raise instead. */
  datatype Result<+T, +E> = Ok(value: T) | Err(error: E)

  /** The outcome of a statement that returns nothing but may raise. */
  datatype Outcome<+E> = Pass | Fail(error: E)

  /** The Python exception classes the table library can raise. */
  datatype PyError = TypeError | ValueError | KeyError | IndexError
}
