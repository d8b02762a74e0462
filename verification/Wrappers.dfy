/** The optional values and error results that the other modules share. */
module Wrappers {
  datatype Option<+T> = None | Some(value: T)

  datatype Result<+T, +E> = Ok(value: T) | Err(error: E)

  /** Python's ValueError, as the value objects raise it. */
  datatype ValueError = ValueError
}
