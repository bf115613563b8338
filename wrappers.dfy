/** Outcome of an operation that cliff ends with a raised exception. */
module Wrappers {

  /** Either the value the operation produces or the error it raises. */
  datatype Result<+T, +E> = Ok(value: T) | Err(error: E)
}
