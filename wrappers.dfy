/** Small value wrappers shared by the modules of the monitor. */
module Wrappers {

  /** Python's `None` / a present value, as stored in a nullable column. */
  datatype Option<T> = None | Some(value: T)

  /** The value of an operation, or the exception it raised. */
  datatype Result<T, E> = Ok(value: T) | Err(error: E)
}
