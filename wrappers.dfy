/** Option and Result, the two failure-carrying datatypes the rest of the model uses. */
module Wrappers {

  /** A JavaScript value that may be `undefined`. */
  datatype Option<T> = None | Some(value: T)

  /** The outcome of an operation that may throw. */
  datatype Result<T, E> = Ok(value: T) | Err(error: E)
}
