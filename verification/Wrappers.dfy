/** The two failure-carrying datatypes the whole model shares. */
module Wrappers {

  datatype Option<+T> = None | Some(value: T)

  /** The source's thrown errors: a value, or the reason there is none. */
  datatype Result<+T, +E> = Ok(value: T) | Err(error: E)
}
