/** Optional values and results with an error, shared by every script model. */
module Wrappers {

  datatype Option<+T> = None | Some(value: T)

  /** The outcome of an operation that the script can abort with an exception. */
  datatype Result<+T, +E> = Ok(value: T) | Err(error: E)
}
