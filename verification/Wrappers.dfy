/** Optional values and computations that may fail. */
module Wrappers {

  datatype Option<+T> = None | Some(value: T)

  /** The value computed, or the error the source would throw. */
  datatype Result<+T, +E> = Ok(value: T) | Err(error: E)
}
