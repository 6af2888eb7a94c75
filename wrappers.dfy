/** Optional values and error-carrying results, used across the model. */
module Wrappers {

  /** Python's `None` or a present value. */
  datatype Option<T> = None | Some(value: T)

  /** A value, or the error that a Python call would have raised instead. */
  datatype Result<T, E> = Ok(value: T) | Err(error: E)
}
