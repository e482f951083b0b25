/** Optional values and results with an error, as used across the model. */
module Wrappers {

  /** Python's `X | None`: a value that may be absent. */
  datatype Option<+T> = None | Some(value: T)

  /** A computation that either yields a value or raises an error. */
  datatype Result<+T, +E> = Ok(value: T) | Err(error: E)
}
