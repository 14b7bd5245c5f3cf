/** Optional values and results with an error, as used throughout the model. */
module Wrappers {

  /** A value that may be absent: a dictionary key that is not set, a query
      that found no element. */
  datatype Option<T> = None | Some(value: T)

  /** The outcome of a step that can raise: its value, or the error that
      aborts the run. */
  datatype Result<T, E> = Ok(value: T) | Err(error: E)
}
