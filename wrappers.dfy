/** Optional values and results with an error, shared by the whole model. */
module Wrappers {

  /** A value that may be absent: JavaScript's `undefined` / `null`. */
  datatype Option<T> = None | Some(value: T)

  /** The outcome of a check: a value, or the reason it was refused. */
  datatype Result<T, E> = Ok(value: T) | Err(error: E)
}
