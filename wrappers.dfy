/** Optional values and results that may carry an error, as the models below need them. */
module Wrappers {

  /** A value that may be absent (Python's `None`). */
  datatype Option<+T> = None | Some(value: T)

  /** The outcome of an operation that may raise; `Err` carries the reason. */
  datatype Result<+T> = Ok(value: T) | Err(error: string)
}
