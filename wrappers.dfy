/** Optional values, and the outcome of a Python call that either returns a
    value or raises an exception carrying a description. */
module Wrappers {

  datatype Option<+T> = None | Some(value: T)

  datatype Result<+T, +E> = Ok(value: T) | Err(error: E)

  /** A call into the directory library: it returns, or it raises and the
      exception's text is all the caller sees. */
  datatype Raisable<+T> = Returned(value: T) | Threw(description: string)
}
