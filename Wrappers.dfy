/** Option and Result values standing in for Python's None and raised exceptions. */
module Wrappers {

  /** A value that may be missing, as a Python function returning either an object or None. */
  datatype Option<T> = None | Some(value: T)

  /** The outcome of a call that either returns a value or raises an exception with a message. */
  datatype Result<T> = Ok(value: T) | Err(msg: string)
}
