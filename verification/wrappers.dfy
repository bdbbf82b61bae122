/** The failure-carrying datatypes the rest of the model is written with. */
module Wrappers {

  /** A value that may be absent, as Python's `None` is. */
  datatype Option<+T> = None | Some(value: T)

  /** The outcome of a routine that either returns a value or raises an error. */
  datatype Result<+T, +E> = Success(value: T) | Failure(error: E)
}
