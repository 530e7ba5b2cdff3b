/** Small failure-compatible wrappers used across the model. */
module Wrappers {

  /** A value that may be absent (Python's `None`). */
  datatype Option<+T> = None | Some(value: T)

  /** The outcome of an operation that may raise. */
  datatype Result<+T, +E> = Success(value: T) | Failure(error: E)

  /** The Python exceptions the modelled code raises. */
  datatype Error =
    | ValueError(message: string)
    | IndexError
    | KeyError(key: string)
    | AttributeError(message: string)
}
