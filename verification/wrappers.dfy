/** Option and Result, shared by the scenario and the log scanner. */
module Wrappers {

  /** A value that may be absent: Python's `None` or a missing attribute. */
  datatype Option<+T> = None | Some(value: T)

  /** The outcome of an operation that can raise. */
  datatype Result<+R, +E> = Success(value: R) | Failure(error: E)
}
