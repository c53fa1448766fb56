/** Failure-carrying return values shared by the helpers and the agent. */
module Wrappers {

  /** A value that may be absent: Python's `None` beside a real value. */
  datatype Option<+T> = None | Some(value: T)

  /** The outcome of an operation that either returns or raises. */
  datatype Result<+R, +E> = Success(value: R) | Failure(error: E)
}
