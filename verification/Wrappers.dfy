// Results of operations that may be refused.

module Wrappers {
  datatype Option<+T> = None | Some(value: T)

  // An operation's value, or the error it raises.
  datatype Result<+T, +E> = Success(value: T) | Failure(error: E)
}
