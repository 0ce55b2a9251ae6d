/** Failure-carrying wrappers used by the route search. */
module Wrappers {

  /** An optional value: a missing table cell, or the absent predecessor of the start node. */
  datatype Option<+T> = None | Some(value: T)

  /** The outcome of an operation that may raise. */
  datatype Result<+T, +E> = Success(value: T) | Failure(error: E)
}
