/** Failure-compatible wrappers used by the routing model. */
module Wrappers {

  /** An optional value: Python's `None` or a present value. */
  datatype Option<+T> = None | Some(value: T)

  /** The outcome of a handler that can raise. */
  datatype Result<+R, +E> = Success(value: R) | Failure(error: E)

  /** The Python exceptions the modelled code can raise in reachable states. */
  datatype Fault =
    | MissingKey   // a dictionary lookup of an absent key (`KeyError`)
    | EmptyRoute   // indexing an empty list (`IndexError`)
}
