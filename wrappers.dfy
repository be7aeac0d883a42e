/** The failure-carrying datatypes shared by the two scripts' models. */
module Wrappers {

  /** Python's `None` or a value. */
  datatype Option<+T> = None | Some(value: T)

  /** A normal result or a raised exception. */
  datatype Result<+T, +E> = Success(value: T) | Failure(error: E)
}
