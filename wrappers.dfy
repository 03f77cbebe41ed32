/** Java's nullable references and thrown exceptions, as values. */
module Wrappers {

  /** A reference that may be null (`None`). */
  datatype Option<+T> = None | Some(value: T)

  /** An operation that either returns a value or throws `error`. */
  datatype Result<+R, +E> = Success(value: R) | Failure(error: E)
}
