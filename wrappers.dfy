/** Nullable values and error returns, in place of Java's null and exceptions. */
module Wrappers {

  /** A Java reference that may be null: `None` stands for null. */
  datatype Option<+T> = None | Some(value: T)

  /** The value of a call that either returns or throws. */
  datatype Result<+R, +E> = Success(value: R) | Failure(error: E)
}
