/** Option and Result, standing in for Java's nullable references and thrown exceptions. */
module Wrappers {

  /** A possibly-absent value: `None` models a Java `null` reference. */
  datatype Option<+T> = None | Some(value: T)

  /** The outcome of an operation that may throw: `Failure` carries the exception. */
  datatype Result<+R, +E> = Success(value: R) | Failure(error: E)
}
