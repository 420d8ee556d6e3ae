/** Failure-carrying datatypes used in place of Java's null and exceptions. */
module Wrappers {

  /** A nullable Java reference: None stands for null. */
  datatype Option<+T> = None | Some(value: T)

  /** The outcome of a call that either returns a value or throws. */
  datatype Result<+R, +E> = Success(value: R) | Failure(error: E)

  /** The outcome of a void call that either returns normally or throws. */
  datatype Outcome<+E> = Pass | Fail(error: E)
}
