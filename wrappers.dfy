/** Failure-carrying values: Java's `null` returns and thrown exceptions become data. */
module Wrappers {

  /** `None` stands for a Java `null`. */
  datatype Option<+T> = None | Some(value: T)

  /** A value, or the exception that replaced it. */
  datatype Result<+R, +E> = Success(value: R) | Failure(error: E)

  /** A step that either completed or failed with an error. */
  datatype Outcome<+E> = Pass | Fail(error: E)
}
