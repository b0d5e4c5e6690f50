/** Option for Java's nullable references, and the two result shapes of the import flow. */
module Wrappers {

  /** A value that may be absent: `None` stands for a Java `null`. */
  datatype Option<+T> = None | Some(value: T)

  /** Either a value or the reason the operation gave up. */
  datatype Result<+R, +E> = Success(value: R) | Failure(error: E)

  /** A check that either passes or reports why it failed. */
  datatype Outcome<+E> = Pass | Fail(error: E)
}
