/** Failure-carrying results: Java's null and thrown exceptions become values. */
module Wrappers {

  /** A possibly-absent value; `None` stands for Java's `null`. */
  datatype Option<+T> = None | Some(value: T)

  /** The outcome of an operation that may throw: `Err` carries which exception. */
  datatype Result<+T, +E> = Ok(value: T) | Err(error: E)
}
