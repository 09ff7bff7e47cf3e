/** The usual Option and Result datatypes: Java's nullable references and thrown exceptions. */
module Wrappers {

  /** A nullable value: `None` stands for Java's `null`. */
  datatype Option<+T> = None | Some(value: T)

  /** Either a value or the exception that was thrown instead. */
  datatype Result<+T, +E> = Ok(value: T) | Failure(error: E)
}
