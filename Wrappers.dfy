/** Option and Result, used for Java's nullable references and thrown exceptions. */
module Wrappers {

  /** A nullable Java reference: None stands for null. */
  datatype Option<+T> = None | Some(value: T)

  /** A call that either returns a value or throws. */
  datatype Result<+R, +X> = Success(value: R) | Failure(error: X)
}
