/** Failure-carrying datatypes shared by the modules of this model. */
module Wrappers {

  /** An optional value: the model's stand-in for a Java field left unset. */
  datatype Option<+T> = None | Some(value: T)

  /** Either a value or the exception the Java code would have thrown. */
  datatype Result<+R, +E> = Success(value: R) | Failure(error: E)
}
