/** Failure-carrying values for the Java exceptions and nullable references of the model. */
module Wrappers {

  /** A nullable reference: `None` stands for Java's `null`. */
  datatype Option<+T> = None | Some(value: T)

  /** The value of an expression that either yields `value` or throws `error`. */
  datatype Result<+R, +E> = Ok(value: R) | Err(error: E)

  /** The effect of a `void` method that either returns normally or throws `error`. */
  datatype Outcome<+E> = Pass | Fail(error: E)
}
