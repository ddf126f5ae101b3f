/** Failure-carrying result types shared by every pass: a Java method that
    throws SemanticErrorException is modelled as returning one of these. */
module Wrappers {

  datatype Option<+T> = None | Some(value: T)

  /** A value or the message of the exception the source would throw. */
  datatype Result<+T> = Ok(value: T) | Err(error: string)

  /** A void method that may throw: Pass, or Fail with the exception message. */
  datatype Outcome = Pass | Fail(error: string)
}
