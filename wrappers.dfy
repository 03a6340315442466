/** Failure-compatible wrappers shared by the model. */
module Wrappers {

  /** An optional value: `None` stands for Java's `null`. */
  datatype Option<+T> = None | Some(value: T)

  /** The outcome of a step that can abort the whole transformation:
      `Fail` stands for an exception thrown by the visitor (a failed
      `graphql.Assert.assertTrue`, or a runtime exception such as an
      out-of-range `substring`). */
  datatype Outcome = Pass | Fail(message: string)

  /** A value, or the exception that aborted its computation. */
  datatype Result<+T> = Success(value: T) | Failure(error: string)
}
