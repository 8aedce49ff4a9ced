/** Failure-carrying result types shared by every stage of the merge pipeline. */
module Outcomes {

  /** A value that may be absent (a Java `null`, a missing map entry). */
  datatype Option<+T> = None | Some(value: T)

  /** The outcome of a stage: a value, or the error that aborted the stage. */
  datatype Result<+T, +E> = Ok(value: T) | Err(error: E)
}
