/** Failure-carrying values shared by the modules of the model. */
module Wrappers {

  /** A value that may be absent (a lookup that found nothing, a parse that failed). */
  datatype Option<+T> = None | Some(value: T)

  /** The value of a computation, or the error that aborted it. */
  datatype Result<+T, +E> = Ok(value: T) | Err(error: E)
}
