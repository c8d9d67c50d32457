/** Failure-carrying values shared by the whole model. */
module Wrappers {

  /** A value that may be absent: JavaScript `null`/`undefined`, a missing dictionary key. */
  datatype Option<+T> = None | Some(value: T)

  /** The outcome of a call into a collaborator that may throw: the value, or the exception's text. */
  datatype Result<+T> = Ok(value: T) | Err(error: string)
}
