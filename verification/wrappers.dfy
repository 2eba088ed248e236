/** Failure-carrying values shared by every handler of the model. */
module Wrappers {

  /** An optional value: a missing document, an omitted request field. */
  datatype Option<+T> = None | Some(value: T)

  /** The outcome of a step that either produces a value or stops with an error. */
  datatype Result<+T, +E> = Ok(value: T) | Err(error: E)
}
