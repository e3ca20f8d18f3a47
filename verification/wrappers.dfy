/** Failure-carrying datatypes shared by every module of the model. */
module Wrappers {

  /** An optional value: `None` stands for JavaScript's `undefined`/`null` where it matters. */
  datatype Option<+T> = None | Some(value: T) {
    function GetOr(default: T): T {
      match this
      case Some(v) => v
      case None => default
    }
  }

  /** The outcome of an operation that either yields a value or fails with an error. */
  datatype Result<+T, +E> = Ok(value: T) | Err(error: E)
}
