/** Failure-carrying result types shared by the configuration reader and the search. */
module Wrappers {

  datatype Option<+T> = None | Some(value: T)

  datatype Result<+R, +E> = Success(value: R) | Failure(error: E)

  /** An outcome that carries no value on success. Every `exit(1)` of the source becomes a `Fail`. */
  datatype Outcome<+E> = Pass | Fail(error: E)
}
