/** Presence and failure wrappers shared by the handpose model. */
module Wrappers {

  /** A value that may be missing: the model's stand-in for JavaScript's
      `null`/`undefined` (a falsy detection list, a detection without a box
      or without landmarks, a model handle that was not loaded). */
  datatype Option<+T> = None | Some(value: T)

  /** The outcome of an operation that can throw. */
  datatype Result<+R, +E> = Success(value: R) | Failure(error: E)
}
