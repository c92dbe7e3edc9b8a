/** Failure-carrying datatypes shared by the model: `Option` stands for a
    Kotlin nullable value, `Result` for a call that either returns or throws. */
module Wrappers {

  /** A nullable value: `None` is Kotlin's `null`. */
  datatype Option<+T> = None | Some(value: T)

  /** The outcome of a call that may throw: `Failure` carries the exception. */
  datatype Result<+R, +E> = Success(value: R) | Failure(error: E)
}
