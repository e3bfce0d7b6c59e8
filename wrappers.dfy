/** Optional values and results shared by the modules of this model.
    `None` stands for JavaScript's `null` (or an absent value). */
module Wrappers {

  datatype Option<+T> = None | Some(value: T)

  /** The outcome of a call that may throw: `Failure` carries the error's message. */
  datatype Result<+T> = Ok(value: T) | Failure(message: string)
}
