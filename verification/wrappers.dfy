/** Optional values and fallible results shared by the modules of this model. */
module Wrappers {

  /** A value that may be absent (JavaScript `undefined` or `null`). */
  datatype Option<+T> = None | Some(value: T)

  /** The outcome of a call that may throw: the value, or the thrown error's message. */
  datatype Result<+T> = Ok(value: T) | Err(message: string)
}
