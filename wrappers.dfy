/** Optional values and error results, used for the host's cancellable prompts and for failing operations. */
module Wrappers {

  /** A prompt or quick-pick answer: `None` when the user dismissed it. */
  datatype Option<+T> = None | Some(value: T)

  /** The outcome of an operation that may be refused with a message. */
  datatype Result<+T> = Ok(value: T) | Err(message: string)
}
