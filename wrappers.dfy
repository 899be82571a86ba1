/** Failure-compatible values: `Option` stands for a JavaScript value that may be
    `null`/`undefined`, `Result` for a resolver that either returns or throws. */
module Wrappers {

  datatype Option<+T> = None | Some(value: T)

  /** A resolver outcome: the value it returns, or the message of the `Error` it throws. */
  datatype Result<+T> = Ok(value: T) | Err(message: string)
}
