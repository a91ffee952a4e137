/** Failure-carrying values shared by the whole model: an optional value and the
    outcome of an operation that can throw a JavaScript `Error`. */
module Wrappers {

  datatype Option<+T> = None | Some(value: T)

  /** A thrown JavaScript error; only its `message` is observed by the code. */
  datatype Error = Error(message: string)

  /** The settled result of an awaited call: a value, or the error it threw. */
  datatype Outcome<+T> = Ok(value: T) | Err(error: Error)
}
