/** Failure-carrying values shared by the three source files. */
module Wrappers {

  datatype Option<+T> = None | Some(value: T)

  /** A Go `error`: all the model needs of one is its message. */
  datatype Error = Error(message: string)

  /** The result of a call into the remote table store: the decoded payload or the client's error. */
  datatype Result<+T> = Ok(value: T) | Err(error: Error)

  /** A Go `(T, error)` pair: on failure Go returns the zero value of T beside the error. */
  datatype Outcome<+T> = Outcome(value: T, err: Option<Error>)
}
