/** Failure-carrying result types shared by every module of the model. */
module Wrappers {

  /** A Go pointer that may be nil, or a map lookup that may miss. */
  datatype Option<+T> = None | Some(value: T)

  /** A Go `(value, error)` pair where exactly one side is meaningful. */
  datatype Result<+T> = Ok(value: T) | Err(error: string)

  /** A Go `error` return on its own: nil or a message. */
  datatype Outcome = Pass | Fail(error: string) {
    predicate IsPass() { Pass? }
  }
}
