/** The option and result types shared by every step of the ceremony. */
module Wrappers {

  /** How a step ends when it does not succeed: a `TaskError` carrying the
      machine-stable reason string the step raises, or `Crash`, standing for any
      other exception escaping the step (a missing key, a wrong operand type, a
      subprocess that exits non-zero, a file that cannot be read). */
  datatype Failure = TaskError(reason: string) | Crash

  datatype Option<+T> = None | Some(value: T)

  datatype Result<+T> = Ok(value: T) | Err(failure: Failure)
}
