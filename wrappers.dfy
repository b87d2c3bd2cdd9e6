/** Failure-carrying values shared by every part of the directory model. */
module Wrappers {

  datatype Option<+T> = None | Some(value: T)

  /** The four error kinds the directory reports (the service maps them to
      HTTP 422, 404, 409 and 500 respectively; the numbers are not modelled). */
  datatype ErrorKind = ValidationError | NotFound | ConflictError | InternalError

  /** An error kind together with the detail text shown to the caller. */
  datatype Error = Error(kind: ErrorKind, detail: string)

  /** The result of a check or of an operation that returns nothing on success. */
  datatype Outcome = Pass | Reject(error: Error)

  /** The result of an operation that returns a value on success. */
  datatype Result<+T> = Ok(value: T) | Err(error: Error)

  /** Runs `first`; its rejection wins, otherwise the result is `next`.
      This is the "raise at the first failing check" discipline of the service. */
  function Then(first: Outcome, next: Outcome): Outcome
  {
    if first.Reject? then first else next
  }
}
