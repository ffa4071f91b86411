/** Go errors, reduced to their text and to whether `errors.Is` finds the signer's sentinel in them. */
module Errors {
  import opened Wrappers

  datatype Error = Error(message: string, invalidRequest: bool)

  const INVALID_SIGNING_REQUEST: string := "invalid signing request"

  /** The error now wraps the sentinel; whatever it wrapped before is lost with the reformatting. */
  function WrapInvalidSigningRequestError(err: Error): Error {
    Error(err.message + ": " + INVALID_SIGNING_REQUEST, true)
  }

  /** An error of no particular class. */
  function Errorf(message: string): Error {
    Error(message, false)
  }

  function InvalidRequest(message: string): Error {
    WrapInvalidSigningRequestError(Errorf(message))
  }

  /** Lets a chain of checks return at the first one that does not hold. */
  function Need(condition: bool, err: Error): Outcome<Error> {
    if condition then Pass else Fail(err)
  }

  /** Failures of these calls are blamed on the request. */
  function Blame<T>(r: Result<T, Error>): Result<T, Error> {
    if r.Failure? then Failure(WrapInvalidSigningRequestError(r.error)) else r
  }

  function BlameOutcome(r: Outcome<Error>): Outcome<Error> {
    if r.Fail? then Fail(WrapInvalidSigningRequestError(r.error)) else r
  }
}
