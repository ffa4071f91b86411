/** Errors that carry an HTTP status and an application code. */
module ServiceErrors {
  import opened Errors

  const INTERNAL_SERVICE_ERROR: string := "INTERNAL_SERVICE_ERROR"
  const BAD_REQUEST: string := "BAD_REQUEST"

  const STATUS_OK := 200
  const STATUS_BAD_REQUEST := 400
  const STATUS_INTERNAL_SERVER_ERROR := 500

  const UNINITIALIZED_STATUS_CODE := 0

  datatype ServiceError = ServiceError(err: Error, statusCode: int, errorCode: string)

  /** A missing status defaults to 500, a missing code to the internal one. */
  function NewError(statusCode: int, errorCode: string, err: Error): (e: ServiceError)
    ensures e.statusCode != UNINITIALIZED_STATUS_CODE && e.errorCode != "" && e.err == err
    ensures statusCode == UNINITIALIZED_STATUS_CODE ==> e.statusCode >= STATUS_INTERNAL_SERVER_ERROR
    ensures statusCode == e.statusCode || statusCode == UNINITIALIZED_STATUS_CODE
    ensures errorCode == e.errorCode || (errorCode == "" && e.errorCode == INTERNAL_SERVICE_ERROR)
  {
    ServiceError(
      err,
      if statusCode == UNINITIALIZED_STATUS_CODE then STATUS_INTERNAL_SERVER_ERROR else statusCode,
      if errorCode == "" then INTERNAL_SERVICE_ERROR else errorCode)
  }

  function NewErrorWithMsg(statusCode: int, errorCode: string, msg: string): ServiceError {
    NewError(statusCode, errorCode, Errorf(msg))
  }
}
