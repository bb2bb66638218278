/** How a request ends when it does not succeed. */
module Errors {

  /**
    `Http` is an `HTTPException` the code raises on purpose (status and
    detail text); `Uncaught` is any other Python exception, which the
    framework turns into a 500 response. Its argument names the exception.
  */
  datatype Failure =
    | Http(status: int, detail: string)
    | Uncaught(exception: string)
}
