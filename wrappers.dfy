/** Optional values and fallible results, used wherever the source has `None` or raises. */
module Wrappers {

  datatype Option<+T> = None | Some(value: T)

  datatype Result<+T, +E> = Success(value: T) | Failure(error: E)
}

/** The error an HTTP handler raises: `HTTPException(status_code, detail)`. */
module HttpErrors {

  datatype HttpError = HttpError(statusCode: nat, detail: string)

  const InternalServerError: nat := 500
}
