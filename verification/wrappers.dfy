/** Failure-compatible wrappers used across the model: an optional value and a
    success-or-error result. */
module Wrappers {

  datatype Option<+T> = None | Some(value: T) {
    predicate IsFailure() { None? }

    function PropagateFailure<U>(): Option<U>
      requires None?
    {
      None
    }

    function Extract(): T
      requires Some?
    {
      value
    }
  }

  datatype Result<+R, +E> = Success(value: R) | Failure(error: E) {
    predicate IsFailure() { Failure? }

    function PropagateFailure<U>(): Result<U, E>
      requires Failure?
    {
      Failure(error)
    }

    function Extract(): R
      requires Success?
    {
      value
    }
  }
}

/** The client library's error classification (`client::ErrorCode`) and the
    error value (`client::ApiError`) every public operation can return. */
module ClientErrors {

  datatype ErrorCode =
    | Unknown
    | Cancelled
    | InvalidArgument
    | PreconditionFailed
    | NotFound
    | BadRequest
    | ServiceUnavailable
    | NetworkConnection

  datatype ApiError = ApiError(code: ErrorCode, message: string)
}
