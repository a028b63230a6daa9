/** The application's exception handlers: which HTTP status and message each
    kind of error becomes. */
module ErrorHandlers {

  /** The application errors, each with its `str(exc)` text. */
  datatype AppError =
    | UnauthorizedError(text: string)
    | InvalidCredentialsError(text: string)
    | ForbiddenError(text: string)
    | NotFoundError(text: string)
    | AlreadyExistsError(text: string)
    | OtherAppError(text: string)

  datatype ErrorResponse = ErrorResponse(status: int, message: string, errors: seq<string>)

  const Unauthorized401: int := 401
  const Forbidden403: int := 403
  const NotFound404: int := 404
  const Conflict409: int := 409
  const Unprocessable422: int := 422
  const InternalError500: int := 500

  /** `handle_pydantic_errors`: the validation errors travel with the
      response. */
  function HandleValidationError(errors: seq<string>): ErrorResponse
  {
    ErrorResponse(Unprocessable422, "Validation error", errors)
  }

  /** `handle_app_error`. */
  function HandleAppError(e: AppError): ErrorResponse
  {
    match e
    case UnauthorizedError(_) => ErrorResponse(Unauthorized401, "Not authenticated", [])
    case InvalidCredentialsError(_) => ErrorResponse(Unauthorized401, "Invalid credentials", [])
    case ForbiddenError(_) => ErrorResponse(Forbidden403, "Insufficient rights", [])
    case NotFoundError(t) => ErrorResponse(NotFound404, t, [])
    case AlreadyExistsError(t) => ErrorResponse(Conflict409, t, [])
    case OtherAppError(_) => ErrorResponse(InternalError500, "Internal server error", [])
  }

  /** A validation failure is answered 422 "Validation error" with the
      validator's errors, in order, and no application error is answered
      with that response. */
  lemma ValidationErrorSpec(errors: seq<string>, e: AppError)
    ensures HandleValidationError(errors).status == Unprocessable422
    ensures HandleValidationError(errors).message == "Validation error"
    ensures HandleValidationError(errors).errors == errors
    ensures HandleAppError(e) != HandleValidationError(errors)
  {
  }

  /** Every application error becomes a client error except an unknown one,
      which is the only 500; the two 401 kinds are told apart by their
      message; the missing and the duplicate resource pass their own text
      through; and no application error looks like a validation error. */
  lemma AppErrorStatuses(e: AppError, errors: seq<string>)
    ensures var r := HandleAppError(e);
      && (r.status == InternalError500 <==> e.OtherAppError?)
      && (r.status == Unauthorized401 <==> e.UnauthorizedError? || e.InvalidCredentialsError?)
      && (r.status == Forbidden403 <==> e.ForbiddenError?)
      && (e.UnauthorizedError? ==> r.message != HandleAppError(InvalidCredentialsError(e.text)).message)
      && (e.NotFoundError? || e.AlreadyExistsError? <==> r.message == e.text && (r.status == NotFound404 || r.status == Conflict409))
      && r.status != HandleValidationError(errors).status
      && r.errors == []
  {
  }
}
