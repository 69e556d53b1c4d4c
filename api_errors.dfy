/** The error classes of src/lib/errors/api-errors.ts. `ApiError` carries an
    HTTP status, a message and an optional code and details; `StripeError` and
    `ValidationError` are subclasses that fix the status (and, for validation,
    the code). Their constructors only set immutable fields, so an error is a
    value here and its class is a tag. */
module ApiErrors {
  import opened Wrappers

  datatype ErrorClass = ApiErrorClass | StripeErrorClass | ValidationErrorClass

  datatype ApiError = ApiError(
    name: ErrorClass,
    statusCode: int,
    message: string,
    code: Option<string>,
    details: Option<string>)

  /** What can be thrown inside a handler: one of the ApiError classes, or
      something else (a zod parse failure, a Prisma client error, a Stripe SDK
      error, a TypeError). Only the first kind passes `instanceof ApiError`. */
  datatype Thrown = Api(error: ApiError) | Foreign(cause: Cause)

  datatype Cause = ZodError | PrismaError | StripeSdkError(message: string) | TypeError

  /** `new ApiError(statusCode, message, code, details)`. */
  function NewApiError(statusCode: int, message: string, code: Option<string>, details: Option<string>): (e: ApiError)
    ensures e.name == ApiErrorClass && e.statusCode == statusCode && e.message == message
    ensures e.code == code && e.details == details
  {
    ApiError(ApiErrorClass, statusCode, message, code, details)
  }

  /** `new StripeError(message, code, details)`: status 500, message prefixed. */
  function NewStripeError(message: string, code: Option<string>, details: Option<string>): (e: ApiError)
    ensures e.name == StripeErrorClass && e.statusCode == 500
    ensures e.message == "Stripe Error: " + message
    ensures e.code == code && e.details == details
  {
    ApiError(StripeErrorClass, 500, "Stripe Error: " + message, code, details)
  }

  /** `new ValidationError(message, details)`: status 400, code VALIDATION_ERROR. */
  function NewValidationError(message: string, details: Option<string>): (e: ApiError)
    ensures e.name == ValidationErrorClass && e.statusCode == 400
    ensures e.message == message && e.code == Some("VALIDATION_ERROR") && e.details == details
  {
    ApiError(ValidationErrorClass, 400, message, Some("VALIDATION_ERROR"), details)
  }

  /** `throw new ApiError(status, message)` with no code or details. */
  function Throw(statusCode: int, message: string): (t: Thrown)
    ensures t.Api? && t.error.statusCode == statusCode && t.error.message == message
    ensures t.error.name == ApiErrorClass && t.error.code.None?
  {
    Api(NewApiError(statusCode, message, None, None))
  }
}
