/** HTTP responses as the routes build them (the JSON envelope of
    src/lib/utils/api-response.ts) and `handleApiError` of
    src/lib/errors/error-handler.ts, which turns anything thrown into an
    error response. */
module ErrorHandler {
  import opened Wrappers
  import opened ApiErrors

  /** The JSON envelope: `{success: true, data, message}` or
      `{success: false, error: {message, code, details}}`. */
  datatype Body<D> =
    | SuccessBody(data: D, note: Option<string>)
    | ErrorBody(message: string, code: Option<string>, details: Option<string>)
  {
    predicate Succeeded() { SuccessBody? }
  }

  datatype Response<D> =
    | Json(status: int, body: Body<D>)
    | Redirect(location: string, redirectStatus: int)

  /** `ApiResponseBuilder.success(data)`: status 200. */
  function SuccessResponse<D>(data: D): (r: Response<D>)
    ensures r.Json? && r.status == 200 && r.body == SuccessBody(data, None)
  {
    Json(200, SuccessBody(data, None))
  }

  /** `ApiResponseBuilder.error(message, status)`. */
  function ErrorResponse<D>(message: string, status: int): (r: Response<D>)
    ensures r.Json? && r.status == status && r.body == ErrorBody(message, None, None)
  {
    Json(status, ErrorBody(message, None, None))
  }

  /** `ApiResponseBuilder.redirect(url)`: a 303 See Other. */
  function RedirectResponse<D>(url: string): (r: Response<D>)
    ensures r == Redirect(url, 303)
  {
    Redirect(url, 303)
  }

  /** `handleApiError(error)`: an ApiError (of any of the three classes) keeps
      its status, message, code and details; anything else becomes a 500
      INTERNAL_ERROR without details. The envelope is never a success. */
  function HandleApiError<D>(t: Thrown): (r: Response<D>)
    ensures r.Json? && !r.body.Succeeded()
    ensures t.Api? ==>
      r.status == t.error.statusCode && r.body == ErrorBody(t.error.message, t.error.code, t.error.details)
    ensures t.Foreign? ==>
      r.status == 500 && r.body == ErrorBody("Internal server error", Some("INTERNAL_ERROR"), None)
  {
    match t
    case Api(e) => Json(e.statusCode, ErrorBody(e.message, e.code, e.details))
    case Foreign(_) => Json(500, ErrorBody("Internal server error", Some("INTERNAL_ERROR"), None))
  }

  /** Both subclasses are ApiErrors, so the handler answers with their own
      status: 500 for a StripeError, 400 VALIDATION_ERROR for a ValidationError. */
  lemma SubclassResponses<D>(message: string, code: Option<string>, details: Option<string>)
    ensures HandleApiError<D>(Api(NewStripeError(message, code, details)))
      == Json(500, ErrorBody("Stripe Error: " + message, code, details))
    ensures HandleApiError<D>(Api(NewValidationError(message, details)))
      == Json(400, ErrorBody(message, Some("VALIDATION_ERROR"), details))
  {
  }

  /** Only a foreign error can produce the INTERNAL_ERROR code when every
      ApiError raised carries a different code. */
  lemma InternalErrorOnlyFromForeign<D>(t: Thrown)
    requires t.Api? ==> t.error.code != Some("INTERNAL_ERROR")
    ensures HandleApiError<D>(t).body.code == Some("INTERNAL_ERROR") <==> t.Foreign?
  {
  }
}
