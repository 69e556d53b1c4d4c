/** `POST /api/webhooks/stripe` (src/app/api/webhooks/stripe/route.ts):
    reads the body and the `stripe-signature` header, has the webhook service
    verify and dispatch the event, and answers `{received: true}`; anything
    thrown is answered by `handleApiError`. */
module StripeWebhookRoute {
  import opened Wrappers
  import opened JsRuntime
  import opened ApiErrors
  import opened ErrorHandler
  import opened Prisma
  import Stripe
  import opened StripeWebhookService

  /** `{ received: true }`. */
  datatype Received = Received(received: bool)

  /** The response and the tables after the POST. `signature` is the header
      (`None` is `null`); `verified` is Stripe's verdict on the raw body and
      that signature; `g` is what the database generates for new rows.

      As written (`intended` false) the handler starts with
      `request.body()`; `body` is a stream, not a function, so the call
      throws a TypeError before anything else. As intended, the raw text of
      the body is read. */
  function PostOutcome(t: Tables, stripeSubs: seq<Stripe.Subscription>, signature: Option<string>,
                       verified: Result<Event, string>, g: Generated, intended: bool)
    : (r: (Response<Received>, Tables))
    ensures !intended ==> r == (HandleApiError(Foreign(TypeError)), t)
  {
    if !intended then (HandleApiError(Foreign(TypeError)), t)
    else if signature.None? || !Truthy(signature.value) then (ErrorResponse("Missing stripe signature", 400), t)
    else match ConstructEvent(verified)
      case Failure(e) => (HandleApiError(Api(e)), t)
      case Success(event) =>
        match EventEffect(t, stripeSubs, event, g)
        case Failure(e) => (HandleApiError(e), t)
        case Success(t1) => (SuccessResponse(Received(true)), t1)
  }

  /** As written every request, correctly signed or not, is answered with
      500 INTERNAL_ERROR and no event is ever applied. */
  lemma AsWrittenNeverReceives(t: Tables, stripeSubs: seq<Stripe.Subscription>, signature: Option<string>,
                               verified: Result<Event, string>, g: Generated)
    ensures var r := PostOutcome(t, stripeSubs, signature, verified, g, false);
      && r.0 == Json(500, ErrorBody("Internal server error", Some("INTERNAL_ERROR"), None))
      && r.1 == t
      && !r.0.body.Succeeded()
  {
  }

  /** As intended: the event is applied and `{received: true}` returned
      exactly when the header is present, the signature verifies and the
      handler finishes; the tables then are the event's effect. */
  lemma ReceivedIffApplied(t: Tables, stripeSubs: seq<Stripe.Subscription>, signature: Option<string>,
                           verified: Result<Event, string>, g: Generated)
    ensures var r := PostOutcome(t, stripeSubs, signature, verified, g, true);
      r.0 == SuccessResponse(Received(true)) <==>
        && signature.Some? && Truthy(signature.value)
        && verified.Success?
        && EventEffect(t, stripeSubs, verified.value, g).Success?
    ensures var r := PostOutcome(t, stripeSubs, signature, verified, g, true);
      r.0.body.Succeeded() ==> r.1 == EventEffect(t, stripeSubs, verified.value, g).value
    ensures var r := PostOutcome(t, stripeSubs, signature, verified, g, true);
      !r.0.body.Succeeded() ==> r.1 == t
  {
  }

  /** A missing or empty signature header is a 400 and nothing is applied. */
  lemma MissingSignatureRefused(t: Tables, stripeSubs: seq<Stripe.Subscription>, signature: Option<string>,
                                verified: Result<Event, string>, g: Generated)
    requires signature.None? || signature.value == ""
    ensures PostOutcome(t, stripeSubs, signature, verified, g, true)
      == (Json(400, ErrorBody("Missing stripe signature", None, None)), t)
  {
  }

  /** A signature that does not verify fails closed: the event is not
      dispatched, and the StripeError surfaces as a 500 naming the reason. */
  lemma BadSignatureFailsClosed(t: Tables, stripeSubs: seq<Stripe.Subscription>, signature: string,
                                reason: string, g: Generated)
    requires signature != ""
    ensures PostOutcome(t, stripeSubs, Some(signature), Failure(reason), g, true)
      == (Json(500, ErrorBody("Stripe Error: " + ("Webhook signature verification failed: " + reason), None, None)), t)
  {
  }

  /** An event type the service does not handle is acknowledged and changes
      nothing. */
  lemma UnknownEventAcknowledged(t: Tables, stripeSubs: seq<Stripe.Subscription>, signature: string,
                                 e: Event, g: Generated)
    requires signature != ""
    requires e.eventType !in {"checkout.session.completed", "customer.subscription.updated",
                              "customer.subscription.deleted", "invoice.payment_succeeded"}
    ensures PostOutcome(t, stripeSubs, Some(signature), Success(e), g, true)
      == (SuccessResponse(Received(true)), t)
  {
  }

  /** `POST` against the database. */
  method Post(db: Database, stripeSubs: seq<Stripe.Subscription>, signature: Option<string>,
              verified: Result<Event, string>, g: Generated, intended: bool)
    returns (r: Response<Received>)
    modifies db
    ensures (r, db.State()) == PostOutcome(old(db.State()), stripeSubs, signature, verified, g, intended)
  {
    if !intended {
      return HandleApiError(Foreign(TypeError));
    }
    if signature.None? || !Truthy(signature.value) {
      return ErrorResponse("Missing stripe signature", 400);
    }
    var event := ConstructEvent(verified);
    if event.Failure? {
      return HandleApiError(Api(event.error));
    }
    var handled := HandleEvent(db, stripeSubs, event.value, g);
    if handled.Failure? {
      return HandleApiError(handled.error);
    }
    r := SuccessResponse(Received(true));
  }
}
