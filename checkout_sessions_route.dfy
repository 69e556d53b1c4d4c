/** `POST /api/checkout-sessions` (src/app/api/checkout-sessions/route.ts):
    reads the form, validates it, checks the credit quantity, asks the
    checkout service for a session and redirects to it; anything thrown is
    answered by `handleApiError`. The user is the fixed demo user. */
module CheckoutSessionsRoute {
  import opened Wrappers
  import opened JsRuntime
  import opened ApiErrors
  import opened ErrorHandler
  import opened CheckoutValidation
  import opened Stripe
  import Checkout = StripeCheckoutService
  import Prices = StripePriceRepository

  const DemoUserId := "cmct55uwc0000ijs59cm86mej"
  const DemoUserEmail := "alice@gmail.com"

  /** The form fields as `formData.get` returns them; `None` is `null`. */
  datatype FormFields = FormFields(productId: Option<string>, paymentMode: Option<string>, quantity: Option<string>)

  /** `rawData`: product and mode as given; the quantity run through
      `parseInt` when the field is a non-empty string, `undefined` otherwise. */
  function RawData(f: FormFields): (r: CheckoutForm)
    ensures r.productId == f.productId && r.paymentMode == f.paymentMode
    ensures r.quantity.Some? <==> f.quantity.Some? && Truthy(f.quantity.value)
  {
    CheckoutForm(f.productId, f.paymentMode,
                 if f.quantity.Some? && Truthy(f.quantity.value) then Some(ParseInt(f.quantity.value)) else None)
  }

  /** A quantity field holding the decimal digits of n reaches the schema as n. */
  lemma QuantityFieldRead(f: FormFields, n: int)
    requires f.quantity == Some(IntToString(n))
    ensures RawData(f).quantity == Some(Int(n))
  {
    ParseIntOfIntToString(n);
    assert IntToString(n) != "" by {
      if n >= 0 { NatToStringValue(n); } else { assert IntToString(n)[0] == '-'; }
    }
  }

  const QuantityRequired := NewValidationError("Quantity is required for credit mode", None)

  /** `!validatedData.quantity`: undefined and 0 are falsy. */
  predicate MissingQuantity(v: CheckoutInput) {
    v.quantity.None? || v.quantity.value == 0
  }

  /** The credit-mode check as written: it compares the mode with
      "credit-mode", a value the schema never lets through. */
  function CreditModeCheck(v: CheckoutInput): (r: Option<ApiError>)
    ensures r.Some? <==> v.paymentMode == "credit-mode" && MissingQuantity(v)
    ensures r.Some? ==> r.value == QuantityRequired
  {
    if v.paymentMode == "credit-mode" && MissingQuantity(v) then Some(QuantityRequired) else None
  }

  /** The check as intended: a credit purchase must name its quantity. */
  function CreditModeCheckCorrected(v: CheckoutInput): (r: Option<ApiError>)
    ensures r.Some? <==> v.paymentMode == "credit-purchase" && MissingQuantity(v)
    ensures r.Some? ==> r.value == QuantityRequired && r.value.statusCode == 400
  {
    if v.paymentMode == "credit-purchase" && MissingQuantity(v) then Some(QuantityRequired) else None
  }

  /** No validated request is ever stopped by the check as written. */
  lemma CreditModeCheckNeverFires(f: FormFields)
    requires ParseCheckoutSession(RawData(f)).Success?
    ensures CreditModeCheck(ParseCheckoutSession(RawData(f)).value).None?
  {
  }

  /** The service request: the validated input plus the demo user. */
  function ParamsOf(v: CheckoutInput): (p: Checkout.CheckoutParams)
    ensures p.productId == v.productId && p.paymentMode == v.paymentMode && p.quantity == v.quantity
    ensures p.userId == DemoUserId && p.customerEmail == DemoUserEmail
  {
    Checkout.CheckoutParams(v.productId, v.paymentMode, v.quantity, DemoUserId, DemoUserEmail)
  }

  /** The response and the Stripe account after the POST; `intended` selects
      the corrected credit-mode check. A form the schema rejects throws a
      ZodError, which the handler answers with 500. */
  function PostOutcome(s: Snapshot, f: FormFields, baseUrl: string, newCustomerId: string,
                       outcome: SessionOutcome, intended: bool)
    : (r: (Response<()>, Snapshot))
    ensures ParseCheckoutSession(RawData(f)).Failure? ==> r == (HandleApiError(Foreign(ZodError)), s)
    ensures r.0.Redirect? ==> r.0.redirectStatus == 303
  {
    match ParseCheckoutSession(RawData(f))
    case Failure(_) => (HandleApiError(Foreign(ZodError)), s)
    case Success(v) =>
      var check := if intended then CreditModeCheckCorrected(v) else CreditModeCheck(v);
      if check.Some? then (HandleApiError(Api(check.value)), s)
      else
        var o := Checkout.CheckoutOutcome(s, ParamsOf(v), baseUrl, newCustomerId, outcome);
        if o.0.Success? then (RedirectResponse(o.0.value.url), o.1)
        else (HandleApiError(Api(o.0.error)), o.1)
  }

  /** The route redirects exactly when the form is valid, passes the
      credit-mode check and the service returns a session; the redirect goes
      to Stripe's URL and that session is the account's newest. */
  lemma RedirectIffSession(s: Snapshot, f: FormFields, baseUrl: string, newCustomerId: string,
                           outcome: SessionOutcome, intended: bool)
    ensures var r := PostOutcome(s, f, baseUrl, newCustomerId, outcome, intended);
      r.0.Redirect? ==>
        && outcome.Created? && outcome.url.Some?
        && r.0.location == outcome.url.value
        && |r.1.sessions| == |s.sessions| + 1 && r.1.sessions[0].id == outcome.id
        && r.1.sessions[1..] == s.sessions
    ensures var r := PostOutcome(s, f, baseUrl, newCustomerId, outcome, intended);
      var v := ParseCheckoutSession(RawData(f));
      r.0.Redirect? <==>
        && v.Success?
        && !(intended && v.value.paymentMode == "credit-purchase" && MissingQuantity(v.value))
        && Checkout.CheckoutOutcome(s, ParamsOf(v.value), baseUrl, newCustomerId, outcome).0.Success?
  {
    var r := PostOutcome(s, f, baseUrl, newCustomerId, outcome, intended);
    match ParseCheckoutSession(RawData(f))
    case Failure(_) =>
    case Success(v) =>
      var o := Checkout.CheckoutOutcome(s, ParamsOf(v), baseUrl, newCustomerId, outcome);
      if r.0.Redirect? {
        assert o.0.Success?;
      }
  }

  /** Every answer other than the redirect is an error envelope with one of
      the service's statuses or 500. */
  lemma PostErrorStatuses(s: Snapshot, f: FormFields, baseUrl: string, newCustomerId: string,
                          outcome: SessionOutcome, intended: bool)
    ensures var r := PostOutcome(s, f, baseUrl, newCustomerId, outcome, intended);
      r.0.Json? ==> !r.0.body.Succeeded() && r.0.status in {400, 404, 409, 500}
  {
  }

  /** A validated form stopped by the credit-mode check is answered with
      that check's 400 envelope, and Stripe is not called. */
  lemma CreditCheckAnswers(s: Snapshot, f: FormFields, baseUrl: string, newCustomerId: string,
                           outcome: SessionOutcome, intended: bool)
    ensures var r := PostOutcome(s, f, baseUrl, newCustomerId, outcome, intended);
      var v := ParseCheckoutSession(RawData(f));
      v.Success? ==>
        var check := if intended then CreditModeCheckCorrected(v.value) else CreditModeCheck(v.value);
        check.Some? ==>
          r == (Json(400, ErrorBody(check.value.message, check.value.code, check.value.details)), s)
  {
  }

  /** A service failure surfaces with the service error's own status,
      message, code and details, and the account is the one the service
      left: a customer it created on the way stays created. */
  lemma ServiceErrorSurfaces(s: Snapshot, f: FormFields, baseUrl: string, newCustomerId: string,
                             outcome: SessionOutcome, intended: bool)
    ensures var r := PostOutcome(s, f, baseUrl, newCustomerId, outcome, intended);
      var v := ParseCheckoutSession(RawData(f));
      v.Success? && (if intended then CreditModeCheckCorrected(v.value) else CreditModeCheck(v.value)).None? ==>
        var o := Checkout.CheckoutOutcome(s, ParamsOf(v.value), baseUrl, newCustomerId, outcome);
        o.0.Failure? ==>
          && r.0 == Json(o.0.error.statusCode, ErrorBody(o.0.error.message, o.0.error.code, o.0.error.details))
          && r.1 == o.1
  {
  }

  /** Whatever the answer, the POST leaves the account's prices, products
      and subscriptions as they were: only customers and sessions are added. */
  lemma PostKeepsCatalogue(s: Snapshot, f: FormFields, baseUrl: string, newCustomerId: string,
                           outcome: SessionOutcome, intended: bool)
    ensures var r := PostOutcome(s, f, baseUrl, newCustomerId, outcome, intended);
      r.1.prices == s.prices && r.1.subscriptions == s.subscriptions && r.1.products == s.products
      && r.1.invoiceCalls == s.invoiceCalls
  {
  }

  /** A form the schema rejects (an empty product id, an unknown mode, a
      quantity below 1 or not a number) answers 500 INTERNAL_ERROR and
      leaves the account untouched. */
  lemma InvalidFormIsInternalError(s: Snapshot, f: FormFields, baseUrl: string, newCustomerId: string,
                                   outcome: SessionOutcome, intended: bool)
    requires f.productId == Some("") || f.paymentMode == Some("credit-mode")
    ensures PostOutcome(s, f, baseUrl, newCustomerId, outcome, intended)
      == (Json(500, ErrorBody("Internal server error", Some("INTERNAL_ERROR"), None)), s)
  {
    assert "credit-mode" !in PaymentModes;
  }

  /** As written, a credit purchase without a quantity is not refused: it
      goes to the service unchanged, and when Stripe creates the session the
      route redirects to a session for one unit. */
  lemma CreditWithoutQuantityPasses(s: Snapshot, product: string, baseUrl: string, newCustomerId: string,
                                    outcome: SessionOutcome)
    requires |product| >= 1
    ensures var f := FormFields(Some(product), Some("credit-purchase"), None);
      var o := Checkout.CheckoutOutcome(s, ParamsOf(CheckoutInput(product, "credit-purchase", None)),
                                        baseUrl, newCustomerId, outcome);
      && PostOutcome(s, f, baseUrl, newCustomerId, outcome, false).1 == o.1
      && (o.0.Success? ==>
            PostOutcome(s, f, baseUrl, newCustomerId, outcome, false).0 == RedirectResponse(o.0.value.url)
            && o.1.sessions[0].params.lineItems
               == [LineItem(Prices.FindByProductId(s.prices, product).value.id, 1)])
  {
    var v := CheckoutInput(product, "credit-purchase", None);
    assert ParseCheckoutSession(RawData(FormFields(Some(product), Some("credit-purchase"), None))) == Success(v);
  }

  /** With the corrected check the same form is refused with 400
      VALIDATION_ERROR before the service runs. */
  lemma CreditWithoutQuantityRefused(s: Snapshot, product: string, baseUrl: string, newCustomerId: string,
                                     outcome: SessionOutcome)
    requires |product| >= 1
    ensures PostOutcome(s, FormFields(Some(product), Some("credit-purchase"), None),
                        baseUrl, newCustomerId, outcome, true)
      == (Json(400, ErrorBody("Quantity is required for credit mode", Some("VALIDATION_ERROR"), None)), s)
  {
    var v := CheckoutInput(product, "credit-purchase", None);
    assert ParseCheckoutSession(RawData(FormFields(Some(product), Some("credit-purchase"), None))) == Success(v);
  }

  /** `POST`: the same steps against the Stripe account. */
  method Post(acct: Account, f: FormFields, baseUrl: string, newCustomerId: string,
              outcome: SessionOutcome, intended: bool)
    returns (r: Response<()>)
    modifies acct
    ensures (r, acct.State()) == PostOutcome(old(acct.State()), f, baseUrl, newCustomerId, outcome, intended)
  {
    var parsed := ParseCheckoutSession(RawData(f));
    if parsed.Failure? {
      return HandleApiError(Foreign(ZodError));
    }
    var v := parsed.value;
    var check := if intended then CreditModeCheckCorrected(v) else CreditModeCheck(v);
    if check.Some? {
      return HandleApiError(Api(check.value));
    }
    var result := Checkout.CreateCheckoutSession(acct, ParamsOf(v), baseUrl, newCustomerId, outcome);
    if result.Success? {
      r := RedirectResponse(result.value.url);
    } else {
      r := HandleApiError(Api(result.error));
    }
  }
}
