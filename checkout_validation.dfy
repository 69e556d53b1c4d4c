/** The zod schemas of src/lib/validations/checkout.validation.ts, read as
    validators: a raw value is accepted (and returned with the schema's
    output shape) or rejected with a ZodError. */
module CheckoutValidation {
  import opened Wrappers
  import opened JsRuntime

  /** The record the checkout route hands to `checkoutSessionSchema.parse`.
      `None` in `productId`/`paymentMode` is the `null` that `formData.get`
      returns for a missing field; `None` in `quantity` is `undefined`. The
      route only ever puts a `parseInt` result there, an integer or NaN. */
  datatype CheckoutForm = CheckoutForm(
    productId: Option<string>,
    paymentMode: Option<string>,
    quantity: Option<Num>)

  /** The schema's output. */
  datatype CheckoutInput = CheckoutInput(productId: string, paymentMode: string, quantity: Option<int>)

  const PaymentModes: set<string> := {"credit-purchase", "subscription"}

  /** `checkoutSessionSchema.parse`: `productId` a string of length at least 1,
      `paymentMode` exactly "credit-purchase" or "subscription", `quantity`
      absent or a number at least 1 (zod rejects NaN). */
  function ParseCheckoutSession(raw: CheckoutForm): (r: Result<CheckoutInput, ()>)
    ensures r.Success? <==>
      && raw.productId.Some? && |raw.productId.value| >= 1
      && raw.paymentMode.Some? && raw.paymentMode.value in PaymentModes
      && (raw.quantity.Some? ==> raw.quantity.value.Int? && raw.quantity.value.value >= 1)
    ensures r.Success? ==>
      && r.value.productId == raw.productId.value
      && r.value.paymentMode == raw.paymentMode.value
      && (r.value.quantity.Some? <==> raw.quantity.Some?)
      && (r.value.quantity.Some? ==> Int(r.value.quantity.value) == raw.quantity.value)
  {
    if raw.productId.None? || |raw.productId.value| < 1 then Failure(())
    else if raw.paymentMode.None? || raw.paymentMode.value !in PaymentModes then Failure(())
    else match raw.quantity
      case None => Success(CheckoutInput(raw.productId.value, raw.paymentMode.value, None))
      case Some(NaN) => Failure(())
      case Some(Int(q)) =>
        if q < 1 then Failure(())
        else Success(CheckoutInput(raw.productId.value, raw.paymentMode.value, Some(q)))
  }

  /** Enough of a JavaScript value to state `webhookEventSchema`. */
  datatype JsValue =
    | JsNull
    | JsBool(b: bool)
    | JsNumber(n: Num)
    | JsString(s: string)
    | JsArray(items: seq<JsValue>)
    | JsObject(fields: map<string, JsValue>)

  datatype WebhookEnvelope = WebhookEnvelope(eventType: string, payload: map<string, JsValue>)

  /** `webhookEventSchema.parse`: an object whose `type` is a string and whose
      `data.object` is a record (a plain object; arrays and null are not). */
  function ParseWebhookEvent(v: JsValue): (r: Option<WebhookEnvelope>)
    ensures r.Some? <==>
      && v.JsObject?
      && "type" in v.fields && v.fields["type"].JsString?
      && "data" in v.fields && v.fields["data"].JsObject?
      && "object" in v.fields["data"].fields && v.fields["data"].fields["object"].JsObject?
    ensures r.Some? ==>
      && r.value.eventType == v.fields["type"].s
      && r.value.payload == v.fields["data"].fields["object"].fields
  {
    if v.JsObject? && "type" in v.fields && v.fields["type"].JsString?
       && "data" in v.fields && v.fields["data"].JsObject?
       && "object" in v.fields["data"].fields && v.fields["data"].fields["object"].JsObject?
    then Some(WebhookEnvelope(v.fields["type"].s, v.fields["data"].fields["object"].fields))
    else None
  }
}
