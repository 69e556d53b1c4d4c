/** `StripeCheckoutService` (src/services/stripe/stripe-checkout.service.ts):
    turns a validated checkout request into a Stripe Checkout session, after
    finding the product's active price, getting or creating the customer and
    refusing a second subscription to the same product. */
module StripeCheckoutService {
  import opened Wrappers
  import opened JsRuntime
  import opened ApiErrors
  import opened Stripe
  import Customers = StripeCustomerRepository
  import Prices = StripePriceRepository
  import Subscriptions = StripeSubscriptionRepository

  /** `CreateCheckoutSessionParams`. */
  datatype CheckoutParams = CheckoutParams(
    productId: string,
    paymentMode: string,
    quantity: Option<int>,
    userId: string,
    customerEmail: string)

  /** `CheckoutSessionResult`. */
  datatype CheckoutSessionResult = CheckoutSessionResult(sessionId: string, url: string)

  const ProductNotFound := NewApiError(404, "Product not found or inactive", None, None)
  const SubscriptionExists :=
    NewApiError(409, "You already have an active subscription for this product.", Some("SUBSCRIPTION_EXISTS"), None)
  const InvalidQuantity := NewApiError(400, "Invalid quantity", None, None)
  const MissingUrl := NewStripeError("Failed to create checkout session URL", None, None)

  predicate IsCreditPurchase(p: CheckoutParams) {
    p.paymentMode == "credit-purchase"
  }

  /** `paymentMode === "credit-purchase" ? quantity || 1 : 1`: an absent or
      zero quantity becomes 1, and a subscription always has quantity 1. */
  function EffectiveQuantity(p: CheckoutParams): (q: int)
    ensures !IsCreditPurchase(p) ==> q == 1
    ensures IsCreditPurchase(p) && p.quantity.Some? && p.quantity.value != 0 ==> q == p.quantity.value
    ensures IsCreditPurchase(p) && (p.quantity.None? || p.quantity.value == 0) ==> q == 1
  {
    if IsCreditPurchase(p) && p.quantity.Some? && p.quantity.value != 0 then p.quantity.value else 1
  }

  /** A value of `CheckoutSessionMetadata` before it is turned into a string. */
  datatype MetaValue = MetaString(s: string) | MetaNumber(n: int) | MetaNull

  /** `String(value)`. */
  function Stringify(v: MetaValue): string {
    match v
    case MetaString(s) => s
    case MetaNumber(n) => IntToString(n)
    case MetaNull => "null"
  }

  /** A price's `unit_amount`, which may be null. */
  function UnitAmountValue(unitAmount: Option<int>): MetaValue {
    if unitAmount.Some? then MetaNumber(unitAmount.value) else MetaNull
  }

  /** The entries of the metadata object, in its key order. For a credit
      purchase `creditsBought` is quantity times the unit amount (a null
      amount multiplies as 0); for a subscription it is the unit amount. */
  function MetadataEntries(p: CheckoutParams, customerId: string, unitAmount: Option<int>, quantity: int)
    : seq<(string, MetaValue)>
  {
    [ ("userId", MetaString(p.userId)),
      ("creditsBought",
       if IsCreditPurchase(p) then MetaNumber(quantity * unitAmount.GetOr(0)) else UnitAmountValue(unitAmount)),
      ("type", MetaString(if IsCreditPurchase(p) then "credit_purchase" else "subscription_purchase")),
      ("customerId", MetaString(customerId)),
      ("quantity", MetaNumber(quantity)),
      ("unitPrice", UnitAmountValue(unitAmount)),
      ("productId", MetaString(p.productId)) ]
  }

  /** The metadata record the session carries: every entry, stringified. */
  function SessionMetadata(p: CheckoutParams, customerId: string, unitAmount: Option<int>, quantity: int)
    : (m: map<string, string>)
    ensures m.Keys == {"userId", "creditsBought", "type", "customerId", "quantity", "unitPrice", "productId"}
    ensures m["userId"] == p.userId && m["customerId"] == customerId && m["productId"] == p.productId
    ensures m["type"] == if IsCreditPurchase(p) then "credit_purchase" else "subscription_purchase"
  {
    var credits := if IsCreditPurchase(p) then MetaNumber(quantity * unitAmount.GetOr(0)) else UnitAmountValue(unitAmount);
    map["userId" := p.userId,
        "creditsBought" := Stringify(credits),
        "type" := if IsCreditPurchase(p) then "credit_purchase" else "subscription_purchase",
        "customerId" := customerId,
        "quantity" := IntToString(quantity),
        "unitPrice" := Stringify(UnitAmountValue(unitAmount)),
        "productId" := p.productId]
  }

  /** For a credit purchase with a unit amount, the webhook reads back with
      `parseInt` exactly the numbers the checkout wrote: the credits bought
      (quantity times unit amount), the quantity and the unit price. */
  lemma MetadataRoundTrip(p: CheckoutParams, customerId: string, unitAmount: int, quantity: int)
    requires IsCreditPurchase(p)
    ensures var m := SessionMetadata(p, customerId, Some(unitAmount), quantity);
      && ParseInt(m["creditsBought"]) == Int(quantity * unitAmount)
      && ParseInt(m["quantity"]) == Int(quantity)
      && ParseInt(m["unitPrice"]) == Int(unitAmount)
  {
    var m := SessionMetadata(p, customerId, Some(unitAmount), quantity);
    var credits := quantity * unitAmount;
    assert m["creditsBought"] == IntToString(credits);
    assert m["quantity"] == IntToString(quantity);
    assert m["unitPrice"] == IntToString(unitAmount);
    ParseIntOfIntToString(credits);
    ParseIntOfIntToString(quantity);
    ParseIntOfIntToString(unitAmount);
  }

  /** `reduce((acc, [key, value]) => { acc[key] = String(value); ... }, {})`
      over the entries: later entries overwrite earlier ones. */
  function Record(entries: seq<(string, MetaValue)>): map<string, string> {
    if entries == [] then map[]
    else Record(entries[..|entries| - 1])[entries[|entries| - 1].0 := Stringify(entries[|entries| - 1].1)]
  }

  /** `buildSessionMetadata`: folds the entries into a record, turning each
      value into a string. */
  method BuildSessionMetadata(p: CheckoutParams, customerId: string, unitAmount: Option<int>, quantity: int)
    returns (m: map<string, string>)
    ensures m == SessionMetadata(p, customerId, unitAmount, quantity)
  {
    var entries := MetadataEntries(p, customerId, unitAmount, quantity);
    m := map[];
    var i := 0;
    while i < |entries|
      invariant 0 <= i <= |entries|
      invariant m == Record(entries[..i])
    {
      assert entries[..i + 1][..i] == entries[..i];
      m := m[entries[i].0 := Stringify(entries[i].1)];
      i := i + 1;
    }
    assert entries[..|entries|] == entries;
    RecordOfEntries(p, customerId, unitAmount, quantity);
  }

  /** Folding the seven entries gives the session metadata. */
  lemma RecordOfEntries(p: CheckoutParams, customerId: string, unitAmount: Option<int>, quantity: int)
    ensures Record(MetadataEntries(p, customerId, unitAmount, quantity)) == SessionMetadata(p, customerId, unitAmount, quantity)
  {
    var e := MetadataEntries(p, customerId, unitAmount, quantity);
    var v := seq(7, i requires 0 <= i < 7 => Stringify(e[i].1));
    assert e[..1][..0] == [];
    assert Record(e[..1]) == map[e[0].0 := v[0]];
    assert e[..2][..1] == e[..1];
    assert Record(e[..2]) == map[e[0].0 := v[0], e[1].0 := v[1]];
    assert e[..3][..2] == e[..2];
    assert Record(e[..3]) == map[e[0].0 := v[0], e[1].0 := v[1], e[2].0 := v[2]];
    assert e[..4][..3] == e[..3];
    assert Record(e[..4]) == map[e[0].0 := v[0], e[1].0 := v[1], e[2].0 := v[2], e[3].0 := v[3]];
    assert e[..5][..4] == e[..4];
    assert Record(e[..5]) == map[e[0].0 := v[0], e[1].0 := v[1], e[2].0 := v[2], e[3].0 := v[3], e[4].0 := v[4]];
    assert e[..6][..5] == e[..5];
    assert Record(e[..6]) == map[e[0].0 := v[0], e[1].0 := v[1], e[2].0 := v[2], e[3].0 := v[3], e[4].0 := v[4],
                                 e[5].0 := v[5]];
    assert e[..7][..6] == e[..6] && e[..7] == e;
  }

  /** The `checkout.sessions.create` request for the price, customer and
      quantity. */
  function SessionRequest(p: CheckoutParams, customerId: string, price: Price, quantity: int, baseUrl: string)
    : (r: SessionParams)
    ensures r.customer == customerId && r.lineItems == [LineItem(price.id, quantity)]
    ensures r.mode == if IsCreditPurchase(p) then "payment" else "subscription"
    ensures r.metadata == SessionMetadata(p, customerId, price.unitAmount, quantity)
  {
    SessionParams(
      customerId,
      [LineItem(price.id, quantity)],
      if IsCreditPurchase(p) then "payment" else "subscription",
      baseUrl + "/success?session_id={CHECKOUT_SESSION_ID}",
      baseUrl + "/?canceled=true",
      SessionMetadata(p, customerId, price.unitAmount, quantity))
  }

  /** The steps of `createCheckoutSession` once the price and the customer
      are known: the duplicate-subscription check, the quantity check and
      the session create. Only the session list can change. */
  function SessionStep(s1: Snapshot, p: CheckoutParams, price: Price, customerId: string, baseUrl: string,
                       outcome: SessionOutcome)
    : (r: (Result<CheckoutSessionResult, ApiError>, Snapshot))
    ensures r.1 == s1.(sessions := r.1.sessions)
    ensures r.0.Success? <==>
      && !(p.paymentMode == "subscription" && Subscriptions.HasActiveSubscription(s1.subscriptions, customerId, p.productId))
      && !(IsCreditPurchase(p) && EffectiveQuantity(p) < 1)
      && outcome.Created? && outcome.url.Some? && Truthy(outcome.url.value)
    ensures r.0.Success? ==>
      && r.0.value == CheckoutSessionResult(outcome.id, outcome.url.value)
      && r.1.sessions
         == [Session(outcome.id, SessionRequest(p, customerId, price, EffectiveQuantity(p), baseUrl), outcome.url)]
            + s1.sessions
      && EffectiveQuantity(p) >= 1
    ensures
      (&& !(p.paymentMode == "subscription" && Subscriptions.HasActiveSubscription(s1.subscriptions, customerId, p.productId))
       && !(IsCreditPurchase(p) && EffectiveQuantity(p) < 1)
       && outcome.Created?)
      ==> r.1.sessions
          == [Session(outcome.id, SessionRequest(p, customerId, price, EffectiveQuantity(p), baseUrl), outcome.url)]
             + s1.sessions
    ensures r.0.Failure? && outcome.Created? && r.1.sessions != s1.sessions ==> r.0.error == MissingUrl
    ensures r.0.Failure? && outcome.Refused? ==> r.1.sessions == s1.sessions
    ensures r.0.Failure? ==> r.0.error.statusCode in {400, 409, 500}
    ensures p.paymentMode == "subscription" && Subscriptions.HasActiveSubscription(s1.subscriptions, customerId, p.productId)
      ==> r == (Failure(SubscriptionExists), s1)
    ensures !(p.paymentMode == "subscription" && Subscriptions.HasActiveSubscription(s1.subscriptions, customerId, p.productId))
      && IsCreditPurchase(p) && EffectiveQuantity(p) < 1
      ==> r == (Failure(InvalidQuantity), s1)
    ensures !(p.paymentMode == "subscription" && Subscriptions.HasActiveSubscription(s1.subscriptions, customerId, p.productId))
      && !(IsCreditPurchase(p) && EffectiveQuantity(p) < 1) && outcome.Refused?
      ==> r == (Failure(NewStripeError(outcome.message, None, None)), s1)
    ensures !(p.paymentMode == "subscription" && Subscriptions.HasActiveSubscription(s1.subscriptions, customerId, p.productId))
      && !(IsCreditPurchase(p) && EffectiveQuantity(p) < 1) && outcome.Created?
      && (outcome.url.None? || !Truthy(outcome.url.value))
      ==> r.0 == Failure(MissingUrl)
  {
    if p.paymentMode == "subscription" && Subscriptions.HasActiveSubscription(s1.subscriptions, customerId, p.productId) then
      (Failure(SubscriptionExists), s1)
    else
      var q := EffectiveQuantity(p);
      if IsCreditPurchase(p) && q < 1 then (Failure(InvalidQuantity), s1)
      else match outcome
        case Refused(message) => (Failure(NewStripeError(message, None, None)), s1)
        case Created(id, url) =>
          var s2 := s1.(sessions := [Session(id, SessionRequest(p, customerId, price, q, baseUrl), url)] + s1.sessions);
          if url.None? || !Truthy(url.value) then (Failure(MissingUrl), s2)
          else (Success(CheckoutSessionResult(id, url.value)), s2)
  }

  /** The outcome of `createCheckoutSession` and the Stripe account after
      it, given the id Stripe would give a new customer and what Stripe
      answers to the session create. A customer created on the way stays
      created when the request is refused later. */
  function CheckoutOutcome(s: Snapshot, p: CheckoutParams, baseUrl: string, newCustomerId: string,
                           outcome: SessionOutcome)
    : (r: (Result<CheckoutSessionResult, ApiError>, Snapshot))
    ensures Prices.FindByProductId(s.prices, p.productId).None? ==> r == (Failure(ProductNotFound), s)
    ensures var price := Prices.FindByProductId(s.prices, p.productId);
      price.Some? ==>
        && Customers.FindByEmail(r.1.customers, p.customerEmail).Some?
        && r.1.customers == Customers.GetOrCreateOutcome(s.customers, p.customerEmail, p.userId, newCustomerId).1
    ensures r.1.prices == s.prices && r.1.subscriptions == s.subscriptions && r.1.products == s.products
    ensures r.1.invoiceCalls == s.invoiceCalls
    ensures r.0.Success? <==>
      && Prices.FindByProductId(s.prices, p.productId).Some?
      && !(p.paymentMode == "subscription" && Subscriptions.HasActiveSubscription(s.subscriptions,
             Customers.GetOrCreateOutcome(s.customers, p.customerEmail, p.userId, newCustomerId).0.id, p.productId))
      && !(IsCreditPurchase(p) && EffectiveQuantity(p) < 1)
      && outcome.Created? && outcome.url.Some? && Truthy(outcome.url.value)
    ensures r.0.Success? ==>
      && r.0.value == CheckoutSessionResult(outcome.id, outcome.url.value)
      && r.1.sessions == [Session(outcome.id,
           SessionRequest(p, Customers.GetOrCreateOutcome(s.customers, p.customerEmail, p.userId, newCustomerId).0.id,
                          Prices.FindByProductId(s.prices, p.productId).value, EffectiveQuantity(p), baseUrl),
           outcome.url)] + s.sessions
      && EffectiveQuantity(p) >= 1
    ensures r.0.Failure? && outcome.Refused? ==> r.1.sessions == s.sessions
    ensures r.0.Failure? ==> r.0.error.statusCode in {400, 404, 409, 500}
  {
    match Prices.FindByProductId(s.prices, p.productId)
    case None => (Failure(ProductNotFound), s)
    case Some(price) =>
      var (customer, customers) := Customers.GetOrCreateOutcome(s.customers, p.customerEmail, p.userId, newCustomerId);
      Customers.GetOrCreateCount(s.customers, p.customerEmail, p.userId, newCustomerId);
      SessionStep(s.(customers := customers), p, price, customer.id, baseUrl, outcome)
  }

  /** Which error each refusal raises, once the product has a price and the
      customer is found or created: 409 SUBSCRIPTION_EXISTS for a blocking
      subscription, 400 "Invalid quantity" for a credit quantity below 1,
      Stripe's refusal wrapped as a StripeError, and the 500 for a session
      without a URL. The customer stays created in every case. */
  lemma CheckoutErrors(s: Snapshot, p: CheckoutParams, baseUrl: string, newCustomerId: string,
                       outcome: SessionOutcome)
    requires Prices.FindByProductId(s.prices, p.productId).Some?
    ensures var r := CheckoutOutcome(s, p, baseUrl, newCustomerId, outcome);
      var (c, customers) := Customers.GetOrCreateOutcome(s.customers, p.customerEmail, p.userId, newCustomerId);
      var block := p.paymentMode == "subscription" && Subscriptions.HasActiveSubscription(s.subscriptions, c.id, p.productId);
      var badQuantity := IsCreditPurchase(p) && EffectiveQuantity(p) < 1;
      && (block ==> r == (Failure(SubscriptionExists), s.(customers := customers)))
      && (!block && badQuantity ==> r == (Failure(InvalidQuantity), s.(customers := customers)))
      && (!block && !badQuantity && outcome.Refused? ==>
            r == (Failure(NewStripeError(outcome.message, None, None)), s.(customers := customers)))
      && (!block && !badQuantity && outcome.Created? && (outcome.url.None? || !Truthy(outcome.url.value)) ==>
            r.0 == Failure(MissingUrl))
  {
  }

  /** A subscription request from a customer who already has an active,
      trialing or past-due subscription to the product is refused with 409,
      creates no customer and no session. */
  lemma SecondSubscriptionRefused(s: Snapshot, p: CheckoutParams, baseUrl: string, newCustomerId: string,
                                  outcome: SessionOutcome, c: Customer, existing: Subscription)
    requires Prices.FindByProductId(s.prices, p.productId).Some?
    requires p.paymentMode == "subscription"
    requires Customers.FindByEmail(s.customers, p.customerEmail) == Some(c)
    requires existing in Subscriptions.ListForCustomer(s.subscriptions, c.id)
    requires Subscriptions.IsActiveStatus(existing.status) && Subscriptions.HasProduct(existing, p.productId)
    ensures CheckoutOutcome(s, p, baseUrl, newCustomerId, outcome) == (Failure(SubscriptionExists), s)
  {
    var listed := Subscriptions.ListForCustomer(s.subscriptions, c.id);
    var k :| 0 <= k < |listed| && listed[k] == existing;
    assert Subscriptions.IsActiveStatus(listed[k].status);
    assert s.(customers := s.customers) == s;
  }

  /** A credit purchase with no quantity is a session for one unit. */
  lemma MissingQuantityIsOne(s: Snapshot, p: CheckoutParams, baseUrl: string, newCustomerId: string,
                             outcome: SessionOutcome)
    requires IsCreditPurchase(p) && p.quantity.None?
    requires CheckoutOutcome(s, p, baseUrl, newCustomerId, outcome).0.Success?
    ensures CheckoutOutcome(s, p, baseUrl, newCustomerId, outcome).1.sessions[0].params.lineItems
      == [LineItem(Prices.FindByProductId(s.prices, p.productId).value.id, 1)]
  {
  }

  /** The session create, once the price and the customer are known. */
  method OpenSession(acct: Account, p: CheckoutParams, price: Price, customerId: string, baseUrl: string,
                     outcome: SessionOutcome)
    returns (r: Result<CheckoutSessionResult, ApiError>)
    modifies acct
    ensures (r, acct.State()) == SessionStep(old(acct.State()), p, price, customerId, baseUrl, outcome)
  {
    ghost var s0 := acct.State();
    if p.paymentMode == "subscription" && Subscriptions.HasActiveSubscription(acct.subscriptions, customerId, p.productId) {
      return Failure(SubscriptionExists);
    }
    var q := EffectiveQuantity(p);
    if IsCreditPurchase(p) && q < 1 {
      return Failure(InvalidQuantity);
    }
    var metadata := BuildSessionMetadata(p, customerId, price.unitAmount, q);
    match outcome
    case Refused(message) =>
      return Failure(NewStripeError(message, None, None));
    case Created(id, url) =>
      var request := SessionParams(
        customerId,
        [LineItem(price.id, q)],
        if IsCreditPurchase(p) then "payment" else "subscription",
        baseUrl + "/success?session_id={CHECKOUT_SESSION_ID}",
        baseUrl + "/?canceled=true",
        metadata);
      assert request == SessionRequest(p, customerId, price, q, baseUrl);
      acct.sessions := [Session(id, request, url)] + acct.sessions;
      assert acct.State() == s0.(sessions := [Session(id, request, url)] + s0.sessions);
      if url.None? || !Truthy(url.value) {
        return Failure(MissingUrl);
      }
      r := Success(CheckoutSessionResult(id, url.value));
  }

  /** `createCheckoutSession`. */
  method CreateCheckoutSession(acct: Account, p: CheckoutParams, baseUrl: string, newCustomerId: string,
                               outcome: SessionOutcome)
    returns (r: Result<CheckoutSessionResult, ApiError>)
    modifies acct
    ensures (r, acct.State()) == CheckoutOutcome(old(acct.State()), p, baseUrl, newCustomerId, outcome)
  {
    var price := Prices.FindByProductId(acct.prices, p.productId);
    if price.None? {
      return Failure(ProductNotFound);
    }
    var customer := Customers.GetOrCreate(acct, p.customerEmail, p.userId, newCustomerId);
    r := OpenSession(acct, p, price.value, customer.id, baseUrl, outcome);
  }
}
