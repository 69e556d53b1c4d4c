/** `StripeWebhookService` (src/services/stripe/stripe-webhook.service.ts):
    verifies an inbound event and applies it to the database. Every handler
    but the subscription purchase swallows its own errors, so a failing
    write leaves the writes before it in place and the event counts as
    handled. Nothing checks whether an event was applied before. */
module StripeWebhookService {
  import opened Wrappers
  import opened JsRuntime
  import opened Query
  import opened Prisma
  import opened ApiErrors
  import Stripe
  import UserRepository
  import UserService
  import PlanRepository
  import Purchases = CreditPurchaseRepository
  import Invoices = InvoiceRepository
  import Subs = UserSubscriptionRepository
  import StripeSubs = StripeSubscriptionRepository
  import Checkout = StripeCheckoutService

  /** The fields of a `Stripe.Checkout.Session` the handlers read. */
  datatype SessionObject = SessionObject(
    mode: string,
    metadata: Option<map<string, string>>,
    paymentIntent: Option<string>,
    invoice: Option<string>,
    amountTotal: Option<int>,
    subscription: Option<string>)

  /** The fields of a `Stripe.Invoice` the handler reads. */
  datatype InvoiceObject = InvoiceObject(id: string, amountPaid: int, invoicePdf: Option<string>)

  /** `event.data.object`, by the kind of object it holds. */
  datatype EventObject =
    | SessionData(session: SessionObject)
    | SubscriptionData(subscription: Stripe.Subscription)
    | InvoiceData(invoice: InvoiceObject)
    | OtherData

  datatype Event = Event(eventType: string, data: EventObject)

  /** What the database generates for the rows one event may create. */
  datatype Generated = Generated(purchase: Fresh, invoice: Fresh, subscription: Fresh)

  /** `constructEvent(body, signature)`: the Stripe verifier's answer, with a
      failure turned into a StripeError (so a 500, not a 400). */
  function ConstructEvent(verified: Result<Event, string>): (r: Result<Event, ApiError>)
    ensures verified.Success? ==> r == Success(verified.value)
    ensures verified.Failure? ==>
      && r.Failure? && r.error.statusCode == 500 && r.error.name == StripeErrorClass
      && r.error == NewStripeError("Webhook signature verification failed: " + verified.error, None, None)
  {
    match verified
    case Success(e) => Success(e)
    case Failure(message) => Failure(NewStripeError("Webhook signature verification failed: " + message, None, None))
  }

  /** `mapStripeSubscriptionStatus`: the six known names map to their status,
      anything else to INACTIVE. */
  function MapStripeSubscriptionStatus(status: string): (r: SubscriptionStatus)
    ensures r == SubscriptionStatus.ACTIVE <==> status == "active"
    ensures r == SubscriptionStatus.PAST_DUE <==> status == "past_due"
    ensures r == SubscriptionStatus.CANCELED <==> status == "canceled"
    ensures r == SubscriptionStatus.UNPAID <==> status == "unpaid"
    ensures r == SubscriptionStatus.TRIALING <==> status == "trialing"
    ensures r == SubscriptionStatus.INACTIVE <==> status !in {"active", "past_due", "canceled", "unpaid", "trialing"}
  {
    match status
    case "active" => SubscriptionStatus.ACTIVE
    case "inactive" => SubscriptionStatus.INACTIVE
    case "past_due" => SubscriptionStatus.PAST_DUE
    case "canceled" => SubscriptionStatus.CANCELED
    case "unpaid" => SubscriptionStatus.UNPAID
    case "trialing" => SubscriptionStatus.TRIALING
    case _ => SubscriptionStatus.INACTIVE
  }

  /** The local "active" test is narrower than the Stripe-side one: a
      subscription Stripe reports past due blocks a new checkout but does not
      count as active in the database. */
  lemma ActiveStatusesDiffer(status: string)
    ensures Subs.CountsAsActive(MapStripeSubscriptionStatus(status)) ==> StripeSubs.IsActiveStatus(status)
    ensures StripeSubs.IsActiveStatus("past_due") && !Subs.CountsAsActive(MapStripeSubscriptionStatus("past_due"))
  {
  }

  /** Destructuring `session.metadata`: an absent key is `undefined`. */
  function Lookup(md: map<string, string>, key: string): (r: Option<string>)
    ensures r.Some? <==> key in md
    ensures r.Some? ==> r.value == md[key]
  {
    if key in md then Some(md[key]) else None
  }

  /** `parseInt(v)`, where `parseInt(undefined)` is NaN. */
  function ParseField(v: Option<string>): (r: Num)
    ensures v.None? ==> r == NaN
    ensures v.Some? ==> r == ParseInt(v.value)
  {
    if v.Some? then ParseInt(v.value) else NaN
  }

  /** `a * b` on numbers that are NaN or integers. */
  function Times(a: Num, b: Num): (r: Num)
    ensures r.Int? <==> a.Int? && b.Int?
    ensures r.Int? ==> r.value == a.value * b.value
  {
    if a.Int? && b.Int? then Int(a.value * b.value) else NaN
  }

  /** The purchase `handleCreditPurchase` records. */
  function PurchaseData(s: SessionObject, md: map<string, string>, userId: string, productId: string)
    : (d: Purchases.NewPurchase)
    ensures d.userId == userId && d.planId == productId && d.stripePaymentIntentId == s.paymentIntent
    ensures d.quantity == ParseField(Lookup(md, "quantity"))
    ensures d.totalAmount == Times(ParseField(Lookup(md, "unitPrice")), ParseField(Lookup(md, "quantity")))
  {
    var quantity := ParseField(Lookup(md, "quantity"));
    Purchases.NewPurchase(userId, productId, quantity, Times(ParseField(Lookup(md, "unitPrice")), quantity),
                          s.paymentIntent)
  }

  /** The invoice `handleCreditPurchase` records: linked by payment intent,
      PAID, for the session's total. */
  function SessionInvoiceData(s: SessionObject): (d: Invoices.NewInvoice)
    ensures d.purchase == Invoices.ByPaymentIntent(s.paymentIntent) && d.status == InvoiceStatus.PAID
    ensures d.stripeInvoiceId == s.invoice && d.totalAmount == s.amountTotal && d.pdfUrl.None?
  {
    Invoices.NewInvoice(Invoices.ByPaymentIntent(s.paymentIntent), s.invoice, s.amountTotal, InvoiceStatus.PAID, None)
  }

  /** The invoice step of `handleCreditPurchase`: inserted when Prisma
      accepts it, otherwise the refusal is swallowed. */
  function InvoiceStep(t: Tables, s: SessionObject, g: Generated): (r: Tables)
    ensures r == t.(invoices := r.invoices)
    ensures r.invoices == t.invoices || (|r.invoices| == |t.invoices| + 1 && r.invoices[..|t.invoices|] == t.invoices)
  {
    match Invoices.AfterCreate(t, SessionInvoiceData(s), g.invoice)
    case Failure(_) => t
    case Success(invoices) => t.(invoices := invoices)
  }

  /** The purchase step: only when the product is a plan. */
  function PurchaseStep(t: Tables, s: SessionObject, md: map<string, string>, userId: string, productId: string,
                        g: Generated)
    : (r: Result<seq<CreditPurchase>, DbError>)
    ensures PlanRepository.FindById(t.plans, productId).None? ==> r == Success(t.purchases)
    ensures PlanRepository.FindById(t.plans, productId).Some? ==>
      r == Purchases.AfterCreate(t, PurchaseData(s, md, userId, productId), g.purchase)
  {
    if PlanRepository.FindById(t.plans, productId).Some? then
      Purchases.AfterCreate(t, PurchaseData(s, md, userId, productId), g.purchase)
    else Success(t.purchases)
  }

  /** Everything `handleCreditPurchase` does after the credits are added. */
  function RecordStep(t: Tables, s: SessionObject, md: map<string, string>, userId: string, g: Generated): (r: Tables)
    ensures r.users == t.users && r.plans == t.plans && r.subscriptions == t.subscriptions
    ensures r.purchases == t.purchases || (|r.purchases| == |t.purchases| + 1 && r.purchases[..|t.purchases|] == t.purchases
                                           && s.paymentIntent.Some?
                                           && r.purchases[|t.purchases|].stripePaymentIntentId == s.paymentIntent.value)
    ensures r.invoices == t.invoices || (|r.invoices| == |t.invoices| + 1 && r.invoices[..|t.invoices|] == t.invoices)
  {
    var productId := Lookup(md, "productId");
    if productId.None? then t
    else match PurchaseStep(t, s, md, userId, productId.value, g)
      case Failure(_) => t
      case Success(purchases) => InvoiceStep(t.(purchases := purchases), s, g)
  }

  /** The tables after `handleCreditPurchase`: credits are added first; then,
      if the product is a plan, the purchase is recorded; then the invoice.
      The first failure ends the handler and keeps what was written. */
  function CreditPurchaseEffect(t: Tables, s: SessionObject, md: map<string, string>, g: Generated): (r: Tables)
    ensures r.plans == t.plans && r.subscriptions == t.subscriptions
    ensures r.users != t.users ==> Lookup(md, "userId").Some? && ParseField(Lookup(md, "creditsBought")).Int?
    ensures r.purchases == t.purchases || (|r.purchases| == |t.purchases| + 1 && r.purchases[..|t.purchases|] == t.purchases
                                           && s.paymentIntent.Some?
                                           && r.purchases[|t.purchases|].stripePaymentIntentId == s.paymentIntent.value)
    ensures r.invoices == t.invoices || (|r.invoices| == |t.invoices| + 1 && r.invoices[..|t.invoices|] == t.invoices)
  {
    var userId := Lookup(md, "userId");
    if userId.None? then t
    else match UserService.AfterAddCredits(t.users, userId.value, ParseField(Lookup(md, "creditsBought")))
      case Failure(_) => t
      case Success(users) => RecordStep(t.(users := users), s, md, userId.value, g)
  }

  /** What a completed credit checkout needs for everything to be recorded:
      a known user, a numeric credit amount, a known plan, numeric quantity
      and unit price, and a payment intent not yet recorded. */
  predicate CompleteCreditSession(t: Tables, s: SessionObject, md: map<string, string>, g: Generated, credits: int) {
    && "userId" in md && UserRepository.FindById(t.users, md["userId"]).Some?
    && ParseField(Lookup(md, "creditsBought")) == Int(credits)
    && "productId" in md && PlanRepository.FindById(t.plans, md["productId"]).Some?
    && ParseField(Lookup(md, "quantity")).Int? && ParseField(Lookup(md, "unitPrice")).Int?
    && s.paymentIntent.Some? && Purchases.FindByStripePaymentIntentId(t.purchases, s.paymentIntent.value).None?
    && (forall k :: 0 <= k < |t.purchases| ==> t.purchases[k].id != g.purchase.id)
  }

  /** The first delivery of a complete credit checkout adds the credits and
      records one purchase whose total is unit price times quantity. */
  lemma CreditPurchaseDelivered(t: Tables, s: SessionObject, md: map<string, string>, g: Generated, credits: int)
    requires UniqueBy(t.users, (u: User) => u.id)
    requires CompleteCreditSession(t, s, md, g, credits)
    ensures var t1 := CreditPurchaseEffect(t, s, md, g);
      && UserRepository.FindById(t1.users, md["userId"]).Some?
      && UserRepository.FindById(t1.users, md["userId"]).value.credits
         == UserRepository.FindById(t.users, md["userId"]).value.credits + credits
      && t1.purchases == t.purchases + [Purchases.RowOf(PurchaseData(s, md, md["userId"], md["productId"]), g.purchase)]
      && t1.purchases[|t.purchases|].totalAmount
         == ParseField(Lookup(md, "unitPrice")).value * ParseField(Lookup(md, "quantity")).value
  {
    var userId := md["userId"];
    UserRepository.UpdateCreditsSeen(t.users, userId, credits);
    var users := UserService.AfterAddCredits(t.users, userId, Int(credits)).value;
    assert CreditPurchaseEffect(t, s, md, g) == RecordStep(t.(users := users), s, md, userId, g);
    PurchaseRecorded(t.(users := users), s, md, userId, g);
  }

  /** Once the credits are added, a known plan, numeric quantity and unit
      price and a new payment intent make the record step append exactly
      one purchase. */
  lemma PurchaseRecorded(t: Tables, s: SessionObject, md: map<string, string>, userId: string, g: Generated)
    requires UserRepository.FindById(t.users, userId).Some?
    requires "productId" in md && PlanRepository.FindById(t.plans, md["productId"]).Some?
    requires ParseField(Lookup(md, "quantity")).Int? && ParseField(Lookup(md, "unitPrice")).Int?
    requires s.paymentIntent.Some? && Purchases.FindByStripePaymentIntentId(t.purchases, s.paymentIntent.value).None?
    requires forall k :: 0 <= k < |t.purchases| ==> t.purchases[k].id != g.purchase.id
    ensures RecordStep(t, s, md, userId, g).purchases
      == t.purchases + [Purchases.RowOf(PurchaseData(s, md, userId, md["productId"]), g.purchase)]
  {
    var data := PurchaseData(s, md, userId, md["productId"]);
    assert Purchases.AfterCreate(t, data, g.purchase).Success?;
  }

  /** A second delivery of the same completed credit checkout adds the
      credits again and then stops at the purchase, whose payment intent is
      already recorded: credits are applied twice, records once. */
  lemma CreditPurchaseRedelivered(t: Tables, s: SessionObject, md: map<string, string>, g1: Generated, g2: Generated,
                                  credits: int)
    requires UniqueBy(t.users, (u: User) => u.id)
    requires CompleteCreditSession(t, s, md, g1, credits)
    ensures var t1 := CreditPurchaseEffect(t, s, md, g1);
      var t2 := CreditPurchaseEffect(t1, s, md, g2);
      && t2.purchases == t1.purchases
      && t2.invoices == t1.invoices
      && UserRepository.FindById(t2.users, md["userId"]).Some?
      && UserRepository.FindById(t2.users, md["userId"]).value.credits
         == UserRepository.FindById(t.users, md["userId"]).value.credits + 2 * credits
  {
    var userId := md["userId"];
    var pi := s.paymentIntent.value;
    var t1 := CreditPurchaseEffect(t, s, md, g1);
    CreditPurchaseDelivered(t, s, md, g1, credits);
    UserService.AddCreditsTwice(t.users, userId, credits);
    var once := UserService.AfterAddCredits(t.users, userId, Int(credits)).value;
    assert t1.users == once;
    var twice := UserService.AfterAddCredits(once, userId, Int(credits)).value;
    var u := t1.(users := twice);
    assert t1.purchases[|t.purchases|].stripePaymentIntentId == pi;
    assert Purchases.FindByStripePaymentIntentId(u.purchases, pi).Some?;
    var data := PurchaseData(s, md, userId, md["productId"]);
    assert Purchases.AfterCreate(u, data, g2.purchase).Failure?;
    assert RecordStep(u, s, md, userId, g2) == u;
  }

  /** When the product is not a plan, the credits are added but no purchase
      is recorded, and the invoice, which must link to a purchase with the
      session's payment intent, is refused too when there is none. */
  lemma CreditsWithoutRecords(t: Tables, s: SessionObject, md: map<string, string>, g: Generated, credits: int)
    requires UniqueBy(t.users, (u: User) => u.id)
    requires "userId" in md && UserRepository.FindById(t.users, md["userId"]).Some?
    requires ParseField(Lookup(md, "creditsBought")) == Int(credits)
    requires "productId" in md && PlanRepository.FindById(t.plans, md["productId"]).None?
    requires s.paymentIntent.Some? && Purchases.FindByStripePaymentIntentId(t.purchases, s.paymentIntent.value).None?
    ensures var t1 := CreditPurchaseEffect(t, s, md, g);
      && t1.purchases == t.purchases && t1.invoices == t.invoices
      && UserRepository.FindById(t1.users, md["userId"]).Some?
      && UserRepository.FindById(t1.users, md["userId"]).value.credits
         == UserRepository.FindById(t.users, md["userId"]).value.credits + credits
  {
    var userId := md["userId"];
    UserRepository.UpdateCreditsSeen(t.users, userId, credits);
    var users := UserService.AfterAddCredits(t.users, userId, Int(credits)).value;
    assert CreditPurchaseEffect(t, s, md, g) == RecordStep(t.(users := users), s, md, userId, g);
    NothingRecorded(t.(users := users), s, md, userId, g);
  }

  /** When the product is not a plan and no purchase carries the session's
      payment intent, the record step writes nothing. */
  lemma NothingRecorded(t: Tables, s: SessionObject, md: map<string, string>, userId: string, g: Generated)
    requires "productId" in md && PlanRepository.FindById(t.plans, md["productId"]).None?
    requires s.paymentIntent.Some? && Purchases.FindByStripePaymentIntentId(t.purchases, s.paymentIntent.value).None?
    ensures RecordStep(t, s, md, userId, g) == t
  {
    assert PurchaseStep(t, s, md, userId, md["productId"], g) == Success(t.purchases);
    assert t.(purchases := t.purchases) == t;
    assert Invoices.CreateError(t, SessionInvoiceData(s), g.invoice).Some?;
  }

  /** The numbers the checkout writes into the metadata are read back as
      they were written: the credits added equal the purchase total. */
  lemma CheckoutMetadataRead(p: Checkout.CheckoutParams, customerId: string, unitAmount: int, quantity: int)
    requires Checkout.IsCreditPurchase(p)
    ensures var md := Checkout.SessionMetadata(p, customerId, Some(unitAmount), quantity);
      && ParseField(Lookup(md, "creditsBought")) == Int(quantity * unitAmount)
      && Times(ParseField(Lookup(md, "unitPrice")), ParseField(Lookup(md, "quantity"))) == Int(unitAmount * quantity)
      && Lookup(md, "userId") == Some(p.userId) && Lookup(md, "productId") == Some(p.productId)
  {
    Checkout.MetadataRoundTrip(p, customerId, unitAmount, quantity);
  }

  /** The `UserSubscriptionCreateInput` built from the retrieved
      subscription: status mapped; start and first item's period end turned
      from seconds into milliseconds. */
  function SubscriptionData(sub: Stripe.Subscription, userId: string, productId: string): (d: Subs.NewSubscription)
    requires |sub.items| > 0
    ensures d.stripeSubscriptionId == sub.id && d.status == MapStripeSubscriptionStatus(sub.status)
    ensures d.startDate == sub.startDate * 1000 && d.endDate == sub.items[0].currentPeriodEnd * 1000
    ensures d.userId == userId && d.planId == productId
  {
    Subs.NewSubscription(userId, productId, sub.id, MapStripeSubscriptionStatus(sub.status),
                         sub.startDate * 1000, sub.items[0].currentPeriodEnd * 1000)
  }

  /** `subscriptions.retrieve(id)` against the Stripe account's subscriptions. */
  function Retrieve(stripeSubs: seq<Stripe.Subscription>, id: string): (r: Option<Stripe.Subscription>)
    ensures r.Some? ==> r.value in stripeSubs && r.value.id == id
    ensures r.None? <==> forall k :: 0 <= k < |stripeSubs| ==> stripeSubs[k].id != id
  {
    FindFirst(stripeSubs, (x: Stripe.Subscription) => x.id == id)
  }

  /** The tables after `handleSubscriptionPurchase`. Null metadata is a
      TypeError raised outside the handler's `try`, so it escapes; every
      other failure (no subscription id, unknown subscription, no items,
      missing user or plan, a subscription already recorded) is swallowed. */
  function SubscriptionPurchaseEffect(t: Tables, stripeSubs: seq<Stripe.Subscription>, s: SessionObject, g: Generated)
    : (r: Result<Tables, Thrown>)
    ensures r.Failure? <==> s.metadata.None?
    ensures r.Failure? ==> r.error == Foreign(TypeError)
    ensures r.Success? ==> r.value == t.(subscriptions := r.value.subscriptions)
    ensures r.Success? ==>
      (r.value.subscriptions == t.subscriptions
       || (|r.value.subscriptions| == |t.subscriptions| + 1 && r.value.subscriptions[..|t.subscriptions|] == t.subscriptions))
  {
    if s.metadata.None? then Failure(Foreign(TypeError))
    else
      var userId := Lookup(s.metadata.value, "userId");
      var productId := Lookup(s.metadata.value, "productId");
      var sub := if s.subscription.Some? then Retrieve(stripeSubs, s.subscription.value) else None;
      if sub.None? || |sub.value.items| == 0 || userId.None? || productId.None? then Success(t)
      else match Subs.AfterCreate(t, SubscriptionData(sub.value, userId.value, productId.value), g.subscription)
        case Failure(_) => Success(t)
        case Success(subs) => Success(t.(subscriptions := subs))
  }

  /** A subscription purchase whose Stripe subscription is already recorded
      changes nothing, so a redelivery is harmless. */
  lemma SubscriptionPurchaseRedelivered(t: Tables, stripeSubs: seq<Stripe.Subscription>, s: SessionObject, g: Generated,
                                        k: nat)
    requires s.metadata.Some? && s.subscription.Some?
    requires k < |t.subscriptions| && t.subscriptions[k].stripeSubscriptionId == s.subscription.value
    ensures SubscriptionPurchaseEffect(t, stripeSubs, s, g) == Success(t)
  {
    var sub := Retrieve(stripeSubs, s.subscription.value);
    if sub.Some? {
      assert Subs.FindByStripeSubscriptionId(t.subscriptions, sub.value.id).Some?;
    }
  }

  /** The tables after `handleSubscriptionUpdated` (with the mapped status)
      or `handleSubscriptionDeleted` (with CANCELED): the recorded
      subscription gets the status; an unknown one is ignored. */
  function SubscriptionStatusEffect(t: Tables, stripeId: string, status: SubscriptionStatus): (r: Tables)
    ensures r == t.(subscriptions := r.subscriptions) && |r.subscriptions| == |t.subscriptions|
    ensures Subs.FindByStripeSubscriptionId(t.subscriptions, stripeId).None? ==> r == t
  {
    match Subs.FindByStripeSubscriptionId(t.subscriptions, stripeId)
    case None => t
    case Some(row) =>
      match Subs.AfterUpdateStatus(t.subscriptions, row.id, status)
      case Failure(_) => t
      case Success(subs) => t.(subscriptions := subs)
  }

  /** After a status event for a recorded subscription, the lookup by its
      Stripe id shows the new status and the keys stay unique. */
  lemma SubscriptionStatusSeen(t: Tables, k: nat, status: SubscriptionStatus)
    requires UniqueBy(t.subscriptions, (s: UserSubscription) => s.id)
    requires UniqueBy(t.subscriptions, (s: UserSubscription) => s.stripeSubscriptionId)
    requires k < |t.subscriptions|
    ensures var r := SubscriptionStatusEffect(t, t.subscriptions[k].stripeSubscriptionId, status);
      && UniqueBy(r.subscriptions, (s: UserSubscription) => s.id)
      && UniqueBy(r.subscriptions, (s: UserSubscription) => s.stripeSubscriptionId)
      && Subs.FindByStripeSubscriptionId(r.subscriptions, t.subscriptions[k].stripeSubscriptionId)
         == Some(t.subscriptions[k].(status := status))
      && r.subscriptions[k] == t.subscriptions[k].(status := status)
  {
    FindFirstOnly(t.subscriptions,
                  (s: UserSubscription) => s.stripeSubscriptionId == t.subscriptions[k].stripeSubscriptionId, k);
    Subs.UpdateStatusSeen(t.subscriptions, k, status);
  }

  /** Each status event sets the status outright, so the last one delivered
      wins: a stale "updated" event for an active subscription arriving after
      its deletion makes it ACTIVE again. */
  lemma StaleUpdateRevives(t: Tables, k: nat)
    requires UniqueBy(t.subscriptions, (s: UserSubscription) => s.id)
    requires UniqueBy(t.subscriptions, (s: UserSubscription) => s.stripeSubscriptionId)
    requires k < |t.subscriptions|
    ensures var id := t.subscriptions[k].stripeSubscriptionId;
      var deleted := SubscriptionStatusEffect(t, id, SubscriptionStatus.CANCELED);
      var stale := SubscriptionStatusEffect(deleted, id, MapStripeSubscriptionStatus("active"));
      Subs.FindByStripeSubscriptionId(stale.subscriptions, id).value.status == SubscriptionStatus.ACTIVE
  {
    var id := t.subscriptions[k].stripeSubscriptionId;
    SubscriptionStatusSeen(t, k, SubscriptionStatus.CANCELED);
    var deleted := SubscriptionStatusEffect(t, id, SubscriptionStatus.CANCELED);
    SubscriptionStatusSeen(deleted, k, SubscriptionStatus.ACTIVE);
  }

  /** The invoice `handleInvoicePaymentSucceeded` records: unlinked, PAID,
      for the amount paid. */
  function PaidInvoiceData(inv: InvoiceObject): (d: Invoices.NewInvoice)
    ensures d.purchase == Invoices.Unlinked && d.stripeInvoiceId == Some(inv.id)
    ensures d.totalAmount == Some(inv.amountPaid) && d.status == InvoiceStatus.PAID && d.pdfUrl == inv.invoicePdf
  {
    Invoices.NewInvoice(Invoices.Unlinked, Some(inv.id), Some(inv.amountPaid), InvoiceStatus.PAID, inv.invoicePdf)
  }

  /** The tables after `handleInvoicePaymentSucceeded`: the invoice row is
      inserted unless the Stripe invoice id (or the generated id) is taken,
      in which case the refusal is swallowed. */
  function InvoicePaymentEffect(t: Tables, inv: InvoiceObject, g: Generated): (r: Tables)
    ensures r == t.(invoices := r.invoices)
    ensures Invoices.FindByStripeInvoiceId(t.invoices, inv.id).Some? ==> r == t
    ensures Invoices.FindByStripeInvoiceId(t.invoices, inv.id).None? && Invoices.FindById(t.invoices, g.invoice.id).None? ==>
      r.invoices == t.invoices + [Invoices.RowOf(t, PaidInvoiceData(inv), g.invoice)]
  {
    match Invoices.AfterCreate(t, PaidInvoiceData(inv), g.invoice)
    case Failure(_) => t
    case Success(invoices) => t.(invoices := invoices)
  }

  /** A second delivery of the same paid invoice inserts nothing: the
      unique Stripe invoice id refuses it. */
  lemma InvoicePaymentRedelivered(t: Tables, inv: InvoiceObject, g1: Generated, g2: Generated)
    requires Invoices.FindById(t.invoices, g1.invoice.id).None?
    ensures var t1 := InvoicePaymentEffect(t, inv, g1);
      InvoicePaymentEffect(t1, inv, g2) == t1
  {
    var t1 := InvoicePaymentEffect(t, inv, g1);
    if Invoices.FindByStripeInvoiceId(t.invoices, inv.id).None? {
      assert t1.invoices[|t.invoices|].stripeInvoiceId == Some(inv.id);
      assert Invoices.FindByStripeInvoiceId(t1.invoices, inv.id).Some?;
    }
  }

  /** `handleCheckoutSessionCompleted`: a payment-mode session whose
      metadata type is "credit_purchase" is a credit purchase, a
      subscription-mode session a subscription purchase; any other session is
      ignored. */
  function SessionCompletedEffect(t: Tables, stripeSubs: seq<Stripe.Subscription>, s: SessionObject, g: Generated)
    : (r: Result<Tables, Thrown>)
    ensures s.mode == "payment" && s.metadata.Some? && Lookup(s.metadata.value, "type") == Some("credit_purchase") ==>
      r == Success(CreditPurchaseEffect(t, s, s.metadata.value, g))
    ensures s.mode == "payment" && !(s.metadata.Some? && Lookup(s.metadata.value, "type") == Some("credit_purchase")) ==>
      r == Success(t)
    ensures s.mode == "subscription" ==> r == SubscriptionPurchaseEffect(t, stripeSubs, s, g)
    ensures s.mode != "payment" && s.mode != "subscription" ==> r == Success(t)
    ensures r.Failure? ==> s.mode == "subscription" && s.metadata.None?
  {
    if s.mode == "payment" && s.metadata.Some? && Lookup(s.metadata.value, "type") == Some("credit_purchase") then
      Success(CreditPurchaseEffect(t, s, s.metadata.value, g))
    else if s.mode == "subscription" then SubscriptionPurchaseEffect(t, stripeSubs, s, g)
    else Success(t)
  }

  /** `handleEvent`: dispatch on the event type. Subscription creation is
      only logged, as is any other type. */
  function EventEffect(t: Tables, stripeSubs: seq<Stripe.Subscription>, e: Event, g: Generated): (r: Result<Tables, Thrown>)
    ensures !(e.eventType in {"checkout.session.completed", "customer.subscription.updated",
                              "customer.subscription.deleted", "invoice.payment_succeeded"}) ==>
      r == Success(t)
    ensures e.eventType == "checkout.session.completed" && e.data.SessionData? ==>
      r == SessionCompletedEffect(t, stripeSubs, e.data.session, g)
    ensures e.eventType == "customer.subscription.updated" && e.data.SubscriptionData? ==>
      r == Success(SubscriptionStatusEffect(t, e.data.subscription.id,
                                            MapStripeSubscriptionStatus(e.data.subscription.status)))
    ensures e.eventType == "customer.subscription.deleted" && e.data.SubscriptionData? ==>
      r == Success(SubscriptionStatusEffect(t, e.data.subscription.id, SubscriptionStatus.CANCELED))
    ensures e.eventType == "invoice.payment_succeeded" && e.data.InvoiceData? ==>
      r == Success(InvoicePaymentEffect(t, e.data.invoice, g))
    ensures r.Failure? ==> r.error == Foreign(TypeError) && e.eventType == "checkout.session.completed"
  {
    match e.eventType
    case "checkout.session.completed" =>
      if e.data.SessionData? then SessionCompletedEffect(t, stripeSubs, e.data.session, g) else Success(t)
    case "customer.subscription.updated" =>
      if e.data.SubscriptionData? then
        Success(SubscriptionStatusEffect(t, e.data.subscription.id,
                                         MapStripeSubscriptionStatus(e.data.subscription.status)))
      else Success(t)
    case "customer.subscription.deleted" =>
      if e.data.SubscriptionData? then
        Success(SubscriptionStatusEffect(t, e.data.subscription.id, SubscriptionStatus.CANCELED))
      else Success(t)
    case "invoice.payment_succeeded" =>
      if e.data.InvoiceData? then Success(InvoicePaymentEffect(t, e.data.invoice, g)) else Success(t)
    case _ => Success(t)
  }

  /** `handleCreditPurchase`. */
  method HandleCreditPurchase(db: Database, s: SessionObject, md: map<string, string>, g: Generated)
    modifies db
    ensures db.State() == CreditPurchaseEffect(old(db.State()), s, md, g)
  {
    var userId := Lookup(md, "userId");
    if userId.None? {
      return;
    }
    var added := UserService.AddCredits(db, userId.value, ParseField(Lookup(md, "creditsBought")));
    if added.Failure? {
      return;
    }
    RecordPurchase(db, s, md, userId.value, g);
  }

  /** The part of `handleCreditPurchase` after the credits are added. */
  method RecordPurchase(db: Database, s: SessionObject, md: map<string, string>, userId: string, g: Generated)
    modifies db
    ensures db.State() == RecordStep(old(db.State()), s, md, userId, g)
  {
    var productId := Lookup(md, "productId");
    if productId.None? {
      return;
    }
    var plan := PlanRepository.FindById(db.plans, productId.value);
    if plan.Some? {
      var purchase := Purchases.Create(db, PurchaseData(s, md, userId, productId.value), g.purchase);
      if purchase.Failure? {
        return;
      }
    }
    var invoice := Invoices.Create(db, SessionInvoiceData(s), g.invoice);
  }

  /** `handleSubscriptionPurchase`. */
  method HandleSubscriptionPurchase(db: Database, stripeSubs: seq<Stripe.Subscription>, s: SessionObject, g: Generated)
    returns (r: Result<(), Thrown>)
    modifies db
    ensures var e := SubscriptionPurchaseEffect(old(db.State()), stripeSubs, s, g);
      e.Success? ==>
        r.Success? && db.State() == e.value
    ensures var e := SubscriptionPurchaseEffect(old(db.State()), stripeSubs, s, g);
      e.Failure? ==>
        r == Failure(e.error) && db.State() == old(db.State())
  {
    if s.metadata.None? {
      return Failure(Foreign(TypeError));
    }
    r := Success(());
    var userId := Lookup(s.metadata.value, "userId");
    var productId := Lookup(s.metadata.value, "productId");
    if s.subscription.None? {
      return;
    }
    var sub := Retrieve(stripeSubs, s.subscription.value);
    if sub.None? || |sub.value.items| == 0 || userId.None? || productId.None? {
      return;
    }
    var created := Subs.Create(db, SubscriptionData(sub.value, userId.value, productId.value), g.subscription);
  }

  /** `handleSubscriptionUpdated` and `handleSubscriptionDeleted`. */
  method HandleSubscriptionStatus(db: Database, stripeId: string, status: SubscriptionStatus)
    modifies db
    ensures db.State() == SubscriptionStatusEffect(old(db.State()), stripeId, status)
  {
    var row := Subs.FindByStripeSubscriptionId(db.subscriptions, stripeId);
    if row.Some? {
      var updated := Subs.UpdateStatus(db, row.value.id, status);
    }
  }

  /** `handleInvoicePaymentSucceeded`. */
  method HandleInvoicePaymentSucceeded(db: Database, inv: InvoiceObject, g: Generated)
    modifies db
    ensures db.State() == InvoicePaymentEffect(old(db.State()), inv, g)
  {
    var created := Invoices.Create(db, PaidInvoiceData(inv), g.invoice);
  }

  /** `handleEvent`. */
  method HandleEvent(db: Database, stripeSubs: seq<Stripe.Subscription>, e: Event, g: Generated)
    returns (r: Result<(), Thrown>)
    modifies db
    ensures var x := EventEffect(old(db.State()), stripeSubs, e, g);
      x.Success? ==>
        r.Success? && db.State() == x.value
    ensures var x := EventEffect(old(db.State()), stripeSubs, e, g);
      x.Failure? ==>
        r == Failure(x.error) && db.State() == old(db.State())
  {
    r := Success(());
    match e.eventType
    case "checkout.session.completed" =>
      if e.data.SessionData? {
        var s := e.data.session;
        if s.mode == "payment" && s.metadata.Some? && Lookup(s.metadata.value, "type") == Some("credit_purchase") {
          HandleCreditPurchase(db, s, s.metadata.value, g);
        } else if s.mode == "subscription" {
          r := HandleSubscriptionPurchase(db, stripeSubs, s, g);
        }
      }
    case "customer.subscription.updated" =>
      if e.data.SubscriptionData? {
        HandleSubscriptionStatus(db, e.data.subscription.id, MapStripeSubscriptionStatus(e.data.subscription.status));
      }
    case "customer.subscription.deleted" =>
      if e.data.SubscriptionData? {
        HandleSubscriptionStatus(db, e.data.subscription.id, SubscriptionStatus.CANCELED);
      }
    case "invoice.payment_succeeded" =>
      if e.data.InvoiceData? {
        HandleInvoicePaymentSucceeded(db, e.data.invoice, g);
      }
    case _ =>
  }
}
