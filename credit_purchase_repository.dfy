/** `CreditPurchaseRepository` (src/repositories/credit-purchase.repository.ts):
    the one-off purchase table, keyed by the Stripe payment intent. */
module CreditPurchaseRepository {
  import opened Wrappers
  import opened JsRuntime
  import opened Query
  import opened Prisma
  import UserRepository
  import PlanRepository

  /** The `CreditPurchaseCreateInput` the webhook builds: user and plan are
      `connect`ed by id; the numbers are whatever `parseInt` gave and the
      payment intent may be null. */
  datatype NewPurchase = NewPurchase(
    userId: string,
    planId: string,
    quantity: Num,
    totalAmount: Num,
    stripePaymentIntentId: Option<string>)

  /** `findUnique({ where: { stripePaymentIntentId } })`. */
  function FindByStripePaymentIntentId(purchases: seq<CreditPurchase>, pi: string): (r: Option<CreditPurchase>)
    ensures r.Some? ==> r.value in purchases && r.value.stripePaymentIntentId == pi
    ensures r.None? <==> forall k :: 0 <= k < |purchases| ==> purchases[k].stripePaymentIntentId != pi
  {
    FindFirst(purchases, (c: CreditPurchase) => c.stripePaymentIntentId == pi)
  }

  /** The row `create` would insert. */
  function RowOf(data: NewPurchase, gen: Fresh): CreditPurchase
    requires data.quantity.Int? && data.totalAmount.Int? && data.stripePaymentIntentId.Some?
  {
    CreditPurchase(gen.id, data.userId, data.planId, data.quantity.value, data.totalAmount.value,
                   data.stripePaymentIntentId.value, gen.now)
  }

  /** The purchase table after `create(data)`. Prisma refuses NaN numbers and
      a null payment intent, a `connect` to a missing user or plan, and a
      payment intent (or id) already in the table. */
  function AfterCreate(t: Tables, data: NewPurchase, gen: Fresh): (r: Result<seq<CreditPurchase>, DbError>)
    ensures r.Success? <==>
      && data.quantity.Int? && data.totalAmount.Int? && data.stripePaymentIntentId.Some?
      && UserRepository.FindById(t.users, data.userId).Some?
      && PlanRepository.FindById(t.plans, data.planId).Some?
      && FindByStripePaymentIntentId(t.purchases, data.stripePaymentIntentId.value).None?
      && (forall k :: 0 <= k < |t.purchases| ==> t.purchases[k].id != gen.id)
    ensures data.stripePaymentIntentId.Some? && data.quantity.Int? && data.totalAmount.Int?
         && FindByStripePaymentIntentId(t.purchases, data.stripePaymentIntentId.value).Some?
         ==> r.Failure?
    ensures r.Success? ==> r.value == t.purchases + [RowOf(data, gen)]
  {
    if data.quantity.NaN? || data.totalAmount.NaN? || data.stripePaymentIntentId.None? then Failure(InvalidValue)
    else if UserRepository.FindById(t.users, data.userId).None? || PlanRepository.FindById(t.plans, data.planId).None? then
      Failure(MissingRelation)
    else if FindByStripePaymentIntentId(t.purchases, data.stripePaymentIntentId.value).Some?
         || exists k :: 0 <= k < |t.purchases| && t.purchases[k].id == gen.id then
      Failure(UniqueViolation)
    else Success(t.purchases + [RowOf(data, gen)])
  }

  /** A created purchase keeps both unique columns unique and is what the
      lookup by its payment intent then returns. */
  lemma CreateThenFind(t: Tables, data: NewPurchase, gen: Fresh)
    requires UniqueBy(t.purchases, (c: CreditPurchase) => c.id)
    requires UniqueBy(t.purchases, (c: CreditPurchase) => c.stripePaymentIntentId)
    requires AfterCreate(t, data, gen).Success?
    ensures UniqueBy(AfterCreate(t, data, gen).value, (c: CreditPurchase) => c.id)
    ensures UniqueBy(AfterCreate(t, data, gen).value, (c: CreditPurchase) => c.stripePaymentIntentId)
    ensures FindByStripePaymentIntentId(AfterCreate(t, data, gen).value, data.stripePaymentIntentId.value)
      == Some(RowOf(data, gen))
  {
    var row := RowOf(data, gen);
    var after := t.purchases + [row];
    InsertKeepsUnique(t.purchases, (c: CreditPurchase) => c.id, row);
    InsertKeepsUnique(t.purchases, (c: CreditPurchase) => c.stripePaymentIntentId, row);
    FindFirstOnly(after, (c: CreditPurchase) => c.stripePaymentIntentId == row.stripePaymentIntentId, |t.purchases|);
  }

  /** `findByUserId`: the user's purchases, newest first. */
  function FindByUserId(purchases: seq<CreditPurchase>, userId: string): (r: seq<CreditPurchase>)
    ensures forall k :: 0 <= k < |r| ==> r[k] in purchases && r[k].userId == userId
    ensures forall k :: 0 <= k < |purchases| && purchases[k].userId == userId ==> purchases[k] in r
    ensures forall x :: multiset(r)[x] == if x.userId == userId then multiset(purchases)[x] else 0
    ensures SortedDesc(r, (c: CreditPurchase) => c.createdAt)
  {
    NewestFirst(purchases, (c: CreditPurchase) => c.userId == userId, (c: CreditPurchase) => c.createdAt)
  }

  /** `create`: inserts the row and returns it. */
  method Create(db: Database, data: NewPurchase, gen: Fresh) returns (r: Result<CreditPurchase, DbError>)
    modifies db
    ensures var t := AfterCreate(old(db.State()), data, gen);
      t.Success? ==>
        db.State() == old(db.State()).(purchases := t.value) && r == Success(RowOf(data, gen))
    ensures var t := AfterCreate(old(db.State()), data, gen);
      t.Failure? ==>
        db.State() == old(db.State()) && r == Failure(t.error)
  {
    var t := AfterCreate(db.State(), data, gen);
    if t.Failure? {
      return Failure(t.error);
    }
    db.purchases := t.value;
    r := Success(RowOf(data, gen));
  }
}
