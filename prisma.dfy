/** The five Prisma models the billing core reads and writes, with the
    columns it touches, and the database holding them as tables of rows in
    insertion order. Generated values (a new row's cuid and its `createdAt`)
    are not computed here: every create receives them as a `Fresh` value. */
module Prisma {
  import opened Wrappers
  import opened Query

  datatype SubscriptionStatus = ACTIVE | INACTIVE | PAST_DUE | CANCELED | UNPAID | TRIALING

  datatype InvoiceStatus = PENDING | OPEN | PAID | VOID | FAILED | EXPIRED | CANCELED | UNPAID

  /** `credits` is an integer column; `stripeCustomerId` is nullable. The
      user's profile columns are not used by the core. */
  datatype User = User(id: string, email: string, credits: int, stripeCustomerId: Option<string>)

  /** `price` is in cents. `active` defaults to true on create. */
  datatype Plan = Plan(
    id: string,
    name: string,
    description: Option<string>,
    price: int,
    currency: string,
    image: Option<string>,
    priceId: Option<string>,
    active: bool,
    createdAt: int)

  datatype CreditPurchase = CreditPurchase(
    id: string,
    userId: string,
    planId: string,
    quantity: int,
    totalAmount: int,
    stripePaymentIntentId: string,
    createdAt: int)

  /** Times are milliseconds since the epoch. */
  datatype UserSubscription = UserSubscription(
    id: string,
    userId: string,
    planId: string,
    stripeSubscriptionId: string,
    status: SubscriptionStatus,
    startDate: int,
    endDate: int,
    createdAt: int)

  /** An invoice links to at most one purchase and at most one subscription
      through the row ids it stores; times are milliseconds. */
  datatype Invoice = Invoice(
    id: string,
    creditPurchaseId: Option<string>,
    userSubscriptionId: Option<string>,
    stripeInvoiceId: Option<string>,
    totalAmount: int,
    status: InvoiceStatus,
    pdfUrl: Option<string>,
    dueDate: Option<int>,
    paidAt: Option<int>,
    createdAt: int)

  /** What the database generates for a new row. */
  datatype Fresh = Fresh(id: string, now: int)

  /** How a Prisma call fails: `update` of a missing row, a unique
      constraint, a `connect` to a missing row, a value the column refuses
      (NaN or null in a required integer column, an invalid date). */
  datatype DbError = RecordNotFound | UniqueViolation | MissingRelation | InvalidValue

  datatype Tables = Tables(
    users: seq<User>,
    plans: seq<Plan>,
    purchases: seq<CreditPurchase>,
    subscriptions: seq<UserSubscription>,
    invoices: seq<Invoice>)

  /** A nullable unique column: no two rows share a non-null key. */
  predicate UniqueWhenSet<T>(s: seq<T>, key: T -> Option<string>) {
    forall i, j :: 0 <= i < j < |s| && key(s[i]).Some? ==> key(s[i]) != key(s[j])
  }

  /** The database the Prisma client talks to; its tables are reassigned by
      the repositories' writes. */
  class Database {
    var users: seq<User>
    var plans: seq<Plan>
    var purchases: seq<CreditPurchase>
    var subscriptions: seq<UserSubscription>
    var invoices: seq<Invoice>

    constructor (t: Tables)
      ensures State() == t
    {
      users := t.users;
      plans := t.plans;
      purchases := t.purchases;
      subscriptions := t.subscriptions;
      invoices := t.invoices;
    }

    /** The current contents of every table. */
    function State(): Tables
      reads this
    {
      Tables(users, plans, purchases, subscriptions, invoices)
    }
  }
}
