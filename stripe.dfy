/** The Stripe account the services talk to, reduced to the objects and
    fields the billing core reads or creates. Stripe lists objects newest
    first, so every list here is kept in that order and a create puts the new
    object at the front. Identifiers Stripe generates are parameters of the
    creates. */
module Stripe {
  import opened Wrappers

  /** `customers.create({ email, metadata: { userId } })`. */
  datatype Customer = Customer(id: string, email: string, metadataUserId: string)

  datatype Interval = Month | Year

  /** `unit_amount` is in cents and may be null. */
  datatype Price = Price(
    id: string,
    product: string,
    unitAmount: Option<int>,
    currency: string,
    active: bool,
    recurring: Option<Interval>)

  datatype Product = Product(id: string, name: string, description: Option<string>, images: seq<string>)

  /** An item of a subscription: its price's product and the end of its
      current period, in seconds. */
  datatype SubscriptionItem = SubscriptionItem(product: string, currentPeriodEnd: int)

  /** `status` is Stripe's string; `startDate` is in seconds. */
  datatype Subscription = Subscription(
    id: string,
    customer: string,
    status: string,
    startDate: int,
    items: seq<SubscriptionItem>)

  datatype LineItem = LineItem(price: string, quantity: int)

  /** The parameters of `checkout.sessions.create`. */
  datatype SessionParams = SessionParams(
    customer: string,
    lineItems: seq<LineItem>,
    mode: string,
    successUrl: string,
    cancelUrl: string,
    metadata: map<string, string>)

  datatype Session = Session(id: string, params: SessionParams, url: Option<string>)

  /** What Stripe answers to a session create: the new session's id and URL
      (which may be missing), or an SDK error with its message. */
  datatype SessionOutcome = Created(id: string, url: Option<string>) | Refused(message: string)

  /** `invoiceItems.create` as the invoice generator calls it. */
  datatype InvoiceItem = InvoiceItem(
    customer: string,
    amount: int,
    currency: string,
    description: string,
    metadata: map<string, string>)

  /** `invoices.create` as the invoice generator calls it; `dueDate` in
      seconds when sent. */
  datatype InvoiceParams = InvoiceParams(
    customer: string,
    collectionMethod: string,
    autoAdvance: bool,
    dueDate: Option<int>,
    metadata: Option<map<string, string>>)

  /** A line of a Stripe invoice; `unitAmount` is `price?.unit_amount`,
      missing when the line has no price or the price no amount. */
  datatype InvoiceLine = InvoiceLine(
    id: string,
    description: Option<string>,
    quantity: Option<int>,
    unitAmount: Option<int>,
    amount: int,
    product: Option<string>)

  /** A Stripe invoice as the core reads it; times are in seconds, amounts in
      cents, `status` is Stripe's string or null. */
  datatype Invoice = Invoice(
    id: string,
    number: Option<string>,
    customer: string,
    customerEmail: Option<string>,
    customerName: Option<string>,
    amountDue: int,
    amountPaid: int,
    currency: string,
    status: Option<string>,
    dueDate: Option<int>,
    created: int,
    paidAt: Option<int>,
    invoicePdf: Option<string>,
    lines: seq<InvoiceLine>,
    paymentIntent: Option<string>,
    metadata: map<string, string>)

  /** The invoice calls made, in order. */
  datatype InvoiceCall =
    | CreateItem(item: InvoiceItem)
    | CreateInvoice(params: InvoiceParams)
    | Finalize(invoiceId: string)
    | Pay(invoiceId: string)

  datatype Snapshot = Snapshot(
    customers: seq<Customer>,
    prices: seq<Price>,
    products: seq<Product>,
    subscriptions: seq<Subscription>,
    sessions: seq<Session>,
    invoiceCalls: seq<InvoiceCall>,
    invoices: seq<Invoice>)

  class Account {
    var customers: seq<Customer>
    var prices: seq<Price>
    var products: seq<Product>
    var subscriptions: seq<Subscription>
    var sessions: seq<Session>
    var invoiceCalls: seq<InvoiceCall>
    var invoices: seq<Invoice>

    constructor (s: Snapshot)
      ensures State() == s
    {
      customers := s.customers;
      prices := s.prices;
      products := s.products;
      subscriptions := s.subscriptions;
      sessions := s.sessions;
      invoiceCalls := s.invoiceCalls;
      invoices := s.invoices;
    }

    function State(): Snapshot
      reads this
    {
      Snapshot(customers, prices, products, subscriptions, sessions, invoiceCalls, invoices)
    }
  }
}
