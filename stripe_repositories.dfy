/** `StripeCustomerRepository` (src/repositories/stripe/customer.repository.ts):
    customers looked up by email, created with the user id in their metadata. */
module StripeCustomerRepository {
  import opened Wrappers
  import opened Query
  import opened Stripe

  /** `customers.list({ email, limit: 1 }).data[0] || null`: the newest
      customer with that email. */
  function FindByEmail(customers: seq<Customer>, email: string): (r: Option<Customer>)
    ensures r.Some? ==> r.value in customers && r.value.email == email
    ensures r.None? <==> forall k :: 0 <= k < |customers| ==> customers[k].email != email
    ensures r.Some? ==> exists i :: 0 <= i < |customers| && customers[i] == r.value
                                    && forall j :: 0 <= j < i ==> customers[j].email != email
  {
    FindFirst(customers, (c: Customer) => c.email == email)
  }

  /** `create(email, userId)`: a new customer, listed first. */
  method Create(acct: Account, email: string, userId: string, newId: string) returns (c: Customer)
    modifies acct
    ensures c == Customer(newId, email, userId)
    ensures acct.State() == old(acct.State()).(customers := [c] + old(acct.customers))
  {
    c := Customer(newId, email, userId);
    acct.customers := [c] + acct.customers;
  }

  /** The customer list after `getOrCreate`, and the customer returned. */
  function GetOrCreateOutcome(customers: seq<Customer>, email: string, userId: string, newId: string)
    : (r: (Customer, seq<Customer>))
    ensures r.0.email == email
    ensures FindByEmail(customers, email).Some? ==> r == (FindByEmail(customers, email).value, customers)
    ensures FindByEmail(customers, email).None? ==>
      r == (Customer(newId, email, userId), [Customer(newId, email, userId)] + customers)
  {
    match FindByEmail(customers, email)
    case Some(c) => (c, customers)
    case None => (Customer(newId, email, userId), [Customer(newId, email, userId)] + customers)
  }

  /** `getOrCreate` creates exactly one customer when none has the email and
      none otherwise; afterwards the email is always found. */
  lemma GetOrCreateCount(customers: seq<Customer>, email: string, userId: string, newId: string)
    ensures var (c, after) := GetOrCreateOutcome(customers, email, userId, newId);
      && |after| == |customers| + (if FindByEmail(customers, email).None? then 1 else 0)
      && FindByEmail(after, email) == Some(c)
  {
    var (c, after) := GetOrCreateOutcome(customers, email, userId, newId);
    if FindByEmail(customers, email).None? {
      assert FirstIndex(after, (x: Customer) => x.email == email) == 0;
    } else {
      assert FindFirst(after, (x: Customer) => x.email == email) == FindByEmail(customers, email);
    }
  }

  /** A second `getOrCreate` for the same email creates nothing more. */
  lemma GetOrCreateTwice(customers: seq<Customer>, email: string, userId: string, id1: string, id2: string)
    ensures var (c1, after1) := GetOrCreateOutcome(customers, email, userId, id1);
      GetOrCreateOutcome(after1, email, userId, id2) == (c1, after1)
  {
    GetOrCreateCount(customers, email, userId, id1);
  }

  /** `getOrCreate(email, userId)`. */
  method GetOrCreate(acct: Account, email: string, userId: string, newId: string) returns (c: Customer)
    modifies acct
    ensures (c, acct.customers) == GetOrCreateOutcome(old(acct.customers), email, userId, newId)
    ensures acct.State() == old(acct.State()).(customers := acct.customers)
  {
    var existing := FindByEmail(acct.customers, email);
    if existing.Some? {
      return existing.value;
    }
    c := Create(acct, email, userId, newId);
  }
}

/** `StripePriceRepository` (src/repositories/stripe/price.repository.ts). */
module StripePriceRepository {
  import opened Wrappers
  import opened Query
  import opened Stripe

  /** `prices.list({ product, active: true, limit: 1 }).data[0] || null`: the
      newest active price of the product. */
  function FindByProductId(prices: seq<Price>, productId: string): (r: Option<Price>)
    ensures r.Some? ==> r.value in prices && r.value.product == productId && r.value.active
    ensures r.None? <==> forall k :: 0 <= k < |prices| ==> !(prices[k].product == productId && prices[k].active)
    ensures r.Some? ==> exists i :: 0 <= i < |prices| && prices[i] == r.value
                                    && forall j :: 0 <= j < i ==> !(prices[j].product == productId && prices[j].active)
  {
    FindFirst(prices, (p: Price) => p.product == productId && p.active)
  }

  /** The price `create(productId, unitAmount, currency, recurring)` makes:
      the amount is multiplied by 100, the currency defaults to "eur" and
      `recurring` is set only when supplied. */
  function NewPrice(productId: string, unitAmount: int, currency: Option<string>, recurring: Option<Interval>, newId: string)
    : (p: Price)
    ensures p.unitAmount == Some(unitAmount * 100)
    ensures p.currency == (if currency.Some? then currency.value else "eur")
    ensures p.recurring == recurring && p.product == productId && p.id == newId && p.active
  {
    Price(newId, productId, Some(unitAmount * 100), currency.GetOr("eur"), true, recurring)
  }

  /** `create`: the new price is listed first, so it is the one
      `findByProductId` then returns. */
  method Create(acct: Account, productId: string, unitAmount: int, currency: Option<string>,
                recurring: Option<Interval>, newId: string) returns (p: Price)
    modifies acct
    ensures p == NewPrice(productId, unitAmount, currency, recurring, newId)
    ensures acct.State() == old(acct.State()).(prices := [p] + old(acct.prices))
    ensures FindByProductId(acct.prices, productId) == Some(p)
  {
    p := NewPrice(productId, unitAmount, currency, recurring, newId);
    acct.prices := [p] + acct.prices;
    assert FirstIndex(acct.prices, (x: Price) => x.product == productId && x.active) == 0;
  }
}

/** `StripeSubscriptionRepository` (src/repositories/stripe/subscription.repository.ts). */
module StripeSubscriptionRepository {
  import opened Wrappers
  import opened Query
  import opened Stripe

  /** `subscriptions.list({ customer, status: "all", limit: 100 })`: the
      customer's first 100 subscriptions, of any status. */
  function ListForCustomer(subs: seq<Subscription>, customerId: string): (r: seq<Subscription>)
    ensures |r| <= 100
    ensures forall k :: 0 <= k < |r| ==> r[k] in subs && r[k].customer == customerId
    ensures var mine := Where(subs, (s: Subscription) => s.customer == customerId);
      |r| == (if |mine| < 100 then |mine| else 100) && r == mine[..|r|]
  {
    var mine := Where(subs, (s: Subscription) => s.customer == customerId);
    SkipTake(mine, 0, 100)
  }

  /** The statuses that block a second subscription. */
  predicate IsActiveStatus(status: string) {
    status in ["active", "trialing", "past_due"]
  }

  /** Some item of the subscription is for the product. */
  predicate HasProduct(s: Subscription, productId: string) {
    exists k :: 0 <= k < |s.items| && s.items[k].product == productId
  }

  /** `findActiveByCustomerAndProduct`: the first listed subscription that is
      active, trialing or past due and has an item for the product. */
  function FindActiveByCustomerAndProduct(subs: seq<Subscription>, customerId: string, productId: string)
    : (r: Option<Subscription>)
    ensures r.Some? ==>
      && r.value in ListForCustomer(subs, customerId)
      && r.value.status in {"active", "trialing", "past_due"}
      && HasProduct(r.value, productId)
    ensures r.None? <==> forall k :: 0 <= k < |ListForCustomer(subs, customerId)| ==>
      !(IsActiveStatus(ListForCustomer(subs, customerId)[k].status) && HasProduct(ListForCustomer(subs, customerId)[k], productId))
    ensures r.Some? ==> var listed := ListForCustomer(subs, customerId);
      exists i :: 0 <= i < |listed| && listed[i] == r.value
                  && forall j :: 0 <= j < i ==> !(IsActiveStatus(listed[j].status) && HasProduct(listed[j], productId))
  {
    FindFirst(ListForCustomer(subs, customerId), (s: Subscription) => IsActiveStatus(s.status) && HasProduct(s, productId))
  }

  /** `hasActiveSubscription`: the find returns something. */
  function HasActiveSubscription(subs: seq<Subscription>, customerId: string, productId: string): (b: bool)
    ensures b <==> FindActiveByCustomerAndProduct(subs, customerId, productId).Some?
  {
    FindActiveByCustomerAndProduct(subs, customerId, productId).Some?
  }

  /** A matching subscription beyond the first 100 of the customer is not
      seen: with 100 inactive subscriptions listed first, an active one for
      the product does not count. */
  lemma OnlyFirstHundred(older: Subscription, newer: seq<Subscription>, productId: string)
    requires |newer| == 100
    requires forall k :: 0 <= k < 100 ==> newer[k].customer == older.customer && newer[k].status == "canceled"
    requires older.status == "active" && HasProduct(older, productId)
    ensures !HasActiveSubscription(newer + [older], older.customer, productId)
  {
    var all := newer + [older];
    var mine := Where(all, (s: Subscription) => s.customer == older.customer);
    WhereAll(newer, (s: Subscription) => s.customer == older.customer);
    assert all[..100] == newer;
    WherePrefix(all, 100, (s: Subscription) => s.customer == older.customer);
    var listed := ListForCustomer(all, older.customer);
    assert listed == mine[..100];
    assert forall k :: 0 <= k < |listed| ==> listed[k] == newer[k];
  }

  /** Filtering a sequence all of whose rows pass keeps it whole. */
  lemma {:induction false} WhereAll<T>(s: seq<T>, p: T -> bool)
    requires forall k :: 0 <= k < |s| ==> p(s[k])
    ensures Where(s, p) == s
  {
    if s != [] {
      WhereAll(s[1..], p);
      assert s == [s[0]] + s[1..];
    }
  }

  /** When the first `n` rows all pass, they are the first `n` of the filter. */
  lemma {:induction false} WherePrefix<T>(s: seq<T>, n: nat, p: T -> bool)
    requires n <= |s|
    requires forall k :: 0 <= k < n ==> p(s[k])
    ensures |Where(s, p)| >= n && Where(s, p)[..n] == s[..n]
  {
    if n > 0 {
      WherePrefix(s[1..], n - 1, p);
      var w := Where(s[1..], p);
      assert Where(s, p) == [s[0]] + w;
      assert ([s[0]] + w)[..n] == [s[0]] + w[..n - 1];
      assert s[..n] == [s[0]] + s[1..][..n - 1];
    }
  }
}

/** `StripeInvoiceRepository` (src/repositories/stripe/invoice.repository.ts):
    the lookup the invoice service uses. */
module StripeInvoiceRepository {
  import opened Wrappers
  import opened Query
  import opened Stripe

  /** `findById(invoiceId)`: the invoice, or null when Stripe answers
      `resource_missing`. */
  function FindById(invoices: seq<Invoice>, invoiceId: string): (r: Option<Invoice>)
    ensures r.Some? ==> r.value in invoices && r.value.id == invoiceId
    ensures r.None? <==> forall k :: 0 <= k < |invoices| ==> invoices[k].id != invoiceId
  {
    FindFirst(invoices, (i: Invoice) => i.id == invoiceId)
  }
}
