/** `InvoiceRepository` (src/repositories/invoice.repository.ts): invoice
    lookups, the ownership filter that reaches through the linked purchase
    or subscription, the paged listing, the partial updates and the summary. */
module InvoiceRepository {
  import opened Wrappers
  import opened Query
  import opened Prisma
  import opened InvoiceValidation

  /** The enum value's name as Prisma and the query schema spell it. */
  function NameOf(s: InvoiceStatus): string {
    match s
    case PENDING => "PENDING"
    case OPEN => "OPEN"
    case PAID => "PAID"
    case VOID => "VOID"
    case FAILED => "FAILED"
    case EXPIRED => "EXPIRED"
    case CANCELED => "CANCELED"
    case UNPAID => "UNPAID"
  }

  /** Reading a status name as the enum: exactly the eight names are values. */
  function StatusOfName(name: string): (r: Option<InvoiceStatus>)
    ensures r.Some? <==> name in StatusNames
    ensures r.Some? ==> NameOf(r.value) == name
  {
    if name == "PENDING" then Some(InvoiceStatus.PENDING)
    else if name == "OPEN" then Some(InvoiceStatus.OPEN)
    else if name == "PAID" then Some(InvoiceStatus.PAID)
    else if name == "VOID" then Some(InvoiceStatus.VOID)
    else if name == "FAILED" then Some(InvoiceStatus.FAILED)
    else if name == "EXPIRED" then Some(InvoiceStatus.EXPIRED)
    else if name == "CANCELED" then Some(InvoiceStatus.CANCELED)
    else if name == "UNPAID" then Some(InvoiceStatus.UNPAID)
    else None
  }

  /** Every status is read back from its own name. */
  lemma StatusNameRoundTrip(s: InvoiceStatus)
    ensures NameOf(s) in StatusNames
    ensures StatusOfName(NameOf(s)) == Some(s)
  {
  }

  /** `OR: [{ creditPurchase: { userId } }, { userSubscription: { userId } }]`:
      the invoice's linked purchase or linked subscription is the user's. */
  predicate OwnedBy(t: Tables, inv: Invoice, userId: string) {
    || (inv.creditPurchaseId.Some? &&
        exists k :: 0 <= k < |t.purchases| && t.purchases[k].id == inv.creditPurchaseId.value && t.purchases[k].userId == userId)
    || (inv.userSubscriptionId.Some? &&
        exists k :: 0 <= k < |t.subscriptions| && t.subscriptions[k].id == inv.userSubscriptionId.value
                    && t.subscriptions[k].userId == userId)
  }

  /** An invoice linked to neither a purchase nor a subscription belongs to
      nobody, so no user's listing, lookup or summary sees it. */
  lemma UnlinkedIsOwnerless(t: Tables, inv: Invoice, userId: string)
    requires inv.creditPurchaseId.None? && inv.userSubscriptionId.None?
    ensures !OwnedBy(t, inv, userId)
  {
  }

  /** `findUnique({ where: { id } })`. */
  function FindById(invoices: seq<Invoice>, id: string): (r: Option<Invoice>)
    ensures r.Some? ==> r.value in invoices && r.value.id == id
    ensures r.None? <==> forall k :: 0 <= k < |invoices| ==> invoices[k].id != id
  {
    FindFirst(invoices, (i: Invoice) => i.id == id)
  }

  /** `findUnique({ where: { stripeInvoiceId } })`. */
  function FindByStripeInvoiceId(invoices: seq<Invoice>, stripeId: string): (r: Option<Invoice>)
    ensures r.Some? ==> r.value in invoices && r.value.stripeInvoiceId == Some(stripeId)
    ensures r.None? <==> forall k :: 0 <= k < |invoices| ==> invoices[k].stripeInvoiceId != Some(stripeId)
  {
    FindFirst(invoices, (i: Invoice) => i.stripeInvoiceId == Some(stripeId))
  }

  /** `findByIdAndUserId`: the invoice with that id, only if the user owns it. */
  function FindByIdAndUserId(t: Tables, id: string, userId: string): (r: Option<Invoice>)
    ensures r.Some? ==> r.value in t.invoices && r.value.id == id && OwnedBy(t, r.value, userId)
    ensures r.None? <==> forall k :: 0 <= k < |t.invoices| ==>
      !(t.invoices[k].id == id && OwnedBy(t, t.invoices[k], userId))
  {
    FindFirst(t.invoices, (i: Invoice) => i.id == id && OwnedBy(t, i, userId))
  }

  /** `findByStripeInvoiceIdAndUserId`. */
  function FindByStripeInvoiceIdAndUserId(t: Tables, stripeId: string, userId: string): (r: Option<Invoice>)
    ensures r.Some? ==>
      r.value in t.invoices && r.value.stripeInvoiceId == Some(stripeId) && OwnedBy(t, r.value, userId)
    ensures r.None? <==> forall k :: 0 <= k < |t.invoices| ==>
      !(t.invoices[k].stripeInvoiceId == Some(stripeId) && OwnedBy(t, t.invoices[k], userId))
  {
    FindFirst(t.invoices, (i: Invoice) => i.stripeInvoiceId == Some(stripeId) && OwnedBy(t, i, userId))
  }

  /** With unique ids, the owner-checked lookup is the plain lookup when the
      user owns the invoice and nothing otherwise. */
  lemma OwnedLookup(t: Tables, k: nat, userId: string)
    requires UniqueBy(t.invoices, (i: Invoice) => i.id) && k < |t.invoices|
    ensures FindByIdAndUserId(t, t.invoices[k].id, userId)
      == if OwnedBy(t, t.invoices[k], userId) then Some(t.invoices[k]) else None
  {
    var inv := t.invoices[k];
    if OwnedBy(t, inv, userId) {
      FindFirstOnly(t.invoices, (i: Invoice) => i.id == inv.id && OwnedBy(t, i, userId), k);
    } else {
      forall j | 0 <= j < |t.invoices| ensures !(t.invoices[j].id == inv.id && OwnedBy(t, t.invoices[j], userId)) {
        if t.invoices[j].id == inv.id {
          assert j == k;
        }
      }
    }
  }

  /** How the created invoice is linked: not at all, or to the credit
      purchase whose payment intent is given (which may be null). */
  datatype PurchaseLink = Unlinked | ByPaymentIntent(pi: Option<string>)

  /** The `InvoiceCreateInput` the webhook builds; `totalAmount` is required
      and may arrive as null. */
  datatype NewInvoice = NewInvoice(
    purchase: PurchaseLink,
    stripeInvoiceId: Option<string>,
    totalAmount: Option<int>,
    status: InvoiceStatus,
    pdfUrl: Option<string>)

  /** The purchase a payment-intent link resolves to. */
  function LinkedPurchase(purchases: seq<CreditPurchase>, link: PurchaseLink): Option<CreditPurchase>
    requires link.ByPaymentIntent? && link.pi.Some?
  {
    FindFirst(purchases, (c: CreditPurchase) => c.stripePaymentIntentId == link.pi.value)
  }

  /** The outcome of `create(data)` on a table without the row yet. */
  function RowOf(t: Tables, data: NewInvoice, gen: Fresh): (inv: Invoice)
    requires data.totalAmount.Some?
    requires data.purchase.ByPaymentIntent? ==> data.purchase.pi.Some? && LinkedPurchase(t.purchases, data.purchase).Some?
    ensures inv.id == gen.id && inv.totalAmount == data.totalAmount.value && inv.status == data.status
    ensures inv.stripeInvoiceId == data.stripeInvoiceId && inv.pdfUrl == data.pdfUrl
    ensures inv.userSubscriptionId.None? && inv.dueDate.None? && inv.paidAt.None?
    ensures inv.creditPurchaseId.Some? <==> data.purchase.ByPaymentIntent?
  {
    var purchaseId := if data.purchase.Unlinked? then None else Some(LinkedPurchase(t.purchases, data.purchase).value.id);
    Invoice(gen.id, purchaseId, None, data.stripeInvoiceId, data.totalAmount.value, data.status, data.pdfUrl,
            None, None, gen.now)
  }

  /** Whether `create(data)` is refused, and why: a null amount or payment
      intent, a payment intent no purchase holds, a Stripe invoice id (or
      row id) already in the table. */
  function CreateError(t: Tables, data: NewInvoice, gen: Fresh): (r: Option<DbError>)
    ensures r.None? ==> data.totalAmount.Some?
    ensures r.None? && data.purchase.ByPaymentIntent? ==>
      data.purchase.pi.Some? && LinkedPurchase(t.purchases, data.purchase).Some?
    ensures data.stripeInvoiceId.Some? && FindByStripeInvoiceId(t.invoices, data.stripeInvoiceId.value).Some? ==> r.Some?
  {
    if data.totalAmount.None? || (data.purchase.ByPaymentIntent? && data.purchase.pi.None?) then Some(InvalidValue)
    else if data.purchase.ByPaymentIntent? && LinkedPurchase(t.purchases, data.purchase).None? then Some(MissingRelation)
    else if (data.stripeInvoiceId.Some? && FindByStripeInvoiceId(t.invoices, data.stripeInvoiceId.value).Some?)
         || FindById(t.invoices, gen.id).Some? then Some(UniqueViolation)
    else None
  }

  /** The invoice table after `create(data)`. */
  function AfterCreate(t: Tables, data: NewInvoice, gen: Fresh): (r: Result<seq<Invoice>, DbError>)
    ensures r.Failure? <==> CreateError(t, data, gen).Some?
    ensures r.Failure? ==> r.error == CreateError(t, data, gen).value
    ensures r.Success? ==> r.value == t.invoices + [RowOf(t, data, gen)]
  {
    match CreateError(t, data, gen)
    case Some(e) => Failure(e)
    case None => Success(t.invoices + [RowOf(t, data, gen)])
  }

  /** A created invoice keeps the unique columns unique. */
  lemma CreateKeepsKeys(t: Tables, data: NewInvoice, gen: Fresh)
    requires UniqueBy(t.invoices, (i: Invoice) => i.id)
    requires UniqueWhenSet(t.invoices, (i: Invoice) => i.stripeInvoiceId)
    requires AfterCreate(t, data, gen).Success?
    ensures UniqueBy(AfterCreate(t, data, gen).value, (i: Invoice) => i.id)
    ensures UniqueWhenSet(AfterCreate(t, data, gen).value, (i: Invoice) => i.stripeInvoiceId)
  {
    var row := RowOf(t, data, gen);
    InsertKeepsUnique(t.invoices, (i: Invoice) => i.id, row);
    var after := t.invoices + [row];
    forall i, j | 0 <= i < j < |after| && after[i].stripeInvoiceId.Some?
      ensures after[i].stripeInvoiceId != after[j].stripeInvoiceId
    {
      if j == |t.invoices| && data.stripeInvoiceId.Some? {
        assert FindByStripeInvoiceId(t.invoices, data.stripeInvoiceId.value).None?;
      }
    }
  }

  /** The resolved `whereClause` of `findByUserId`, besides ownership. */
  datatype InvoiceFilter = InvoiceFilter(status: Option<InvoiceStatus>, from: Option<int>, to: Option<int>)

  /** Building `whereClause` from the query: the status only when given, the
      date bounds only when `dateFrom || dateTo` is truthy, each bound only
      when its own string is. `dateOf` is `new Date(s)` in milliseconds,
      `None` for an invalid date, which Prisma refuses; so is a status that
      is not an enum value. */
  function ResolveFilter(q: ListQuery, dateOf: string -> Option<int>): (r: Result<InvoiceFilter, DbError>)
    ensures r.Success? <==>
      && (q.status.Some? && q.status.value != "" ==> q.status.value in StatusNames)
      && (q.dateFrom.Some? && q.dateFrom.value != "" ==> dateOf(q.dateFrom.value).Some?)
      && (q.dateTo.Some? && q.dateTo.value != "" ==> dateOf(q.dateTo.value).Some?)
    ensures r.Failure? ==> r.error == InvalidValue
    ensures r.Success? ==>
      && (r.value.status.Some? <==> q.status.Some? && q.status.value != "")
      && (r.value.status.Some? ==> NameOf(r.value.status.value) == q.status.value)
      && (r.value.from.Some? <==> q.dateFrom.Some? && q.dateFrom.value != "")
      && (r.value.from.Some? ==> Some(r.value.from.value) == dateOf(q.dateFrom.value))
      && (r.value.to.Some? <==> q.dateTo.Some? && q.dateTo.value != "")
      && (r.value.to.Some? ==> Some(r.value.to.value) == dateOf(q.dateTo.value))
  {
    var status := if q.status.Some? && q.status.value != "" then Some(q.status.value) else None;
    var from := if q.dateFrom.Some? && q.dateFrom.value != "" then Some(q.dateFrom.value) else None;
    var to := if q.dateTo.Some? && q.dateTo.value != "" then Some(q.dateTo.value) else None;
    if status.Some? && StatusOfName(status.value).None? then Failure(InvalidValue)
    else if from.Some? && dateOf(from.value).None? then Failure(InvalidValue)
    else if to.Some? && dateOf(to.value).None? then Failure(InvalidValue)
    else Success(InvoiceFilter(
      if status.Some? then StatusOfName(status.value) else None,
      if from.Some? then dateOf(from.value) else None,
      if to.Some? then dateOf(to.value) else None))
  }

  /** The row matches the whole `whereClause`; date bounds are inclusive. */
  predicate Matches(t: Tables, userId: string, f: InvoiceFilter, inv: Invoice) {
    && OwnedBy(t, inv, userId)
    && (f.status.Some? ==> inv.status == f.status.value)
    && (f.from.Some? ==> inv.createdAt >= f.from.value)
    && (f.to.Some? ==> inv.createdAt <= f.to.value)
  }

  datatype InvoicePage = InvoicePage(invoices: seq<Invoice>, totalCount: int)

  /** The user's matching invoices, newest first, before paging. */
  function Listing(t: Tables, userId: string, f: InvoiceFilter): (r: seq<Invoice>)
    ensures |r| == |Where(t.invoices, (i: Invoice) => Matches(t, userId, f, i))|
    ensures forall k :: 0 <= k < |r| ==> r[k] in t.invoices && Matches(t, userId, f, r[k])
    ensures forall k :: 0 <= k < |t.invoices| && Matches(t, userId, f, t.invoices[k]) ==> t.invoices[k] in r
    ensures forall x :: multiset(r)[x] == if Matches(t, userId, f, x) then multiset(t.invoices)[x] else 0
    ensures SortedDesc(r, (i: Invoice) => i.createdAt)
  {
    var r := NewestFirst(t.invoices, (i: Invoice) => Matches(t, userId, f, i), (i: Invoice) => i.createdAt);
    assert |multiset(r)| == |r|;
    r
  }

  /** `findByUserId(userId, query)`: the matching rows newest first, after
      skipping `(page - 1) * limit` of them and taking at most `limit`;
      `totalCount` counts every matching row, not just the page. */
  function FindByUserId(t: Tables, userId: string, q: ListQuery, dateOf: string -> Option<int>)
    : (r: Result<InvoicePage, DbError>)
    requires q.page >= 1 && q.limit >= 1
    ensures r.Success? <==> ResolveFilter(q, dateOf).Success?
    ensures r.Failure? ==> r.error == InvalidValue
    ensures r.Success? ==>
      var all := Listing(t, userId, ResolveFilter(q, dateOf).value);
      && r.value.totalCount == |all|
      && |r.value.invoices| <= q.limit
      && (forall k :: 0 <= k < |r.value.invoices| ==>
            Offset(q) + k < |all| && r.value.invoices[k] == all[Offset(q) + k])
      && (Offset(q) < |all| ==>
            |r.value.invoices| == Min(q.limit, |all| - Offset(q)))
  {
    match ResolveFilter(q, dateOf)
    case Failure(e) => Failure(e)
    case Success(f) =>
      var all := Listing(t, userId, f);
      Success(InvoicePage(SkipTake(all, Offset(q), q.limit), |all|))
  }

  function Min(a: int, b: int): int { if a <= b then a else b }

  /** The rows skipped before the page: `(page - 1) * limit`. */
  function Offset(q: ListQuery): nat
    requires q.page >= 1 && q.limit >= 1
  {
    (q.page - 1) * q.limit
  }

  /** Every listed invoice is the user's, passes the filter, and the page is
      newest first. */
  lemma PageContents(t: Tables, userId: string, q: ListQuery, dateOf: string -> Option<int>)
    requires q.page >= 1 && q.limit >= 1
    requires FindByUserId(t, userId, q, dateOf).Success?
    ensures var page := FindByUserId(t, userId, q, dateOf).value.invoices;
      && (forall k :: 0 <= k < |page| ==>
            page[k] in t.invoices && Matches(t, userId, ResolveFilter(q, dateOf).value, page[k]))
      && SortedDesc(page, (i: Invoice) => i.createdAt)
  {
    var f := ResolveFilter(q, dateOf).value;
    var all := Listing(t, userId, f);
    var page := FindByUserId(t, userId, q, dateOf).value.invoices;
    forall k | 0 <= k < |page|
      ensures page[k] in t.invoices && Matches(t, userId, f, page[k])
    {
      assert page[k] == all[Offset(q) + k];
    }
    forall i, j | 0 <= i < j < |page|
      ensures page[i].createdAt >= page[j].createdAt
    {
      assert page[i] == all[Offset(q) + i] && page[j] == all[Offset(q) + j];
    }
  }

  /** The columns an update may set; `None` leaves a column as it is (an
      `undefined` field of the update's `data`). */
  datatype InvoicePatch = InvoicePatch(
    status: Option<InvoiceStatus>,
    totalAmount: Option<int>,
    pdfUrl: Option<string>,
    paidAt: Option<int>,
    dueDate: Option<int>)

  /** The row after the patch: each supplied column takes its new value, the
      others keep theirs. */
  function Patched(inv: Invoice, p: InvoicePatch): (r: Invoice)
    ensures r.id == inv.id && r.stripeInvoiceId == inv.stripeInvoiceId && r.createdAt == inv.createdAt
    ensures r.creditPurchaseId == inv.creditPurchaseId && r.userSubscriptionId == inv.userSubscriptionId
    ensures r.status == (if p.status.Some? then p.status.value else inv.status)
    ensures r.totalAmount == (if p.totalAmount.Some? then p.totalAmount.value else inv.totalAmount)
    ensures r.pdfUrl == (if p.pdfUrl.Some? then p.pdfUrl else inv.pdfUrl)
    ensures r.paidAt == (if p.paidAt.Some? then p.paidAt else inv.paidAt)
    ensures r.dueDate == (if p.dueDate.Some? then p.dueDate else inv.dueDate)
  {
    inv.(status := p.status.GetOr(inv.status),
         totalAmount := p.totalAmount.GetOr(inv.totalAmount),
         pdfUrl := if p.pdfUrl.Some? then p.pdfUrl else inv.pdfUrl,
         paidAt := if p.paidAt.Some? then p.paidAt else inv.paidAt,
         dueDate := if p.dueDate.Some? then p.dueDate else inv.dueDate)
  }

  /** An empty patch changes nothing. */
  lemma EmptyPatch(inv: Invoice)
    ensures Patched(inv, InvoicePatch(None, None, None, None, None)) == inv
  {
  }

  /** The invoice table after `update({ where: { id }, data: patch })`. */
  function AfterUpdate(invoices: seq<Invoice>, id: string, p: InvoicePatch): (r: Result<seq<Invoice>, DbError>)
    ensures r.Success? <==> FindById(invoices, id).Some?
    ensures r.Failure? ==> r.error == RecordNotFound
    ensures r.Success? ==> |r.value| == |invoices| && forall k :: 0 <= k < |invoices| ==>
      r.value[k] == if invoices[k].id == id then Patched(invoices[k], p) else invoices[k]
  {
    if FindById(invoices, id).None? then Failure(RecordNotFound)
    else Success(UpdateWhere(invoices, (i: Invoice) => i.id == id, (i: Invoice) => Patched(i, p)))
  }

  /** An update keeps both unique columns unique, and the next lookups by
      id and by Stripe id see the patched row. */
  lemma UpdateSeen(invoices: seq<Invoice>, k: nat, p: InvoicePatch)
    requires UniqueBy(invoices, (i: Invoice) => i.id)
    requires UniqueWhenSet(invoices, (i: Invoice) => i.stripeInvoiceId)
    requires k < |invoices|
    ensures AfterUpdate(invoices, invoices[k].id, p).Success?
    ensures UniqueBy(AfterUpdate(invoices, invoices[k].id, p).value, (i: Invoice) => i.id)
    ensures UniqueWhenSet(AfterUpdate(invoices, invoices[k].id, p).value, (i: Invoice) => i.stripeInvoiceId)
    ensures FindById(AfterUpdate(invoices, invoices[k].id, p).value, invoices[k].id) == Some(Patched(invoices[k], p))
    ensures invoices[k].stripeInvoiceId.Some? ==>
      FindByStripeInvoiceId(AfterUpdate(invoices, invoices[k].id, p).value, invoices[k].stripeInvoiceId.value)
        == Some(Patched(invoices[k], p))
  {
    UpdateKeepsKeys(invoices, k, p);
    var after := AfterUpdate(invoices, invoices[k].id, p).value;
    forall i, j | 0 <= i < j < |after|
      ensures after[i].id != after[j].id
      ensures after[i].stripeInvoiceId.Some? ==> after[i].stripeInvoiceId != after[j].stripeInvoiceId
    {
      assert after[i].id == invoices[i].id && after[j].id == invoices[j].id;
      assert after[i].stripeInvoiceId == invoices[i].stripeInvoiceId;
      assert after[j].stripeInvoiceId == invoices[j].stripeInvoiceId;
    }
    FindFirstOnly(after, (i: Invoice) => i.id == invoices[k].id, k);
    if invoices[k].stripeInvoiceId.Some? {
      forall j | 0 <= j < |after| && after[j].stripeInvoiceId == invoices[k].stripeInvoiceId ensures j == k {
        assert after[j].stripeInvoiceId == invoices[j].stripeInvoiceId;
      }
      FindFirstOnly(after, (i: Invoice) => i.stripeInvoiceId == invoices[k].stripeInvoiceId, k);
    }
  }

  /** An update by the id of row k succeeds, patches row k and keeps every
      row's id and Stripe id where they were. */
  lemma UpdateKeepsKeys(invoices: seq<Invoice>, k: nat, p: InvoicePatch)
    requires k < |invoices|
    ensures AfterUpdate(invoices, invoices[k].id, p).Success?
    ensures var after := AfterUpdate(invoices, invoices[k].id, p).value;
      && |after| == |invoices| && after[k] == Patched(invoices[k], p)
      && forall i :: 0 <= i < |after| ==>
           after[i].id == invoices[i].id && after[i].stripeInvoiceId == invoices[i].stripeInvoiceId
  {
    assert invoices[k] in invoices;
  }

  /** `getInvoicesSummary`: counts and sums over the user's invoices. */
  datatype Summary = Summary(totalCount: int, paidCount: int, pendingCount: int, totalAmount: int, paidAmount: int)

  /** Prisma's `_sum` of `totalAmount`; the code's `|| 0` turns the null sum
      of no rows into 0. */
  function SumAmounts(s: seq<Invoice>): (r: int)
    ensures s == [] ==> r == 0
    ensures (forall k :: 0 <= k < |s| ==> s[k].totalAmount >= 0) ==> r >= 0
  {
    if s == [] then 0 else s[0].totalAmount + SumAmounts(s[1..])
  }

  function GetInvoicesSummary(t: Tables, userId: string): (r: Summary)
    ensures r.totalCount == |Where(t.invoices, (i: Invoice) => OwnedBy(t, i, userId))|
    ensures r.paidCount == |Where(t.invoices, (i: Invoice) => OwnedBy(t, i, userId) && i.status == InvoiceStatus.PAID)|
    ensures r.pendingCount == |Where(t.invoices, (i: Invoice) => OwnedBy(t, i, userId) && i.status == InvoiceStatus.PENDING)|
    ensures r.totalAmount == SumAmounts(Where(t.invoices, (i: Invoice) => OwnedBy(t, i, userId)))
    ensures r.paidAmount == SumAmounts(Where(t.invoices, (i: Invoice) => OwnedBy(t, i, userId) && i.status == InvoiceStatus.PAID))
  {
    var mine := Where(t.invoices, (i: Invoice) => OwnedBy(t, i, userId));
    var paid := Where(t.invoices, (i: Invoice) => OwnedBy(t, i, userId) && i.status == InvoiceStatus.PAID);
    var pending := Where(t.invoices, (i: Invoice) => OwnedBy(t, i, userId) && i.status == InvoiceStatus.PENDING);
    Summary(|mine|, |paid|, |pending|, SumAmounts(mine), SumAmounts(paid))
  }

  /** Paid and pending invoices are disjoint subsets of the user's invoices,
      so together they never exceed the total count. */
  lemma SummaryCounts(t: Tables, userId: string)
    ensures GetInvoicesSummary(t, userId).paidCount + GetInvoicesSummary(t, userId).pendingCount
      <= GetInvoicesSummary(t, userId).totalCount
  {
    var mine := (i: Invoice) => OwnedBy(t, i, userId);
    var paid := (i: Invoice) => OwnedBy(t, i, userId) && i.status == InvoiceStatus.PAID;
    var pending := (i: Invoice) => OwnedBy(t, i, userId) && i.status == InvoiceStatus.PENDING;
    WhereSplit(t.invoices, mine, paid, pending);
  }

  /** Two disjoint conditions that both imply a third select no more rows
      together than the third does. */
  lemma {:induction false} WhereSplit<T>(s: seq<T>, p: T -> bool, q1: T -> bool, q2: T -> bool)
    requires forall k :: 0 <= k < |s| ==> !(q1(s[k]) && q2(s[k]))
    requires forall k :: 0 <= k < |s| ==> (q1(s[k]) || q2(s[k])) ==> p(s[k])
    ensures |Where(s, q1)| + |Where(s, q2)| <= |Where(s, p)|
  {
    if s != [] {
      WhereSplit(s[1..], p, q1, q2);
    }
  }

  /** With non-negative amounts, the paid sum never exceeds the total sum. */
  lemma SummaryAmounts(t: Tables, userId: string)
    requires forall k :: 0 <= k < |t.invoices| ==> t.invoices[k].totalAmount >= 0
    ensures 0 <= GetInvoicesSummary(t, userId).paidAmount <= GetInvoicesSummary(t, userId).totalAmount
  {
    SumNarrower(t.invoices, (i: Invoice) => OwnedBy(t, i, userId),
                (i: Invoice) => OwnedBy(t, i, userId) && i.status == InvoiceStatus.PAID);
  }

  lemma {:induction false} SumNarrower(s: seq<Invoice>, p: Invoice -> bool, q: Invoice -> bool)
    requires forall k :: 0 <= k < |s| ==> s[k].totalAmount >= 0
    requires forall k :: 0 <= k < |s| ==> q(s[k]) ==> p(s[k])
    ensures 0 <= SumAmounts(Where(s, q)) <= SumAmounts(Where(s, p))
  {
    if s != [] {
      SumNarrower(s[1..], p, q);
      var wp := Where(s[1..], p);
      var wq := Where(s[1..], q);
      if p(s[0]) {
        assert Where(s, p) == [s[0]] + wp;
        assert ([s[0]] + wp)[1..] == wp;
      }
      if q(s[0]) {
        assert Where(s, q) == [s[0]] + wq;
        assert ([s[0]] + wq)[1..] == wq;
      }
    }
  }

  /** `create`: inserts the invoice and returns it. */
  method Create(db: Database, data: NewInvoice, gen: Fresh) returns (r: Result<Invoice, DbError>)
    modifies db
    ensures var t := AfterCreate(old(db.State()), data, gen);
      t.Success? ==>
        db.State() == old(db.State()).(invoices := t.value) && r == Success(RowOf(old(db.State()), data, gen))
    ensures var t := AfterCreate(old(db.State()), data, gen);
      t.Failure? ==>
        db.State() == old(db.State()) && r == Failure(t.error)
  {
    var before := db.State();
    var t := AfterCreate(before, data, gen);
    if t.Failure? {
      return Failure(t.error);
    }
    db.invoices := t.value;
    r := Success(RowOf(before, data, gen));
  }

  /** The shared body of the three update methods. */
  method Update(db: Database, id: string, p: InvoicePatch) returns (r: Result<Invoice, DbError>)
    modifies db
    ensures var t := AfterUpdate(old(db.invoices), id, p);
      t.Success? ==>
        db.State() == old(db.State()).(invoices := t.value)
        && r == Success(Patched(FindById(old(db.invoices), id).value, p))
    ensures var t := AfterUpdate(old(db.invoices), id, p);
      t.Failure? ==>
        db.State() == old(db.State()) && r == Failure(t.error)
  {
    var before := FindById(db.invoices, id);
    var t := AfterUpdate(db.invoices, id, p);
    if t.Failure? {
      return Failure(t.error);
    }
    db.invoices := t.value;
    r := Success(Patched(before.value, p));
  }

  /** `updateStatus(id, data)`: the status always, the other columns when
      supplied. */
  method UpdateStatus(db: Database, id: string, status: InvoiceStatus, totalAmount: Option<int>,
                      pdfUrl: Option<string>, paidAt: Option<int>, dueDate: Option<int>)
    returns (r: Result<Invoice, DbError>)
    modifies db
    ensures var t := AfterUpdate(old(db.invoices), id, InvoicePatch(Some(status), totalAmount, pdfUrl, paidAt, dueDate));
      t.Success? ==>
        db.State() == old(db.State()).(invoices := t.value)
        && r == Success(Patched(FindById(old(db.invoices), id).value,
                                InvoicePatch(Some(status), totalAmount, pdfUrl, paidAt, dueDate)))
        && r.value.status == status
    ensures var t := AfterUpdate(old(db.invoices), id, InvoicePatch(Some(status), totalAmount, pdfUrl, paidAt, dueDate));
      t.Failure? ==>
        db.State() == old(db.State()) && r == Failure(t.error)
  {
    r := Update(db, id, InvoicePatch(Some(status), totalAmount, pdfUrl, paidAt, dueDate));
  }

  /** `updateFromStripe(id, data)`: the supplied columns among amount,
      status, PDF URL and due date; `paidAt` is not touched. */
  method UpdateFromStripe(db: Database, id: string, totalAmount: Option<int>, status: Option<InvoiceStatus>,
                          pdfUrl: Option<string>, dueDate: Option<int>)
    returns (r: Result<Invoice, DbError>)
    modifies db
    ensures var t := AfterUpdate(old(db.invoices), id, InvoicePatch(status, totalAmount, pdfUrl, None, dueDate));
      t.Success? ==>
        db.State() == old(db.State()).(invoices := t.value)
        && r == Success(Patched(FindById(old(db.invoices), id).value, InvoicePatch(status, totalAmount, pdfUrl, None, dueDate)))
    ensures var t := AfterUpdate(old(db.invoices), id, InvoicePatch(status, totalAmount, pdfUrl, None, dueDate));
      t.Failure? ==>
        db.State() == old(db.State()) && r == Failure(t.error)
  {
    r := Update(db, id, InvoicePatch(status, totalAmount, pdfUrl, None, dueDate));
  }

  /** `updatePdfUrl(id, url)`: `pdfUrl` alone. */
  method UpdatePdfUrl(db: Database, id: string, url: string) returns (r: Result<Invoice, DbError>)
    modifies db
    ensures var t := AfterUpdate(old(db.invoices), id, InvoicePatch(None, None, Some(url), None, None));
      t.Success? ==>
        db.State() == old(db.State()).(invoices := t.value)
        && r == Success(FindById(old(db.invoices), id).value.(pdfUrl := Some(url)))
    ensures var t := AfterUpdate(old(db.invoices), id, InvoicePatch(None, None, Some(url), None, None));
      t.Failure? ==>
        db.State() == old(db.State()) && r == Failure(t.error)
  {
    r := Update(db, id, InvoicePatch(None, None, Some(url), None, None));
  }
}
