/** `InvoiceService` (src/services/invoice.service.ts): the user's invoices
    read from the database and enriched with the matching Stripe invoice,
    the PDF link, and the updates that copy Stripe's data into a row. The
    Stripe invoices are read only; the clock is a parameter. */
module InvoiceService {
  import opened Wrappers
  import opened JsRuntime
  import opened Query
  import opened Prisma
  import opened ApiErrors
  import opened InvoiceValidation
  import opened InvoiceRepository
  import Stripe
  import StripeInvoices = StripeInvoiceRepository
  import UserService

  /** `InvoiceWithDetails`: the row and the Stripe invoice, or null. */
  datatype Detailed = Detailed(invoice: Invoice, stripeData: Option<Stripe.Invoice>)

  datatype Pagination = Pagination(
    page: int,
    limit: int,
    totalCount: int,
    totalPages: int,
    hasNext: bool,
    hasPrev: bool)

  datatype ListResponse = ListResponse(invoices: seq<Detailed>, pagination: Pagination)

  const InvoiceNotFound: Thrown := Throw(404, "Invoice not found")
  const NoStripeId: Thrown := Throw(404, "Invoice not found or no Stripe ID")
  const StripeInvoiceNotFound: Thrown := Throw(404, "Stripe invoice not found")

  /** `invoice.stripeInvoiceId` is truthy. */
  predicate HasStripeId(inv: Invoice) {
    inv.stripeInvoiceId.Some? && Truthy(inv.stripeInvoiceId.value)
  }

  /** The enrichment of one row: its Stripe invoice when it has a Stripe id. */
  function Enrich(inv: Invoice, stripeInvoices: seq<Stripe.Invoice>): (d: Detailed)
    ensures d.invoice == inv
    ensures !HasStripeId(inv) ==> d.stripeData.None?
    ensures HasStripeId(inv) ==> d.stripeData == StripeInvoices.FindById(stripeInvoices, inv.stripeInvoiceId.value)
    ensures d.stripeData.Some? ==>
      d.stripeData.value in stripeInvoices && Some(d.stripeData.value.id) == inv.stripeInvoiceId
  {
    Detailed(inv, if HasStripeId(inv) then StripeInvoices.FindById(stripeInvoices, inv.stripeInvoiceId.value) else None)
  }

  /** The `Promise.all` over the page: one enriched entry per row, in order. */
  function EnrichAll(invoices: seq<Invoice>, stripeInvoices: seq<Stripe.Invoice>): (r: seq<Detailed>)
    ensures |r| == |invoices|
    ensures forall k :: 0 <= k < |r| ==> r[k].invoice == invoices[k]
    ensures forall k :: 0 <= k < |r| ==> r[k] == Enrich(invoices[k], stripeInvoices)
  {
    seq(|invoices|, k requires 0 <= k < |invoices| => Enrich(invoices[k], stripeInvoices))
  }

  /** `Math.ceil(totalCount / limit)`: the fewest pages of `limit` rows that
      hold `totalCount` rows. */
  function TotalPages(totalCount: nat, limit: int): (r: nat)
    requires limit >= 1
    ensures r * limit >= totalCount
    ensures r == 0 || (r - 1) * limit < totalCount
  {
    var q := (totalCount + limit - 1) / limit;
    assert q * limit + (totalCount + limit - 1) % limit == totalCount + limit - 1;
    q
  }

  /** `a <= b` carries over to multiples of a positive `c`. */
  lemma MulMono(a: int, b: int, c: int)
    requires a <= b && c >= 1
    ensures a * c <= b * c
  {
    assert b * c - a * c == (b - a) * c;
  }

  /** The `pagination` block. */
  function Paginate(page: int, limit: int, totalCount: nat): (p: Pagination)
    requires limit >= 1
    ensures p.page == page && p.limit == limit && p.totalCount == totalCount
    ensures p.totalPages * limit >= totalCount && (p.totalPages == 0 || (p.totalPages - 1) * limit < totalCount)
    ensures p.hasNext <==> page * limit < totalCount
    ensures p.hasPrev <==> page > 1
  {
    var pages := TotalPages(totalCount, limit);
    assert page < pages ==> page * limit <= (pages - 1) * limit by {
      if page < pages { MulMono(page, pages - 1, limit); }
    }
    assert page >= pages ==> pages * limit <= page * limit by {
      if page >= pages { MulMono(pages, page, limit); }
    }
    Pagination(page, limit, totalCount, pages, page < pages, page > 1)
  }

  /** `getUserInvoices(userId, query)`: 404 for an unknown user; a query
      Prisma refuses (an invalid date or status) is a Prisma error;
      otherwise the page, enriched, with its pagination. The query is the
      validated one: `page >= 1` and `limit >= 1`. */
  function GetUserInvoices(t: Tables, stripeInvoices: seq<Stripe.Invoice>, userId: string, q: ListQuery,
                           dateOf: string -> Option<int>)
    : (r: Result<ListResponse, Thrown>)
    requires q.page >= 1 && q.limit >= 1
    ensures UserService.GetUserById(t.users, userId).None? ==> r == Failure(UserService.UserNotFound)
    ensures UserService.GetUserById(t.users, userId).Some? && ResolveFilter(q, dateOf).Failure? ==>
      r == Failure(Foreign(PrismaError))
    ensures UserService.GetUserById(t.users, userId).Some? && ResolveFilter(q, dateOf).Success? ==> r.Success?
    ensures r.Success? ==>
      var page := FindByUserId(t, userId, q, dateOf).value;
      && r.value.invoices == EnrichAll(page.invoices, stripeInvoices)
      && r.value.pagination == Paginate(q.page, q.limit, page.totalCount)
  {
    if UserService.GetUserById(t.users, userId).None? then Failure(UserService.UserNotFound)
    else match FindByUserId(t, userId, q, dateOf)
      case Failure(_) => Failure(Foreign(PrismaError))
      case Success(page) =>
        Success(ListResponse(EnrichAll(page.invoices, stripeInvoices), Paginate(q.page, q.limit, page.totalCount)))
  }

  /** `hasNext` is only set on a full page: when more pages follow, this one
      holds `limit` invoices. */
  lemma MorePagesMeansFullPage(t: Tables, stripeInvoices: seq<Stripe.Invoice>, userId: string, q: ListQuery,
                               dateOf: string -> Option<int>)
    requires q.page >= 1 && q.limit >= 1
    requires GetUserInvoices(t, stripeInvoices, userId, q, dateOf).Success?
    requires GetUserInvoices(t, stripeInvoices, userId, q, dateOf).value.pagination.hasNext
    ensures |GetUserInvoices(t, stripeInvoices, userId, q, dateOf).value.invoices| == q.limit
  {
    var all := Listing(t, userId, ResolveFilter(q, dateOf).value);
    var page := FindByUserId(t, userId, q, dateOf).value;
    var r := GetUserInvoices(t, stripeInvoices, userId, q, dateOf).value;
    assert r.pagination == Paginate(q.page, q.limit, |all|);
    FullPageArith(q, |all|);
    assert |page.invoices| == q.limit;
  }

  /** Rows beyond this page mean more than `limit` rows from its start. */
  lemma FullPageArith(q: ListQuery, n: int)
    requires q.page >= 1 && q.limit >= 1 && q.page * q.limit < n
    ensures Offset(q) < n && Min(q.limit, n - Offset(q)) == q.limit
  {
    assert q.page * q.limit == (q.page - 1) * q.limit + q.limit;
  }

  /** `getInvoiceById(invoiceId, userId)`: 404 for an unknown user, null for
      an invoice the user does not own, else the row with its Stripe
      invoice. */
  function GetInvoiceById(t: Tables, stripeInvoices: seq<Stripe.Invoice>, invoiceId: string, userId: string)
    : (r: Result<Option<Detailed>, Thrown>)
    ensures UserService.GetUserById(t.users, userId).None? <==> r == Failure(UserService.UserNotFound)
    ensures r.Failure? ==> r == Failure(UserService.UserNotFound)
    ensures r.Success? ==> (r.value.None? <==> FindByIdAndUserId(t, invoiceId, userId).None?)
    ensures r.Success? && r.value.Some? ==>
      && r.value.value.invoice.id == invoiceId
      && OwnedBy(t, r.value.value.invoice, userId)
      && r.value.value == Enrich(r.value.value.invoice, stripeInvoices)
  {
    if UserService.GetUserById(t.users, userId).None? then Failure(UserService.UserNotFound)
    else match FindByIdAndUserId(t, invoiceId, userId)
      case None => Success(None)
      case Some(inv) => Success(Some(Enrich(inv, stripeInvoices)))
  }

  /** `getInvoiceByStripeId(stripeInvoiceId, userId)`: as by id, keyed by the
      Stripe id, which is looked up in Stripe unconditionally. */
  function GetInvoiceByStripeId(t: Tables, stripeInvoices: seq<Stripe.Invoice>, stripeInvoiceId: string, userId: string)
    : (r: Result<Option<Detailed>, Thrown>)
    ensures UserService.GetUserById(t.users, userId).None? <==> r == Failure(UserService.UserNotFound)
    ensures r.Failure? ==> r == Failure(UserService.UserNotFound)
    ensures r.Success? ==> (r.value.None? <==> FindByStripeInvoiceIdAndUserId(t, stripeInvoiceId, userId).None?)
    ensures r.Success? && r.value.Some? ==>
      && r.value.value.invoice.stripeInvoiceId == Some(stripeInvoiceId)
      && OwnedBy(t, r.value.value.invoice, userId)
      && r.value.value.stripeData == StripeInvoices.FindById(stripeInvoices, stripeInvoiceId)
  {
    if UserService.GetUserById(t.users, userId).None? then Failure(UserService.UserNotFound)
    else match FindByStripeInvoiceIdAndUserId(t, stripeInvoiceId, userId)
      case None => Success(None)
      case Some(inv) => Success(Some(Detailed(inv, StripeInvoices.FindById(stripeInvoices, stripeInvoiceId))))
  }

  /** The patch `updatePdfUrl(id, url)` applies. */
  function PdfPatch(url: string): InvoicePatch {
    InvoicePatch(None, None, Some(url), None, None)
  }

  /** `getInvoiceDownloadUrl(invoiceId, userId)`, with the invoice table
      afterwards: 404 for an unknown user or an invoice the user does not
      own; a stored PDF URL is returned as it is; else Stripe's PDF URL is
      stored and returned; else null. */
  function DownloadUrlOutcome(t: Tables, stripeInvoices: seq<Stripe.Invoice>, invoiceId: string, userId: string)
    : (r: (Result<Option<string>, Thrown>, Tables))
    ensures UserService.GetUserById(t.users, userId).None? ==> r == (Failure(UserService.UserNotFound), t)
    ensures UserService.GetUserById(t.users, userId).Some? && FindByIdAndUserId(t, invoiceId, userId).None? ==>
      r == (Failure(InvoiceNotFound), t)
    ensures r.0.Success? ==> FindByIdAndUserId(t, invoiceId, userId).Some?
    ensures r.0.Success? && r.0.value.Some? ==> Truthy(r.0.value.value)
    ensures r.0.Failure? ==> r.1 == t
    ensures r.1 != t ==>
      && r.0.Success? && r.0.value.Some?
      && r.1 == t.(invoices := AfterUpdate(t.invoices, invoiceId, PdfPatch(r.0.value.value)).value)
    ensures UserService.GetUserById(t.users, userId).Some? && FindByIdAndUserId(t, invoiceId, userId).Some? ==>
      var inv := FindByIdAndUserId(t, invoiceId, userId).value;
      r == if inv.pdfUrl.Some? && Truthy(inv.pdfUrl.value) then (Success(inv.pdfUrl), t)
           else StripeUrlStep(t, stripeInvoices, inv)
  {
    match GetInvoiceById(t, stripeInvoices, invoiceId, userId)
    case Failure(e) => (Failure(e), t)
    case Success(None) => (Failure(InvoiceNotFound), t)
    case Success(Some(d)) =>
      var inv := d.invoice;
      if inv.pdfUrl.Some? && Truthy(inv.pdfUrl.value) then (Success(inv.pdfUrl), t)
      else StripeUrlStep(t, stripeInvoices, inv)
  }

  /** Stripe's PDF URL for a row with a Stripe id, when Stripe knows the
      invoice and its `invoice_pdf` is truthy. */
  function StripePdf(stripeInvoices: seq<Stripe.Invoice>, inv: Invoice): (r: Option<string>)
    requires HasStripeId(inv)
    ensures r.Some? <==>
      && StripeInvoices.FindById(stripeInvoices, inv.stripeInvoiceId.value).Some?
      && StripeInvoices.FindById(stripeInvoices, inv.stripeInvoiceId.value).value.invoicePdf.Some?
      && Truthy(StripeInvoices.FindById(stripeInvoices, inv.stripeInvoiceId.value).value.invoicePdf.value)
    ensures r.Some? ==> r == StripeInvoices.FindById(stripeInvoices, inv.stripeInvoiceId.value).value.invoicePdf
  {
    var s := StripeInvoices.FindById(stripeInvoices, inv.stripeInvoiceId.value);
    if s.Some? && s.value.invoicePdf.Some? && Truthy(s.value.invoicePdf.value) then s.value.invoicePdf else None
  }

  /** The Stripe half of `getInvoiceDownloadUrl`, for a row without a stored
      URL: when the row has a Stripe id and Stripe's invoice has a PDF URL,
      that URL is stored on the row and returned; otherwise null, and
      nothing changes. */
  function StripeUrlStep(t: Tables, stripeInvoices: seq<Stripe.Invoice>, inv: Invoice)
    : (r: (Result<Option<string>, Thrown>, Tables))
    ensures r.0.Failure? ==> r == (Failure(Foreign(PrismaError)), t)
    ensures r.0.Success? && r.0.value.Some? ==>
      && HasStripeId(inv)
      && StripeInvoices.FindById(stripeInvoices, inv.stripeInvoiceId.value).Some?
      && r.0.value == StripeInvoices.FindById(stripeInvoices, inv.stripeInvoiceId.value).value.invoicePdf
      && Truthy(r.0.value.value)
      && AfterUpdate(t.invoices, inv.id, PdfPatch(r.0.value.value)).Success?
      && r.1 == t.(invoices := AfterUpdate(t.invoices, inv.id, PdfPatch(r.0.value.value)).value)
    ensures r.0.Success? && r.0.value.None? ==> r.1 == t
    ensures HasStripeId(inv) && StripePdf(stripeInvoices, inv).Some?
            && AfterUpdate(t.invoices, inv.id, PdfPatch(StripePdf(stripeInvoices, inv).value)).Success? ==>
      r == (Success(StripePdf(stripeInvoices, inv)),
            t.(invoices := AfterUpdate(t.invoices, inv.id, PdfPatch(StripePdf(stripeInvoices, inv).value)).value))
    ensures !(HasStripeId(inv) && StripePdf(stripeInvoices, inv).Some?) ==> r == (Success(None), t)
  {
    if HasStripeId(inv) && StripePdf(stripeInvoices, inv).Some? then
      var url := StripePdf(stripeInvoices, inv);
      match AfterUpdate(t.invoices, inv.id, PdfPatch(url.value))
      case Failure(_) => (Failure(Foreign(PrismaError)), t)
      case Success(after) => (Success(url), t.(invoices := after))
    else (Success(None), t)
  }

  /** For an owned row without a stored URL whose Stripe invoice has a PDF
      URL, that URL is returned and stored on the row. */
  lemma DownloadUrlFromStripe(t: Tables, stripeInvoices: seq<Stripe.Invoice>, invoiceId: string, userId: string)
    requires UserService.GetUserById(t.users, userId).Some? && FindByIdAndUserId(t, invoiceId, userId).Some?
    requires var inv := FindByIdAndUserId(t, invoiceId, userId).value;
      && !(inv.pdfUrl.Some? && Truthy(inv.pdfUrl.value))
      && HasStripeId(inv) && StripePdf(stripeInvoices, inv).Some?
    ensures var inv := FindByIdAndUserId(t, invoiceId, userId).value;
      var url := StripePdf(stripeInvoices, inv).value;
      && AfterUpdate(t.invoices, invoiceId, PdfPatch(url)).Success?
      && DownloadUrlOutcome(t, stripeInvoices, invoiceId, userId)
         == (Success(Some(url)), t.(invoices := AfterUpdate(t.invoices, invoiceId, PdfPatch(url)).value))
  {
    var inv := FindByIdAndUserId(t, invoiceId, userId).value;
    var k := FirstIndex(t.invoices, (i: Invoice) => i.id == invoiceId && OwnedBy(t, i, userId));
    assert t.invoices[k] == inv;
  }

  /** A stored PDF URL is answered without Stripe: whatever Stripe holds,
      the URL comes back and nothing changes. */
  lemma StoredUrlNeedsNoStripe(t: Tables, s1: seq<Stripe.Invoice>, s2: seq<Stripe.Invoice>, invoiceId: string,
                                userId: string)
    requires UserService.GetUserById(t.users, userId).Some?
    requires FindByIdAndUserId(t, invoiceId, userId).Some?
    requires var inv := FindByIdAndUserId(t, invoiceId, userId).value; inv.pdfUrl.Some? && Truthy(inv.pdfUrl.value)
    ensures DownloadUrlOutcome(t, s1, invoiceId, userId) == DownloadUrlOutcome(t, s2, invoiceId, userId)
    ensures DownloadUrlOutcome(t, s1, invoiceId, userId)
      == (Success(FindByIdAndUserId(t, invoiceId, userId).value.pdfUrl), t)
  {
  }

  /** A URL that was not stored on the row is Stripe's, and it is stored. */
  lemma DownloadUrlFetched(t: Tables, s1: seq<Stripe.Invoice>, invoiceId: string, userId: string)
    requires DownloadUrlOutcome(t, s1, invoiceId, userId).0.Success?
    requires DownloadUrlOutcome(t, s1, invoiceId, userId).0.value.Some?
    requires var inv := FindByIdAndUserId(t, invoiceId, userId).value; !(inv.pdfUrl.Some? && Truthy(inv.pdfUrl.value))
    ensures var (r1, t1) := DownloadUrlOutcome(t, s1, invoiceId, userId);
      var p := PdfPatch(r1.value.value);
      && AfterUpdate(t.invoices, invoiceId, p).Success?
      && t1 == t.(invoices := AfterUpdate(t.invoices, invoiceId, p).value)
  {
  }

  /** After a download-URL request that returns a URL, the row holds that
      URL and is still the user's. */
  lemma DownloadUrlStored(t: Tables, s1: seq<Stripe.Invoice>, invoiceId: string, userId: string)
    requires UniqueBy(t.invoices, (i: Invoice) => i.id)
    requires UniqueWhenSet(t.invoices, (i: Invoice) => i.stripeInvoiceId)
    requires DownloadUrlOutcome(t, s1, invoiceId, userId).0.Success?
    requires DownloadUrlOutcome(t, s1, invoiceId, userId).0.value.Some?
    ensures var (r1, t1) := DownloadUrlOutcome(t, s1, invoiceId, userId);
      && UserService.GetUserById(t1.users, userId).Some?
      && FindByIdAndUserId(t1, invoiceId, userId).Some?
      && FindByIdAndUserId(t1, invoiceId, userId).value.pdfUrl == r1.value
  {
    var (r1, t1) := DownloadUrlOutcome(t, s1, invoiceId, userId);
    var inv := FindByIdAndUserId(t, invoiceId, userId).value;
    if inv.pdfUrl.Some? && Truthy(inv.pdfUrl.value) {
      StoredUrlNeedsNoStripe(t, s1, s1, invoiceId, userId);
    } else {
      var url := r1.value.value;
      DownloadUrlFetched(t, s1, invoiceId, userId);
      var k := FirstIndex(t.invoices, (i: Invoice) => i.id == invoiceId && OwnedBy(t, i, userId));
      assert t.invoices[k] == inv;
      PdfStoredSeen(t, k, url, userId);
    }
  }

  /** Storing a URL on one of the user's invoices: the next lookup by id
      and user finds the row, with that URL. */
  lemma PdfStoredSeen(t: Tables, k: nat, url: string, userId: string)
    requires UniqueBy(t.invoices, (i: Invoice) => i.id)
    requires UniqueWhenSet(t.invoices, (i: Invoice) => i.stripeInvoiceId)
    requires k < |t.invoices| && OwnedBy(t, t.invoices[k], userId)
    ensures var t1 := t.(invoices := AfterUpdate(t.invoices, t.invoices[k].id, PdfPatch(url)).value);
      FindByIdAndUserId(t1, t.invoices[k].id, userId) == Some(Patched(t.invoices[k], PdfPatch(url)))
  {
    UpdateSeen(t.invoices, k, PdfPatch(url));
    var t1 := t.(invoices := AfterUpdate(t.invoices, t.invoices[k].id, PdfPatch(url)).value);
    assert t1.invoices[k] == Patched(t.invoices[k], PdfPatch(url));
    assert OwnedBy(t1, t1.invoices[k], userId) == OwnedBy(t, t.invoices[k], userId);
    OwnedLookup(t1, k, userId);
  }

  /** Asking twice for the download URL stores Stripe's URL at most once:
      the second call returns the same URL from the row and changes
      nothing. */
  lemma DownloadUrlTwice(t: Tables, s1: seq<Stripe.Invoice>, s2: seq<Stripe.Invoice>, invoiceId: string,
                         userId: string)
    requires UniqueBy(t.invoices, (i: Invoice) => i.id)
    requires UniqueWhenSet(t.invoices, (i: Invoice) => i.stripeInvoiceId)
    requires DownloadUrlOutcome(t, s1, invoiceId, userId).0.Success?
    requires DownloadUrlOutcome(t, s1, invoiceId, userId).0.value.Some?
    ensures var (r1, t1) := DownloadUrlOutcome(t, s1, invoiceId, userId);
      DownloadUrlOutcome(t1, s2, invoiceId, userId) == (r1, t1)
  {
    var (r1, t1) := DownloadUrlOutcome(t, s1, invoiceId, userId);
    DownloadUrlStored(t, s1, invoiceId, userId);
    StoredUrlNeedsNoStripe(t1, s2, s2, invoiceId, userId);
  }

  /** `mapStripeInvoiceStatus`: paid, open, void and uncollectible map to
      PAID, PENDING, VOID and FAILED; anything else, null and draft
      included, to PENDING. */
  function MapStripeInvoiceStatus(status: Option<string>): (r: InvoiceStatus)
    ensures r != InvoiceStatus.OPEN
    ensures r == InvoiceStatus.PAID <==> status == Some("paid")
    ensures r == InvoiceStatus.VOID <==> status == Some("void")
    ensures r == InvoiceStatus.FAILED <==> status == Some("uncollectible")
    ensures r == InvoiceStatus.PENDING <==> !(status.Some? && status.value in {"paid", "void", "uncollectible"})
  {
    match status
    case Some("paid") => InvoiceStatus.PAID
    case Some("open") => InvoiceStatus.PENDING
    case Some("void") => InvoiceStatus.VOID
    case Some("uncollectible") => InvoiceStatus.FAILED
    case _ => InvoiceStatus.PENDING
  }

  /** The data `syncInvoiceWithStripe` writes: `amount_paid || amount_due`,
      the mapped status, the PDF URL when Stripe has one, and the due date
      in milliseconds when Stripe's is truthy. */
  function SyncPatch(s: Stripe.Invoice): (p: InvoicePatch)
    ensures p.totalAmount == Some(if s.amountPaid != 0 then s.amountPaid else s.amountDue)
    ensures p.status == Some(MapStripeInvoiceStatus(s.status))
    ensures p.pdfUrl == s.invoicePdf && p.paidAt.None?
    ensures p.dueDate.Some? <==> s.dueDate.Some? && s.dueDate.value != 0
    ensures p.dueDate.Some? ==> p.dueDate.value == s.dueDate.value * 1000
  {
    InvoicePatch(
      Some(MapStripeInvoiceStatus(s.status)),
      Some(if s.amountPaid != 0 then s.amountPaid else s.amountDue),
      s.invoicePdf,
      None,
      if s.dueDate.Some? && s.dueDate.value != 0 then Some(s.dueDate.value * 1000) else None)
  }

  /** `syncInvoiceWithStripe(invoiceId)`, with the invoice table afterwards:
      404 without the row or its Stripe id, 404 when Stripe has no such
      invoice, else the row updated from Stripe. */
  function SyncOutcome(t: Tables, stripeInvoices: seq<Stripe.Invoice>, invoiceId: string)
    : (r: (Result<Invoice, Thrown>, Tables))
    ensures (var inv := FindById(t.invoices, invoiceId); inv.None? || !HasStripeId(inv.value)) ==>
      r == (Failure(NoStripeId), t)
    ensures (var inv := FindById(t.invoices, invoiceId);
             inv.Some? && HasStripeId(inv.value)
             && StripeInvoices.FindById(stripeInvoices, inv.value.stripeInvoiceId.value).None?) ==>
      r == (Failure(StripeInvoiceNotFound), t)
    ensures (var inv := FindById(t.invoices, invoiceId);
             inv.Some? && HasStripeId(inv.value)
             && StripeInvoices.FindById(stripeInvoices, inv.value.stripeInvoiceId.value).Some?) ==>
      r.0.Success?
    ensures r.0.Failure? ==> r.1 == t
    ensures r.0.Success? ==>
      && FindById(t.invoices, invoiceId).Some? && HasStripeId(FindById(t.invoices, invoiceId).value)
      && var s := StripeInvoices.FindById(stripeInvoices, FindById(t.invoices, invoiceId).value.stripeInvoiceId.value);
      && s.Some?
      && r.0.value == Patched(FindById(t.invoices, invoiceId).value, SyncPatch(s.value))
      && r.1 == t.(invoices := AfterUpdate(t.invoices, invoiceId, SyncPatch(s.value)).value)
  {
    var inv := FindById(t.invoices, invoiceId);
    if inv.None? || !HasStripeId(inv.value) then (Failure(NoStripeId), t)
    else
      match StripeInvoices.FindById(stripeInvoices, inv.value.stripeInvoiceId.value)
      case None => (Failure(StripeInvoiceNotFound), t)
      case Some(s) =>
        match AfterUpdate(t.invoices, inv.value.id, SyncPatch(s))
        case Failure(_) => (Failure(Foreign(PrismaError)), t)
        case Success(after) => (Success(Patched(inv.value, SyncPatch(s))), t.(invoices := after))
  }

  /** Sync writes Stripe's status whatever the row holds: a PAID row whose
      Stripe invoice is open goes back to PENDING. */
  lemma SyncDemotesPaid(t: Tables, stripeInvoices: seq<Stripe.Invoice>, k: nat)
    requires UniqueBy(t.invoices, (i: Invoice) => i.id)
    requires UniqueWhenSet(t.invoices, (i: Invoice) => i.stripeInvoiceId)
    requires k < |t.invoices| && t.invoices[k].status == InvoiceStatus.PAID && HasStripeId(t.invoices[k])
    requires var s := StripeInvoices.FindById(stripeInvoices, t.invoices[k].stripeInvoiceId.value);
      s.Some? && s.value.status == Some("open")
    ensures var (r, t1) := SyncOutcome(t, stripeInvoices, t.invoices[k].id);
      && r.Success? && r.value.status == InvoiceStatus.PENDING
      && FindById(t1.invoices, t.invoices[k].id).value.status == InvoiceStatus.PENDING
  {
    var inv := t.invoices[k];
    FindFirstOnly(t.invoices, (i: Invoice) => i.id == inv.id, k);
    var s := StripeInvoices.FindById(stripeInvoices, inv.stripeInvoiceId.value).value;
    UpdateSeen(t.invoices, k, SyncPatch(s));
  }

  /** The patch `markInvoiceAsPaid` applies. */
  function PaidPatch(amountPaid: int, pdfUrl: Option<string>, now: int): InvoicePatch {
    InvoicePatch(Some(InvoiceStatus.PAID), Some(amountPaid), pdfUrl, Some(now), None)
  }

  /** `markInvoiceAsPaid(stripeInvoiceId, amountPaid, pdfUrl)` at time `now`:
      the tables afterwards. An unknown Stripe id changes nothing. */
  function MarkPaidOutcome(t: Tables, stripeInvoiceId: string, amountPaid: int, pdfUrl: Option<string>, now: int)
    : (r: Tables)
    ensures FindByStripeInvoiceId(t.invoices, stripeInvoiceId).None? ==> r == t
    ensures FindByStripeInvoiceId(t.invoices, stripeInvoiceId).Some? ==>
      var inv := FindByStripeInvoiceId(t.invoices, stripeInvoiceId).value;
      r == t.(invoices := AfterUpdate(t.invoices, inv.id, PaidPatch(amountPaid, pdfUrl, now)).value)
  {
    match FindByStripeInvoiceId(t.invoices, stripeInvoiceId)
    case None => t
    case Some(inv) =>
      match AfterUpdate(t.invoices, inv.id, PaidPatch(amountPaid, pdfUrl, now))
      case Failure(_) => t
      case Success(after) => t.(invoices := after)
  }

  /** After `markInvoiceAsPaid`, the invoice is PAID with the amount and
      payment time given, and keeps its PDF URL unless one was given. */
  lemma MarkPaidSeen(t: Tables, k: nat, amountPaid: int, pdfUrl: Option<string>, now: int)
    requires UniqueBy(t.invoices, (i: Invoice) => i.id)
    requires UniqueWhenSet(t.invoices, (i: Invoice) => i.stripeInvoiceId)
    requires k < |t.invoices| && t.invoices[k].stripeInvoiceId.Some?
    ensures var inv := t.invoices[k];
      var t1 := MarkPaidOutcome(t, inv.stripeInvoiceId.value, amountPaid, pdfUrl, now);
      var after := FindByStripeInvoiceId(t1.invoices, inv.stripeInvoiceId.value);
      && after.Some? && after.value.status == InvoiceStatus.PAID
      && after.value.totalAmount == amountPaid && after.value.paidAt == Some(now)
      && after.value.pdfUrl == (if pdfUrl.Some? then pdfUrl else inv.pdfUrl)
  {
    var inv := t.invoices[k];
    FindFirstOnly(t.invoices, (i: Invoice) => i.stripeInvoiceId == inv.stripeInvoiceId, k);
    UpdateSeen(t.invoices, k, PaidPatch(amountPaid, pdfUrl, now));
  }

  /** Applying a patch twice is applying it once. */
  lemma PatchTwice(inv: Invoice, p: InvoicePatch)
    ensures Patched(Patched(inv, p), p) == Patched(inv, p)
  {
  }

  /** A second identical update changes nothing. */
  lemma UpdateTwice(invoices: seq<Invoice>, id: string, p: InvoicePatch)
    requires AfterUpdate(invoices, id, p).Success?
    ensures AfterUpdate(AfterUpdate(invoices, id, p).value, id, p) == AfterUpdate(invoices, id, p)
  {
    var after := AfterUpdate(invoices, id, p).value;
    var k := FirstIndex(invoices, (i: Invoice) => i.id == id);
    assert after[k].id == id;
    var again := AfterUpdate(after, id, p).value;
    forall j | 0 <= j < |after| ensures again[j] == after[j] {
      if invoices[j].id == id {
        PatchTwice(invoices[j], p);
      }
    }
    assert again == after;
  }

  /** With unique keys, the row at k is the one found by its Stripe id,
      before and after an update of that row. */
  lemma FoundBeforeAndAfter(invoices: seq<Invoice>, k: nat, p: InvoicePatch)
    requires UniqueBy(invoices, (i: Invoice) => i.id)
    requires UniqueWhenSet(invoices, (i: Invoice) => i.stripeInvoiceId)
    requires k < |invoices| && invoices[k].stripeInvoiceId.Some?
    ensures FindByStripeInvoiceId(invoices, invoices[k].stripeInvoiceId.value) == Some(invoices[k])
    ensures FindByStripeInvoiceId(AfterUpdate(invoices, invoices[k].id, p).value, invoices[k].stripeInvoiceId.value)
      == Some(Patched(invoices[k], p))
  {
    FindFirstOnly(invoices, (i: Invoice) => i.stripeInvoiceId == invoices[k].stripeInvoiceId, k);
    UpdateSeen(invoices, k, p);
  }

  /** Marking the same invoice paid twice with the same data is marking it
      once. */
  lemma MarkPaidTwice(t: Tables, stripeInvoiceId: string, amountPaid: int, pdfUrl: Option<string>, now: int)
    requires UniqueBy(t.invoices, (i: Invoice) => i.id)
    requires UniqueWhenSet(t.invoices, (i: Invoice) => i.stripeInvoiceId)
    ensures var t1 := MarkPaidOutcome(t, stripeInvoiceId, amountPaid, pdfUrl, now);
      MarkPaidOutcome(t1, stripeInvoiceId, amountPaid, pdfUrl, now) == t1
  {
    var found := FindByStripeInvoiceId(t.invoices, stripeInvoiceId);
    if found.Some? {
      var p := PaidPatch(amountPaid, pdfUrl, now);
      var inv := found.value;
      var k := FirstIndex(t.invoices, (i: Invoice) => i.stripeInvoiceId == Some(stripeInvoiceId));
      assert t.invoices[k] == inv;
      FoundBeforeAndAfter(t.invoices, k, p);
      UpdateTwice(t.invoices, inv.id, p);
      var t1 := t.(invoices := AfterUpdate(t.invoices, inv.id, p).value);
      assert MarkPaidOutcome(t, stripeInvoiceId, amountPaid, pdfUrl, now) == t1;
      assert FindByStripeInvoiceId(t1.invoices, stripeInvoiceId) == Some(Patched(inv, p));
    }
  }

  method GetInvoiceDownloadUrl(db: Database, acct: Stripe.Account, invoiceId: string, userId: string)
    returns (r: Result<Option<string>, Thrown>)
    modifies db
    ensures (r, db.State()) == DownloadUrlOutcome(old(db.State()), acct.invoices, invoiceId, userId)
  {
    var found := GetInvoiceById(db.State(), acct.invoices, invoiceId, userId);
    if found.Failure? {
      return Failure(found.error);
    }
    if found.value.None? {
      return Failure(InvoiceNotFound);
    }
    var inv := found.value.value.invoice;
    if inv.pdfUrl.Some? && Truthy(inv.pdfUrl.value) {
      return Success(inv.pdfUrl);
    }
    r := StoreStripeUrl(db, acct, inv);
  }

  /** The Stripe half: looks the row's invoice up in Stripe and stores its
      PDF URL on the row. */
  method StoreStripeUrl(db: Database, acct: Stripe.Account, inv: Invoice) returns (r: Result<Option<string>, Thrown>)
    modifies db
    ensures (r, db.State()) == StripeUrlStep(old(db.State()), acct.invoices, inv)
  {
    if HasStripeId(inv) {
      var s := StripeInvoices.FindById(acct.invoices, inv.stripeInvoiceId.value);
      if s.Some? && s.value.invoicePdf.Some? && Truthy(s.value.invoicePdf.value) {
        var updated := InvoiceRepository.UpdatePdfUrl(db, inv.id, s.value.invoicePdf.value);
        if updated.Failure? {
          return Failure(Foreign(PrismaError));
        }
        return Success(s.value.invoicePdf);
      }
    }
    r := Success(None);
  }

  /** `syncInvoiceWithStripe`. */
  method SyncInvoiceWithStripe(db: Database, acct: Stripe.Account, invoiceId: string)
    returns (r: Result<Invoice, Thrown>)
    modifies db
    ensures (r, db.State()) == SyncOutcome(old(db.State()), acct.invoices, invoiceId)
  {
    var inv := FindById(db.invoices, invoiceId);
    if inv.None? || !HasStripeId(inv.value) {
      return Failure(NoStripeId);
    }
    var s := StripeInvoices.FindById(acct.invoices, inv.value.stripeInvoiceId.value);
    if s.None? {
      return Failure(StripeInvoiceNotFound);
    }
    var p := SyncPatch(s.value);
    var updated := InvoiceRepository.UpdateFromStripe(db, inv.value.id, p.totalAmount, p.status, p.pdfUrl, p.dueDate);
    if updated.Failure? {
      return Failure(Foreign(PrismaError));
    }
    r := Success(updated.value);
  }

  /** `markInvoiceAsPaid`. */
  method MarkInvoiceAsPaid(db: Database, stripeInvoiceId: string, amountPaid: int, pdfUrl: Option<string>, now: int)
    modifies db
    ensures db.State() == MarkPaidOutcome(old(db.State()), stripeInvoiceId, amountPaid, pdfUrl, now)
  {
    var inv := FindByStripeInvoiceId(db.invoices, stripeInvoiceId);
    if inv.None? {
      return;
    }
    var _ := InvoiceRepository.UpdateStatus(db, inv.value.id, InvoiceStatus.PAID, Some(amountPaid), pdfUrl, Some(now), None);
  }
}
