/** `GET /api/invoices` (src/app/api/invoices/route.ts): builds the list
    query from the URL's search parameters, validates it and answers with the
    demo user's page of invoices; anything thrown is answered by
    `handleApiError`. */
module InvoicesRoute {
  import opened Wrappers
  import opened JsRuntime
  import opened ApiErrors
  import opened ErrorHandler
  import opened InvoiceValidation
  import opened Prisma
  import Stripe
  import InvoiceRepository
  import InvoiceService
  import UserService

  const DemoUserId := "cmct55uwc0000ijs59cm86mej"

  /** `searchParams.get(name)` for the five names; `None` is `null`. */
  datatype SearchParams = SearchParams(
    page: Option<string>,
    limit: Option<string>,
    status: Option<string>,
    dateFrom: Option<string>,
    dateTo: Option<string>)

  const NoParams := SearchParams(None, None, None, None, None)

  /** A number field: `parseInt` of a non-empty parameter, the default otherwise. */
  function NumberParam(v: Option<string>, default: int): (r: Num)
    ensures v.None? || v.value == "" ==> r == Int(default)
    ensures v.Some? && v.value != "" ==> r == ParseInt(v.value)
  {
    if v.Some? && Truthy(v.value) then ParseInt(v.value) else Int(default)
  }

  /** A date field as written: the `as string | undefined` cast leaves a
      missing parameter `null`. */
  function DateParam(v: Option<string>): (r: MaybeString)
    ensures r.Null? <==> v.None?
    ensures v.Some? ==> r == Str(v.value)
  {
    if v.Some? then Str(v.value) else Null
  }

  /** A date field as intended: a missing parameter is `undefined`. */
  function DateParamCorrected(v: Option<string>): (r: MaybeString)
    ensures r.Undefined? <==> v.None?
    ensures v.Some? ==> r == Str(v.value)
  {
    if v.Some? then Str(v.value) else Undefined
  }

  /** `queryData`; `intended` selects the corrected date fields. */
  function QueryData(sp: SearchParams, intended: bool): (r: RawListQuery)
    ensures r.page == Some(NumberParam(sp.page, 1)) && r.limit == Some(NumberParam(sp.limit, 10))
    ensures r.status.Some? <==> sp.status.Some? && sp.status.value != ""
    ensures r.status.Some? ==> r.status.value == ToUpperAscii(sp.status.value)
    ensures !intended ==> r.dateFrom == DateParam(sp.dateFrom) && r.dateTo == DateParam(sp.dateTo)
    ensures intended ==> r.dateFrom == DateParamCorrected(sp.dateFrom) && r.dateTo == DateParamCorrected(sp.dateTo)
  {
    RawListQuery(
      Some(NumberParam(sp.page, 1)),
      Some(NumberParam(sp.limit, 10)),
      if sp.status.Some? && Truthy(sp.status.value) then Some(ToUpperAscii(sp.status.value)) else None,
      if intended then DateParamCorrected(sp.dateFrom) else DateParam(sp.dateFrom),
      if intended then DateParamCorrected(sp.dateTo) else DateParam(sp.dateTo))
  }

  /** The response: the validated query's page for the demo user, a 404 when
      that user does not exist, 500 for a query the schema or Prisma rejects. */
  function GetOutcome(t: Tables, stripeInvoices: seq<Stripe.Invoice>, sp: SearchParams,
                      dateOf: string -> Option<int>, intended: bool)
    : (r: Response<InvoiceService.ListResponse>)
    ensures ParseListQuery(QueryData(sp, intended)).Failure? ==> r == HandleApiError(Foreign(ZodError))
    ensures ParseListQuery(QueryData(sp, intended)).Success? ==>
      var out := InvoiceService.GetUserInvoices(t, stripeInvoices, DemoUserId,
                                                ParseListQuery(QueryData(sp, intended)).value, dateOf);
      && (out.Failure? ==> r == HandleApiError(out.error))
      && (out.Success? ==> r == SuccessResponse(out.value))
    ensures r.Json? && (r.status == 200 <==> r.body.Succeeded())
    ensures r.body.Succeeded() ==>
      var q := ParseListQuery(QueryData(sp, intended));
      && q.Success?
      && InvoiceService.GetUserInvoices(t, stripeInvoices, DemoUserId, q.value, dateOf) == Success(r.body.data)
  {
    match ParseListQuery(QueryData(sp, intended))
    case Failure(_) => HandleApiError(Foreign(ZodError))
    case Success(q) =>
      match InvoiceService.GetUserInvoices(t, stripeInvoices, DemoUserId, q, dateOf)
      case Failure(e) => HandleApiError(e)
      case Success(v) => SuccessResponse(v)
  }

  /** As written, any request that leaves out `dateFrom` or `dateTo`, the
      plain `GET /api/invoices` among them, is refused by the schema and
      answered with 500 INTERNAL_ERROR. */
  lemma MissingDateIsInternalError(t: Tables, stripeInvoices: seq<Stripe.Invoice>, sp: SearchParams,
                                   dateOf: string -> Option<int>)
    requires sp.dateFrom.None? || sp.dateTo.None?
    ensures GetOutcome(t, stripeInvoices, sp, dateOf, false)
      == Json(500, ErrorBody("Internal server error", Some("INTERNAL_ERROR"), None))
  {
  }

  /** With the corrected date fields the plain request lists the first page
      of ten for an existing user: every invoice the user owns is counted. */
  lemma PlainRequestListsFirstPage(t: Tables, stripeInvoices: seq<Stripe.Invoice>, dateOf: string -> Option<int>)
    requires UserService.GetUserById(t.users, DemoUserId).Some?
    ensures var r := GetOutcome(t, stripeInvoices, NoParams, dateOf, true);
      && r.Json? && r.status == 200 && r.body.Succeeded()
      && r.body.data.pagination.page == 1 && r.body.data.pagination.limit == 10
      && r.body.data.pagination.totalCount
         == |InvoiceRepository.Listing(t, DemoUserId, InvoiceRepository.InvoiceFilter(None, None, None))|
      && r.body.data.pagination.hasPrev == false
  {
    var q := ListQuery(1, 10, None, None, None);
    assert ParseListQuery(QueryData(NoParams, true)) == Success(q);
    assert InvoiceRepository.ResolveFilter(q, dateOf) == Success(InvoiceRepository.InvoiceFilter(None, None, None));
  }

  /** An unknown demo user is a 404 "User not found" for any valid query. */
  lemma UnknownUserIsNotFound(t: Tables, stripeInvoices: seq<Stripe.Invoice>, sp: SearchParams,
                              dateOf: string -> Option<int>, intended: bool)
    requires ParseListQuery(QueryData(sp, intended)).Success?
    requires UserService.GetUserById(t.users, DemoUserId).None?
    ensures GetOutcome(t, stripeInvoices, sp, dateOf, intended) == Json(404, ErrorBody("User not found", None, None))
  {
  }

  /** The status parameter is compared without regard to case: any status
      filters exactly like its upper-cased form ("paid" like "PAID"). */
  lemma StatusIsUpperCased(sp: SearchParams, status: string, intended: bool)
    ensures QueryData(sp.(status := Some(status)), intended)
      == QueryData(sp.(status := Some(ToUpperAscii(status))), intended)
  {
    ToUpperAsciiIdempotent(status);
  }

  /** A page parameter holding the digits of n selects page n; zero and
      negative pages are refused by the schema. */
  lemma PageParamRead(sp: SearchParams, n: int, intended: bool)
    requires sp.page == Some(IntToString(n))
    ensures ParseListQuery(QueryData(sp, intended)).Success? ==>
      ParseListQuery(QueryData(sp, intended)).value.page == n
    ensures n < 1 ==> ParseListQuery(QueryData(sp, intended)).Failure?
  {
    ParseIntOfIntToString(n);
    assert IntToString(n) != "" by {
      if n >= 0 { NatToStringValue(n); } else { assert IntToString(n)[0] == '-'; }
    }
  }
}
