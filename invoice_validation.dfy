/** `invoiceListQuerySchema` of src/lib/validations/invoice.validation.ts as a
    validator with defaults. */
module InvoiceValidation {
  import opened Wrappers
  import opened JsRuntime

  /** A string-valued field as JavaScript can hold it: `undefined`, `null`
      (what `URLSearchParams.get` returns for a missing parameter) or a string. */
  datatype MaybeString = Undefined | Null | Str(s: string)

  /** The raw query record; `None` in `page`/`limit`/`status` is `undefined`. */
  datatype RawListQuery = RawListQuery(
    page: Option<Num>,
    limit: Option<Num>,
    status: Option<string>,
    dateFrom: MaybeString,
    dateTo: MaybeString)

  /** The schema's output, the `InvoiceListQuery` the service receives. */
  datatype ListQuery = ListQuery(
    page: int,
    limit: int,
    status: Option<string>,
    dateFrom: Option<string>,
    dateTo: Option<string>)

  const StatusNames: set<string> :=
    {"OPEN", "PAID", "UNPAID", "VOID", "EXPIRED", "FAILED", "CANCELED", "PENDING"}

  /** A query the schema can produce: page at least 1, limit within 1..100,
      status absent or one of the eight names. */
  predicate ValidListQuery(q: ListQuery) {
    q.page >= 1 && 1 <= q.limit <= 100 && (q.status.Some? ==> q.status.value in StatusNames)
  }

  /** `z.string().optional()`: undefined and strings pass, null does not. */
  function OptionalString(v: MaybeString): Result<Option<string>, ()> {
    match v
    case Undefined => Success(None)
    case Null => Failure(())
    case Str(s) => Success(Some(s))
  }

  /** `z.number().min(lo).max(hi).default(d)`; NaN is not a number to zod. */
  function NumberInRange(v: Option<Num>, lo: int, hi: Option<int>, default: int): Result<int, ()> {
    match v
    case None => Success(default)
    case Some(NaN) => Failure(())
    case Some(Int(n)) => if n < lo || (hi.Some? && n > hi.value) then Failure(()) else Success(n)
  }

  /** `invoiceListQuerySchema.parse`. */
  function ParseListQuery(raw: RawListQuery): (r: Result<ListQuery, ()>)
    ensures r.Success? <==>
      && (raw.page.Some? ==> raw.page.value.Int? && raw.page.value.value >= 1)
      && (raw.limit.Some? ==> raw.limit.value.Int? && 1 <= raw.limit.value.value <= 100)
      && (raw.status.Some? ==> raw.status.value in StatusNames)
      && !raw.dateFrom.Null? && !raw.dateTo.Null?
    ensures r.Success? ==> ValidListQuery(r.value)
    ensures r.Success? ==>
      && r.value.page == (if raw.page.None? then 1 else raw.page.value.value)
      && r.value.limit == (if raw.limit.None? then 10 else raw.limit.value.value)
      && r.value.status == raw.status
      && r.value.dateFrom == (if raw.dateFrom.Str? then Some(raw.dateFrom.s) else None)
      && r.value.dateTo == (if raw.dateTo.Str? then Some(raw.dateTo.s) else None)
  {
    var page := NumberInRange(raw.page, 1, None, 1);
    var limit := NumberInRange(raw.limit, 1, Some(100), 10);
    var from := OptionalString(raw.dateFrom);
    var to := OptionalString(raw.dateTo);
    if page.Failure? || limit.Failure? || from.Failure? || to.Failure? then Failure(())
    else if raw.status.Some? && raw.status.value !in StatusNames then Failure(())
    else Success(ListQuery(page.value, limit.value, raw.status, from.value, to.value))
  }
}
