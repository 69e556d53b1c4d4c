/** `InvoiceGenerator` (src/lib/invoice-generator.ts): the sequence of Stripe
    calls that bills a customer for a list of items, the generated invoice
    number, and the conversion of a Stripe invoice into the application's
    invoice record. Stripe's answers (the new invoice's id, the status after
    finalizing) and the clock are parameters. */
module InvoiceGenerator {
  import opened Wrappers
  import opened JsRuntime
  import opened Stripe

  /** An input item; `unitPrice` is in cents. */
  datatype GenItem = GenItem(description: string, quantity: int, unitPrice: int, productId: Option<string>)

  /** The `options` argument; `dueDate` is the date's time in milliseconds. */
  datatype GenOptions = GenOptions(
    dueDate: Option<int>,
    autoAdvance: Option<bool>,
    collectionMethod: Option<string>,
    metadata: Option<map<string, string>>)

  /** The invoice item created for one input item: the line total in euro
      cents, with the product id, quantity and unit price as metadata
      strings. */
  function ItemFor(customerId: string, item: GenItem): (r: InvoiceItem)
    ensures r.customer == customerId && r.description == item.description
    ensures r.amount == item.unitPrice * item.quantity && r.currency == "eur"
    ensures r.metadata.Keys == {"productId", "quantity", "unitPrice"}
    ensures r.metadata["productId"] == (if item.productId.Some? then item.productId.value else "")
  {
    InvoiceItem(customerId, item.unitPrice * item.quantity, "eur", item.description,
                map["productId" := item.productId.GetOr(""),
                    "quantity" := IntToString(item.quantity),
                    "unitPrice" := IntToString(item.unitPrice)])
  }

  /** The metadata strings give back the quantity and the unit price. */
  lemma ItemMetadataRoundTrip(customerId: string, item: GenItem)
    ensures ParseInt(ItemFor(customerId, item).metadata["quantity"]) == Int(item.quantity)
    ensures ParseInt(ItemFor(customerId, item).metadata["unitPrice"]) == Int(item.unitPrice)
  {
    ParseIntOfIntToString(item.quantity);
    ParseIntOfIntToString(item.unitPrice);
  }

  /** The item calls, one per input item and in input order. */
  function ItemCalls(customerId: string, items: seq<GenItem>): (r: seq<InvoiceCall>)
    ensures |r| == |items|
    ensures forall k :: 0 <= k < |items| ==> r[k] == CreateItem(ItemFor(customerId, items[k]))
  {
    seq(|items|, k requires 0 <= k < |items| => CreateItem(ItemFor(customerId, items[k])))
  }

  /** `options.collectionMethod || "send_invoice"`. */
  function CollectionMethod(options: GenOptions): (m: string)
    ensures options.collectionMethod.Some? && Truthy(options.collectionMethod.value) ==>
      m == options.collectionMethod.value
    ensures !(options.collectionMethod.Some? && Truthy(options.collectionMethod.value)) ==> m == "send_invoice"
  {
    if options.collectionMethod.Some? && Truthy(options.collectionMethod.value) then options.collectionMethod.value
    else "send_invoice"
  }

  /** The parameters of `invoices.create`: `auto_advance` defaults to true,
      and `due_date`, in whole seconds rounded down, is sent only for
      `send_invoice` with a due date. */
  function InvoiceParamsFor(customerId: string, options: GenOptions): (p: InvoiceParams)
    ensures p.customer == customerId && p.collectionMethod == CollectionMethod(options)
    ensures p.autoAdvance == (if options.autoAdvance.Some? then options.autoAdvance.value else true)
    ensures p.dueDate.Some? <==> CollectionMethod(options) == "send_invoice" && options.dueDate.Some?
    ensures p.dueDate.Some? ==>
      p.dueDate.value * 1000 <= options.dueDate.value < p.dueDate.value * 1000 + 1000
    ensures p.metadata == options.metadata
  {
    var m := CollectionMethod(options);
    InvoiceParams(customerId, m, options.autoAdvance.GetOr(true),
                  if m == "send_invoice" && options.dueDate.Some? then Some(options.dueDate.value / 1000) else None,
                  options.metadata)
  }

  /** The calls after the invoice is created: `send_invoice` finalizes;
      `charge_automatically` finalizes only when `options.autoAdvance` is
      true, and then pays when the finalized invoice is open. An invoice
      without an id is neither finalized nor paid. */
  function FinalizeCalls(m: string, autoAdvance: Option<bool>, invoiceId: string, finalizedStatus: Option<string>)
    : (r: seq<InvoiceCall>)
    ensures r != [] <==>
      Truthy(invoiceId) && (m == "send_invoice" || (m == "charge_automatically" && autoAdvance == Some(true)))
    ensures r != [] ==> r[0] == Finalize(invoiceId)
    ensures |r| == 2 <==>
      Truthy(invoiceId) && m == "charge_automatically" && autoAdvance == Some(true) && finalizedStatus == Some("open")
    ensures |r| == 2 ==> r[1] == Pay(invoiceId)
    ensures |r| <= 2
  {
    if !Truthy(invoiceId) then []
    else if m == "send_invoice" then [Finalize(invoiceId)]
    else if m == "charge_automatically" && autoAdvance == Some(true) then
      [Finalize(invoiceId)] + (if finalizedStatus == Some("open") then [Pay(invoiceId)] else [])
    else []
  }

  /** Every call `createStripeInvoice` makes, in order. */
  function StripeInvoiceCalls(customerId: string, items: seq<GenItem>, options: GenOptions, invoiceId: string,
                              finalizedStatus: Option<string>)
    : (r: seq<InvoiceCall>)
    ensures |r| >= |items| + 1
    ensures r[..|items|] == ItemCalls(customerId, items)
    ensures r[|items|] == CreateInvoice(InvoiceParamsFor(customerId, options))
    ensures r[|items| + 1..] == FinalizeCalls(CollectionMethod(options), options.autoAdvance, invoiceId, finalizedStatus)
  {
    ItemCalls(customerId, items) + [CreateInvoice(InvoiceParamsFor(customerId, options))]
      + FinalizeCalls(CollectionMethod(options), options.autoAdvance, invoiceId, finalizedStatus)
  }

  /** Exactly one invoice is created, right after the items. */
  lemma OneInvoiceCreated(customerId: string, items: seq<GenItem>, options: GenOptions, invoiceId: string,
                          finalizedStatus: Option<string>)
    ensures var r := StripeInvoiceCalls(customerId, items, options, invoiceId, finalizedStatus);
      forall k :: 0 <= k < |r| && r[k].CreateInvoice? ==> k == |items|
  {
  }

  /** The invoice is finalized exactly when it has an id and is either sent
      (`send_invoice`) or charged with `autoAdvance` true; the finalize then
      comes right after the create, and it is the only one. */
  lemma FinalizeIff(customerId: string, items: seq<GenItem>, options: GenOptions, invoiceId: string,
                    finalizedStatus: Option<string>)
    ensures var r := StripeInvoiceCalls(customerId, items, options, invoiceId, finalizedStatus);
      (exists k :: 0 <= k < |r| && r[k] == Finalize(invoiceId)) <==>
        && Truthy(invoiceId)
        && (|| CollectionMethod(options) == "send_invoice"
            || (CollectionMethod(options) == "charge_automatically" && options.autoAdvance == Some(true)))
    ensures var r := StripeInvoiceCalls(customerId, items, options, invoiceId, finalizedStatus);
      forall k :: 0 <= k < |r| && r[k].Finalize? ==> k == |items| + 1 && r[k] == Finalize(invoiceId)
  {
    var r := StripeInvoiceCalls(customerId, items, options, invoiceId, finalizedStatus);
    var fin := FinalizeCalls(CollectionMethod(options), options.autoAdvance, invoiceId, finalizedStatus);
    assert r == ItemCalls(customerId, items) + [CreateInvoice(InvoiceParamsFor(customerId, options))] + fin;
    assert forall k :: 0 <= k < |items| + 1 ==> !r[k].Finalize?;
    assert forall k :: 0 <= k < |fin| ==> r[|items| + 1 + k] == fin[k];
    if fin != [] {
      assert r[|items| + 1] == Finalize(invoiceId);
    }
  }

  /** A payment is attempted only for `charge_automatically` with
      `autoAdvance` true and an invoice open after finalizing, and it is the
      last call, right after the finalize. */
  lemma PayOnlyAfterOpenFinalize(customerId: string, items: seq<GenItem>, options: GenOptions, invoiceId: string,
                                 finalizedStatus: Option<string>)
    ensures var r := StripeInvoiceCalls(customerId, items, options, invoiceId, finalizedStatus);
      (exists k :: 0 <= k < |r| && r[k].Pay?) <==>
        && Truthy(invoiceId)
        && CollectionMethod(options) == "charge_automatically" && options.autoAdvance == Some(true)
        && finalizedStatus == Some("open")
    ensures var r := StripeInvoiceCalls(customerId, items, options, invoiceId, finalizedStatus);
      r[|r| - 1].Pay? ==> |r| == |items| + 3 && r[|r| - 2] == Finalize(invoiceId) && r[|r| - 1] == Pay(invoiceId)
  {
    var r := StripeInvoiceCalls(customerId, items, options, invoiceId, finalizedStatus);
    var fin := FinalizeCalls(CollectionMethod(options), options.autoAdvance, invoiceId, finalizedStatus);
    assert r == ItemCalls(customerId, items) + [CreateInvoice(InvoiceParamsFor(customerId, options))] + fin;
    assert forall k :: 0 <= k < |items| + 1 ==> !r[k].Pay?;
    assert forall k :: 0 <= k < |fin| ==> r[|items| + 1 + k] == fin[k];
    if && Truthy(invoiceId)
       && CollectionMethod(options) == "charge_automatically" && options.autoAdvance == Some(true)
       && finalizedStatus == Some("open")
    {
      assert r[|items| + 2] == Pay(invoiceId);
    }
  }

  /** With `charge_automatically` and no `autoAdvance`, Stripe is told to
      auto-advance the invoice, yet nothing is finalized. */
  lemma UndefinedAutoAdvanceNoFinalize(customerId: string, items: seq<GenItem>, options: GenOptions, invoiceId: string,
                                       finalizedStatus: Option<string>)
    requires options.collectionMethod == Some("charge_automatically") && options.autoAdvance.None?
    ensures InvoiceParamsFor(customerId, options).autoAdvance
    ensures StripeInvoiceCalls(customerId, items, options, invoiceId, finalizedStatus)
      == ItemCalls(customerId, items) + [CreateInvoice(InvoiceParamsFor(customerId, options))]
  {
  }

  /** The loop over the items: one item call each, in order. */
  method AddItems(acct: Account, customerId: string, items: seq<GenItem>)
    modifies acct
    ensures acct.State() == old(acct.State()).(invoiceCalls := old(acct.invoiceCalls) + ItemCalls(customerId, items))
  {
    for i := 0 to |items|
      invariant acct.State() == old(acct.State()).(invoiceCalls := old(acct.invoiceCalls) + ItemCalls(customerId, items[..i]))
    {
      assert ItemCalls(customerId, items[..i + 1]) == ItemCalls(customerId, items[..i]) + [CreateItem(ItemFor(customerId, items[i]))];
      acct.invoiceCalls := acct.invoiceCalls + [CreateItem(ItemFor(customerId, items[i]))];
    }
    assert items[..|items|] == items;
  }

  /** `createStripeInvoice(customerId, items, options)`: the calls are logged
      in order, and the invoice returned is the one from creation: its id and
      the parameters it was created with. */
  method CreateStripeInvoice(acct: Account, customerId: string, items: seq<GenItem>, options: GenOptions,
                             invoiceId: string, finalizedStatus: Option<string>)
    returns (id: string, params: InvoiceParams)
    modifies acct
    ensures id == invoiceId && params == InvoiceParamsFor(customerId, options)
    ensures acct.State() == old(acct.State()).(invoiceCalls := old(acct.invoiceCalls)
      + StripeInvoiceCalls(customerId, items, options, invoiceId, finalizedStatus))
  {
    AddItems(acct, customerId, items);
    var m := CollectionMethod(options);
    params := InvoiceParamsFor(customerId, options);
    id := invoiceId;
    acct.invoiceCalls := acct.invoiceCalls + [CreateInvoice(params)];
    if m == "send_invoice" {
      if Truthy(id) {
        acct.invoiceCalls := acct.invoiceCalls + [Finalize(id)];
      }
    } else if m == "charge_automatically" && options.autoAdvance == Some(true) {
      if Truthy(id) {
        acct.invoiceCalls := acct.invoiceCalls + [Finalize(id)];
        if finalizedStatus == Some("open") {
          acct.invoiceCalls := acct.invoiceCalls + [Pay(id)];
        }
      }
    }
  }

  /** `generateInvoiceNumber()`: `INV-`, the year, the two-digit month, `-`,
      and the last six digits of the millisecond clock. `month` is the
      zero-based `getMonth()`. */
  function GenerateInvoiceNumber(year: int, month: int, nowMs: int): (r: string)
    ensures |r| >= 7 && r[..4] == "INV-"
  {
    "INV-" + IntToString(year) + PadStart2(IntToString(month + 1)) + "-" + SliceLast(IntToString(nowMs), 6)
  }

  /** The month field is two digits whose value is the one-based month. */
  lemma MonthDigits(m: nat)
    requires 1 <= m <= 12
    ensures var s := PadStart2(NatToString(m));
      |s| == 2 && IsDecDigit(s[0]) && IsDecDigit(s[1]) && DigitsValue(s, 10) == m
  {
    NatToStringValue(m);
    if m < 10 {
      var s := PadStart2(NatToString(m));
      assert s == ['0', DecDigitChar(m)];
      assert s[..1] == ['0'] && ['0'][..0] == [];
    } else {
      NatToStringLength(m, 1);
    }
  }

  /** For a four-digit year and a clock past 100000 ms, the number is 17
      characters: `INV-`, four year digits, two month digits of the
      one-based month, `-`, and the clock's last six digits. */
  lemma InvoiceNumberShape(year: int, month: int, nowMs: int)
    requires 1000 <= year <= 9999 && 0 <= month <= 11 && nowMs >= 100000
    ensures var r := GenerateInvoiceNumber(year, month, nowMs);
      && |r| == 17 && r[..4] == "INV-" && r[10] == '-'
      && r[4..8] == NatToString(year)
      && DigitsValue(r[8..10], 10) == month + 1
      && (forall i :: 4 <= i < 10 || 11 <= i < 17 ==> IsDecDigit(r[i]))
      && r[11..] == NatToString(nowMs)[|NatToString(nowMs)| - 6..]
  {
    NatToStringLength(year, 3);
    MonthDigits(month + 1);
    ClockDigits(nowMs);
    var y := NatToString(year);
    var mm := PadStart2(NatToString(month + 1));
    var ms := NatToString(nowMs);
    var tail := SliceLast(ms, 6);
    var pre: string := "INV-";
    var r := GenerateInvoiceNumber(year, month, nowMs);
    assert |pre| == 4 && |y| == 4 && |mm| == 2 && |tail| == 6;
    assert r == pre + y + mm + ['-'] + tail;
    assert r[..4] == pre;
    assert r[4..8] == y;
    assert r[8..10] == mm;
    assert r[11..] == tail;
  }

  /** A clock of at least 100000 has six digits or more. */
  lemma ClockDigits(nowMs: int)
    requires nowMs >= 100000
    ensures |NatToString(nowMs)| >= 6
  {
    var k: nat := 5;
    while Pow10(k + 1) <= nowMs
      invariant 5 <= k && Pow10(k) <= nowMs
      decreases nowMs - Pow10(k)
    {
      k := k + 1;
    }
    NatToStringLength(nowMs, k);
  }

  /** An application invoice line (`InvoiceItem` of the invoice types). */
  datatype AppItem = AppItem(
    id: string,
    description: Option<string>,
    quantity: Option<int>,
    unitPrice: int,
    amount: int,
    productId: Option<string>)

  /** The application's invoice record; times in milliseconds. */
  datatype AppInvoice = AppInvoice(
    id: string,
    customerId: string,
    customerEmail: Option<string>,
    customerName: Option<string>,
    invoiceNumber: string,
    amount: int,
    currency: string,
    status: Option<string>,
    dueDate: Option<int>,
    createdAt: int,
    paidAt: Option<int>,
    items: seq<AppItem>,
    stripeInvoiceId: string,
    paymentIntentId: Option<string>,
    metadata: map<string, string>)

  /** A truthy optional seconds value in milliseconds, or nothing. */
  function Millis(seconds: Option<int>): (r: Option<int>)
    ensures r.Some? <==> seconds.Some? && seconds.value != 0
    ensures r.Some? ==> r.value == seconds.value * 1000
  {
    if seconds.Some? && seconds.value != 0 then Some(seconds.value * 1000) else None
  }

  /** One line: `price?.unit_amount || 0` as unit price. */
  function AppItemOf(line: InvoiceLine): (r: AppItem)
    ensures r.unitPrice == (if line.unitAmount.Some? then line.unitAmount.value else 0)
    ensures r.id == line.id && r.amount == line.amount && r.productId == line.product
  {
    AppItem(line.id, line.description, line.quantity, line.unitAmount.GetOr(0), line.amount, line.product)
  }

  /** `stripeToInvoice(stripeInvoice)`, with the clock for a generated number. */
  function StripeToInvoice(s: Stripe.Invoice, year: int, month: int, nowMs: int): (r: AppInvoice)
    ensures r.id == s.id && r.stripeInvoiceId == s.id && r.customerId == s.customer
    ensures r.amount == s.amountDue && r.status == s.status && r.currency == s.currency
    ensures r.invoiceNumber == (if s.number.Some? && Truthy(s.number.value) then s.number.value
                                else GenerateInvoiceNumber(year, month, nowMs))
    ensures r.createdAt == s.created * 1000
    ensures r.dueDate == Millis(s.dueDate) && r.paidAt == Millis(s.paidAt)
    ensures |r.items| == |s.lines| && forall k :: 0 <= k < |s.lines| ==> r.items[k] == AppItemOf(s.lines[k])
  {
    AppInvoice(
      s.id, s.customer, s.customerEmail, s.customerName,
      if s.number.Some? && Truthy(s.number.value) then s.number.value else GenerateInvoiceNumber(year, month, nowMs),
      s.amountDue, s.currency, s.status, Millis(s.dueDate), s.created * 1000, Millis(s.paidAt),
      seq(|s.lines|, k requires 0 <= k < |s.lines| => AppItemOf(s.lines[k])),
      s.id, s.paymentIntent, s.metadata)
  }
}
