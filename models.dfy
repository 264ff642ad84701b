/** The records the library passes around: calendar dates, line items with
    their non-negativity validation, invoices with their defaults, and the
    per-invoice and per-batch validation reports. Amounts are exact reals. */
module Models {
  import opened Wrappers
  import opened Text
  import opened Numbers

  /** A `datetime.date`: proleptic Gregorian, years 1 to 9999. */
  datatype Date = Date(year: int, month: int, day: int)

  predicate IsLeap(y: int) {
    y % 4 == 0 && (y % 100 != 0 || y % 400 == 0)
  }

  function DaysInMonth(y: int, m: int): (r: int)
    requires 1 <= m <= 12
    ensures 28 <= r <= 31
  {
    if m == 2 then (if IsLeap(y) then 29 else 28)
    else if m == 4 || m == 6 || m == 9 || m == 11 then 30
    else 31
  }

  predicate ValidDate(d: Date) {
    1 <= d.year <= 9999 && 1 <= d.month <= 12 && 1 <= d.day <= DaysInMonth(d.year, d.month)
  }

  /** `datetime(y, m, d)`: the date, or the `ValueError` for a day that does not exist. */
  function MakeDate(y: int, m: int, d: int): (r: Option<Date>)
    ensures r.Some? <==> ValidDate(Date(y, m, d))
    ensures r.Some? ==> r.value == Date(y, m, d)
  {
    if ValidDate(Date(y, m, d)) then Some(Date(y, m, d)) else None
  }

  /** Python's `<` on dates: chronological order. */
  predicate Before(a: Date, b: Date) {
    a.year < b.year || (a.year == b.year && (a.month < b.month || (a.month == b.month && a.day < b.day)))
  }

  predicate AtMost(a: Date, b: Date) {
    Before(a, b) || a == b
  }

  /** `Before` is a strict total order, as Python's date comparison is. */
  lemma BeforeOrder(a: Date, b: Date, c: Date)
    ensures !Before(a, a)
    ensures Before(a, b) && Before(b, c) ==> Before(a, c)
    ensures Before(a, b) || a == b || Before(b, a)
    ensures !(Before(a, b) && Before(b, a))
  {
  }

  /** `date.isoformat()`: `YYYY-MM-DD`. */
  function IsoFormat(d: Date): (r: string)
    requires ValidDate(d)
    ensures |r| == 10 && r[4] == '-' && r[7] == '-'
    ensures AllDigits(r[..4]) && AllDigits(r[5..7]) && AllDigits(r[8..])
  {
    var r := Digits(d.year, 4) + "-" + Digits(d.month, 2) + "-" + Digits(d.day, 2);
    assert r[..4] == Digits(d.year, 4);
    assert r[5..7] == Digits(d.month, 2);
    assert r[8..] == Digits(d.day, 2);
    r
  }

  /** `date.fromisoformat(s)` for the `YYYY-MM-DD` form. */
  function FromIsoFormat(s: string): (r: Option<Date>)
    ensures r.Some? ==> ValidDate(r.value)
  {
    if |s| == 10 && s[4] == '-' && s[7] == '-' && AllDigits(s[..4]) && AllDigits(s[5..7]) && AllDigits(s[8..])
    then MakeDate(DigitsValue(s[..4]), DigitsValue(s[5..7]), DigitsValue(s[8..]))
    else None
  }

  /** Reading back the ISO form of a date gives the date. */
  lemma IsoRoundTrip(d: Date)
    requires ValidDate(d)
    ensures FromIsoFormat(IsoFormat(d)) == Some(d)
  {
    var s := IsoFormat(d);
    assert s[..4] == Digits(d.year, 4);
    assert s[5..7] == Digits(d.month, 2);
    assert s[8..] == Digits(d.day, 2);
  }

  /** A row of the line-item table. */
  datatype LineItem = LineItem(description: string, quantity: Option<real>, unitPrice: Option<real>,
                               lineTotal: Option<real>)

  /** The validator's message for a negative value in the named field, if it is one. */
  function NegativeError(field: string, v: Option<real>): (r: seq<string>)
    ensures r == [] <==> v.None? || v.value >= 0.0
    ensures r != [] ==> r == [field + " cannot be negative"]
  {
    if v.Some? && v.value < 0.0 then [field + " cannot be negative"] else []
  }

  /** `LineItem(...)`: the item, or the messages of the validation error, one per
      negative field, in field order. */
  function NewLineItem(description: string, quantity: Option<real>, unitPrice: Option<real>,
                       lineTotal: Option<real>): (r: Result<LineItem, seq<string>>)
    ensures r.Success? <==> NonNegative(quantity) && NonNegative(unitPrice) && NonNegative(lineTotal)
    ensures r.Success? ==> r.value == LineItem(description, quantity, unitPrice, lineTotal)
    ensures r.Failure? ==> r.error == NegativeError("quantity", quantity) + NegativeError("unit_price", unitPrice)
                                      + NegativeError("line_total", lineTotal)
                           && r.error != []
  {
    var errors := NegativeError("quantity", quantity) + NegativeError("unit_price", unitPrice)
                  + NegativeError("line_total", lineTotal);
    if errors == [] then Success(LineItem(description, quantity, unitPrice, lineTotal)) else Failure(errors)
  }

  predicate NonNegative(v: Option<real>) {
    v.None? || v.value >= 0.0
  }

  /** A line item with only a description: the numeric fields default to absent. */
  lemma LineItemDefaults(description: string)
    ensures NewLineItem(description, None, None, None) == Success(LineItem(description, None, None, None))
  {
  }

  datatype Invoice = Invoice(
    invoiceNumber: string,
    invoiceDate: Date,
    dueDate: Option<Date>,
    sellerName: string,
    sellerTaxId: Option<string>,
    buyerName: string,
    buyerTaxId: Option<string>,
    currency: string,
    netTotal: Option<real>,
    taxAmount: Option<real>,
    grossTotal: Option<real>,
    paymentTerms: Option<string>,
    externalReference: Option<string>,
    lineItems: seq<LineItem>)

  /** `Invoice(...)` given only its required fields: every optional field absent
      and no line items. */
  function NewInvoice(invoiceNumber: string, invoiceDate: Date, sellerName: string, buyerName: string,
                      currency: string): (r: Invoice)
    ensures r.invoiceNumber == invoiceNumber && r.invoiceDate == invoiceDate && r.sellerName == sellerName
            && r.buyerName == buyerName && r.currency == currency
    ensures r.dueDate.None? && r.sellerTaxId.None? && r.buyerTaxId.None?
    ensures r.netTotal.None? && r.taxAmount.None? && r.grossTotal.None?
    ensures r.paymentTerms.None? && r.externalReference.None? && r.lineItems == []
  {
    Invoice(invoiceNumber, invoiceDate, None, sellerName, None, buyerName, None, currency,
            None, None, None, None, None, [])
  }

  /** `InvoiceValidationResult`. */
  datatype ValidationResult = ValidationResult(invoiceId: string, isValid: bool, errors: seq<string>)

  /** `InvoiceValidationResult(invoice_id=..., is_valid=...)`: no errors by default. */
  function NewValidationResult(invoiceId: string, isValid: bool): (r: ValidationResult)
    ensures r.invoiceId == invoiceId && r.isValid == isValid && r.errors == []
  {
    ValidationResult(invoiceId, isValid, [])
  }

  /** `BatchValidationSummary`. */
  datatype BatchSummary = BatchSummary(totalInvoices: int, validInvoices: int, invalidInvoices: int,
                                       errorCounts: map<string, int>)
}
