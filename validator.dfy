/** The validation engine: per-invoice completeness, format and business-rule
    checks, a batch-wide duplicate-key pass, and the batch summary with its
    frequency count of error codes. */
module Validator {
  import opened Wrappers
  import opened Text
  import opened Models
  import opened Config

  /** The checks an invoice can fail, each reported by one error code. */
  datatype Check =
    | MissingInvoiceNumber
    | MissingSellerName
    | MissingBuyerName
    | DateOutOfRange
    | DueBeforeInvoice
    | InvalidCurrency
    | NetNegative
    | TaxNegative
    | GrossNegative
    | TotalsMismatch
    | LineItemsSumMismatch
    | TotalTooLarge
    | DuplicateKey

  function Code(c: Check): string {
    match c
    case MissingInvoiceNumber => "missing_field: invoice_number"
    case MissingSellerName => "missing_field: seller_name"
    case MissingBuyerName => "missing_field: buyer_name"
    case DateOutOfRange => "format: invoice_date_out_of_range"
    case DueBeforeInvoice => "business_rule_failed: due_date_before_invoice_date"
    case InvalidCurrency => "format: invalid_currency"
    case NetNegative => "business_rule_failed: net_total_negative"
    case TaxNegative => "business_rule_failed: tax_amount_negative"
    case GrossNegative => "business_rule_failed: gross_total_negative"
    case TotalsMismatch => "business_rule_failed: totals_mismatch"
    case LineItemsSumMismatch => "business_rule_failed: line_items_sum_mismatch"
    case TotalTooLarge => "anomaly: total_too_large"
    case DuplicateKey => "anomaly: duplicate_invoice_key"
  }

  /** No two checks share an error code, so a code names the check that failed. */
  lemma CodeInjective(a: Check, b: Check)
    ensures Code(a) == Code(b) ==> a == b
  {
    CodeShape(a);
    CodeShape(b);
  }

  /** Length and first letter of each code: together they tell the codes apart.
      The lengths are checked against the literals in `Code`, so the two cannot
      drift apart unnoticed. */
  lemma CodeShape(c: Check)
    ensures |Code(c)| == CodeLength(c)
    ensures c == InvalidCurrency ==> Code(c)[0] == 'f'
    ensures c == TotalTooLarge ==> Code(c)[0] == 'a'
  {
  }

  function CodeLength(c: Check): nat {
    match c
    case MissingInvoiceNumber => 29
    case MissingSellerName => 26
    case MissingBuyerName => 25
    case DateOutOfRange => 33
    case DueBeforeInvoice => 50
    case InvalidCurrency => 24
    case NetNegative => 40
    case TaxNegative => 41
    case GrossNegative => 42
    case TotalsMismatch => 37
    case LineItemsSumMismatch => 45
    case TotalTooLarge => 24
    case DuplicateKey => 30
  }

  /** The completeness and format checks, in the order they are applied. */
  const FormatChecks: seq<Check> :=
    [MissingInvoiceNumber, MissingSellerName, MissingBuyerName, DateOutOfRange, DueBeforeInvoice, InvalidCurrency]

  /** The business rules on the totals, in the order they are applied. */
  const BusinessChecks: seq<Check> :=
    [NetNegative, TaxNegative, GrossNegative, TotalsMismatch, LineItemsSumMismatch, TotalTooLarge]

  /** The business rule on gross totals: anything above this is an anomaly. */
  const TotalLimit: real := 1000000000.0

  function Abs(x: real): real {
    if x < 0.0 then -x else x
  }

  predicate Blank(s: string) {
    Strip(s) == []
  }

  predicate InWindow(d: Date) {
    AtMost(MinValidDate, d) && AtMost(d, MaxValidDate)
  }

  predicate Negative(v: Option<real>) {
    v.Some? && v.value < 0.0
  }

  /** `sum(li.line_total or 0.0 for li in items)`: a missing line total counts as zero. */
  function LineItemsSum(items: seq<LineItem>): real
    decreases |items|
  {
    if items == [] then 0.0
    else LineItemsSum(items[..|items| - 1]) + items[|items| - 1].lineTotal.GetOr(0.0)
  }

  /** `[c]` when the condition holds, and nothing otherwise. */
  function Flag(failed: bool, c: Check): (r: seq<Check>)
    ensures c in r <==> failed
    ensures |r| <= 1 && forall d :: d in r ==> d == c
  {
    if failed then [c] else []
  }

  /** The failed checks of `_check_completeness_and_format`, in the order of the checks. */
  function FormatErrors(inv: Invoice): seq<Check> {
    Flag(Blank(inv.invoiceNumber), MissingInvoiceNumber)
    + Flag(Blank(inv.sellerName), MissingSellerName)
    + Flag(Blank(inv.buyerName), MissingBuyerName)
    + Flag(!InWindow(inv.invoiceDate), DateOutOfRange)
    + Flag(inv.dueDate.Some? && Before(inv.dueDate.value, inv.invoiceDate), DueBeforeInvoice)
    + Flag(Upper(inv.currency) !in AllowedCurrencies, InvalidCurrency)
  }

  /** `abs((net + tax) - gross) > EPSILON` when all three totals are present. */
  predicate TotalsDisagree(inv: Invoice) {
    inv.netTotal.Some? && inv.taxAmount.Some? && inv.grossTotal.Some?
    && Abs(inv.netTotal.value + inv.taxAmount.value - inv.grossTotal.value) > Epsilon
  }

  /** `abs(li_sum - net) > EPSILON` when there are line items and a net total. */
  predicate LineItemsDisagree(inv: Invoice) {
    inv.lineItems != [] && inv.netTotal.Some? && Abs(LineItemsSum(inv.lineItems) - inv.netTotal.value) > Epsilon
  }

  /** The failed checks of `_check_business_rules`, in the order of the rules. */
  function BusinessErrors(inv: Invoice): seq<Check> {
    Flag(Negative(inv.netTotal), NetNegative)
    + Flag(Negative(inv.taxAmount), TaxNegative)
    + Flag(Negative(inv.grossTotal), GrossNegative)
    + Flag(TotalsDisagree(inv), TotalsMismatch)
    + Flag(LineItemsDisagree(inv), LineItemsSumMismatch)
    + Flag(inv.grossTotal.Some? && inv.grossTotal.value > TotalLimit, TotalTooLarge)
  }

  /** A check is among six flagged ones exactly when one of the flags that hold is for it. */
  lemma InFlags(c: Check, b1: bool, c1: Check, b2: bool, c2: Check, b3: bool, c3: Check,
                b4: bool, c4: Check, b5: bool, c5: Check, b6: bool, c6: Check)
    ensures c in Flag(b1, c1) + Flag(b2, c2) + Flag(b3, c3) + Flag(b4, c4) + Flag(b5, c5) + Flag(b6, c6)
            <==> (b1 && c == c1) || (b2 && c == c2) || (b3 && c == c3) || (b4 && c == c4)
                 || (b5 && c == c5) || (b6 && c == c6)
  {
    InConcatenation(c, Flag(b1, c1), Flag(b2, c2), Flag(b3, c3), Flag(b4, c4), Flag(b5, c5), Flag(b6, c6));
    InFlag(c, b1, c1);
    InFlag(c, b2, c2);
    InFlag(c, b3, c3);
    InFlag(c, b4, c4);
    InFlag(c, b5, c5);
    InFlag(c, b6, c6);
  }

  lemma InFlag(c: Check, b: bool, d: Check)
    ensures c in Flag(b, d) <==> b && c == d
  {
  }

  /** Membership in six concatenated sequences is membership in one of them. */
  lemma InConcatenation<T>(x: T, a: seq<T>, b: seq<T>, c: seq<T>, d: seq<T>, e: seq<T>, f: seq<T>)
    ensures x in a + b + c + d + e + f <==> x in a || x in b || x in c || x in d || x in e || x in f
  {
  }

  /** Only format checks are reported by the format pass, and only business rules
      by the business pass, each at most once. */
  lemma ErrorsKinds(inv: Invoice)
    ensures forall c :: c in FormatErrors(inv) ==> c in FormatChecks
    ensures forall c :: c in BusinessErrors(inv) ==> c in BusinessChecks
    ensures |FormatErrors(inv)| <= |FormatChecks| && |BusinessErrors(inv)| <= |BusinessChecks|
  {
  }

  /** `_check_completeness_and_format`: the failing format checks, in order. */
  method CheckCompletenessAndFormat(inv: Invoice) returns (errors: seq<Check>)
    ensures errors == FormatErrors(inv)
  {
    errors := [];
    if Blank(inv.invoiceNumber) {
      errors := errors + [MissingInvoiceNumber];
    }
    ghost var done := Flag(Blank(inv.invoiceNumber), MissingInvoiceNumber);
    assert errors == done;
    if Blank(inv.sellerName) {
      errors := errors + [MissingSellerName];
    } else {
      Unchanged(errors);
    }
    done := done + Flag(Blank(inv.sellerName), MissingSellerName);
    assert errors == done;
    if Blank(inv.buyerName) {
      errors := errors + [MissingBuyerName];
    } else {
      Unchanged(errors);
    }
    done := done + Flag(Blank(inv.buyerName), MissingBuyerName);
    assert errors == done;
    if !(AtMost(MinValidDate, inv.invoiceDate) && AtMost(inv.invoiceDate, MaxValidDate)) {
      errors := errors + [DateOutOfRange];
    } else {
      Unchanged(errors);
    }
    done := done + Flag(!InWindow(inv.invoiceDate), DateOutOfRange);
    assert errors == done;
    if inv.dueDate.Some? && Before(inv.dueDate.value, inv.invoiceDate) {
      errors := errors + [DueBeforeInvoice];
    } else {
      Unchanged(errors);
    }
    done := done + Flag(inv.dueDate.Some? && Before(inv.dueDate.value, inv.invoiceDate), DueBeforeInvoice);
    assert errors == done;
    if Upper(inv.currency) !in AllowedCurrencies {
      errors := errors + [InvalidCurrency];
    } else {
      Unchanged(errors);
    }
    done := done + Flag(Upper(inv.currency) !in AllowedCurrencies, InvalidCurrency);
    assert errors == done;
  }

  lemma Unchanged<T>(errors: seq<T>)
    ensures errors + [] == errors
  {
  }

  /** `_check_business_rules`: the failing business rules, in order. */
  method CheckBusinessRules(inv: Invoice) returns (errors: seq<Check>)
    ensures errors == BusinessErrors(inv)
  {
    errors := [];
    var net, tax, gross := inv.netTotal, inv.taxAmount, inv.grossTotal;
    var fields := [(NetNegative, net), (TaxNegative, tax), (GrossNegative, gross)];
    var i := 0;
    while i < 3
      invariant 0 <= i <= 3
      invariant errors == (if i == 0 then [] else if i == 1 then Flag(Negative(inv.netTotal), NetNegative)
                           else if i == 2 then Flag(Negative(inv.netTotal), NetNegative) + Flag(Negative(inv.taxAmount), TaxNegative)
                           else Flag(Negative(inv.netTotal), NetNegative) + Flag(Negative(inv.taxAmount), TaxNegative) + Flag(Negative(inv.grossTotal), GrossNegative))
    {
      var (check, value) := fields[i];
      if value.Some? && value.value < 0.0 {
        errors := errors + [check];
      } else {
        Unchanged(errors);
      }
      i := i + 1;
    }
    ghost var done := Flag(Negative(inv.netTotal), NetNegative) + Flag(Negative(inv.taxAmount), TaxNegative) + Flag(Negative(inv.grossTotal), GrossNegative);
    if net.Some? && tax.Some? && gross.Some? && Abs(net.value + tax.value - gross.value) > Epsilon {
      errors := errors + [TotalsMismatch];
    } else {
      Unchanged(errors);
    }
    done := done + Flag(TotalsDisagree(inv), TotalsMismatch);
    assert errors == done;
    var sum := 0.0;
    if inv.lineItems != [] && net.Some? {
      sum := SumLineTotals(inv.lineItems);
    }
    if inv.lineItems != [] && net.Some? && Abs(sum - net.value) > Epsilon {
      errors := errors + [LineItemsSumMismatch];
    } else {
      Unchanged(errors);
    }
    done := done + Flag(LineItemsDisagree(inv), LineItemsSumMismatch);
    assert errors == done;
    if gross.Some? && gross.value > 1000000000.0 {
      errors := errors + [TotalTooLarge];
    } else {
      Unchanged(errors);
    }
    done := done + Flag(inv.grossTotal.Some? && inv.grossTotal.value > TotalLimit, TotalTooLarge);
    assert errors == done;
  }

  /** The running sum of the line totals, a missing one counting as zero. */
  method SumLineTotals(items: seq<LineItem>) returns (sum: real)
    ensures sum == LineItemsSum(items)
  {
    sum := 0.0;
    var i := 0;
    while i < |items|
      invariant 0 <= i <= |items|
      invariant sum == LineItemsSum(items[..i])
    {
      assert items[..i + 1][..i] == items[..i];
      sum := sum + items[i].lineTotal.GetOr(0.0);
      i := i + 1;
    }
    assert items[..|items|] == items;
  }

  /** What the required-field checks report, field by field. */
  lemma RequiredFieldsSpec(inv: Invoice)
    ensures MissingInvoiceNumber in FormatErrors(inv) <==> Strip(inv.invoiceNumber) == []
    ensures MissingSellerName in FormatErrors(inv) <==> Strip(inv.sellerName) == []
    ensures MissingBuyerName in FormatErrors(inv) <==> Strip(inv.buyerName) == []
  {
    InFlags(MissingInvoiceNumber, Blank(inv.invoiceNumber), MissingInvoiceNumber, Blank(inv.sellerName), MissingSellerName,
              Blank(inv.buyerName), MissingBuyerName, !InWindow(inv.invoiceDate), DateOutOfRange,
              inv.dueDate.Some? && Before(inv.dueDate.value, inv.invoiceDate), DueBeforeInvoice,
              Upper(inv.currency) !in AllowedCurrencies, InvalidCurrency);
    InFlags(MissingSellerName, Blank(inv.invoiceNumber), MissingInvoiceNumber, Blank(inv.sellerName), MissingSellerName,
              Blank(inv.buyerName), MissingBuyerName, !InWindow(inv.invoiceDate), DateOutOfRange,
              inv.dueDate.Some? && Before(inv.dueDate.value, inv.invoiceDate), DueBeforeInvoice,
              Upper(inv.currency) !in AllowedCurrencies, InvalidCurrency);
    InFlags(MissingBuyerName, Blank(inv.invoiceNumber), MissingInvoiceNumber, Blank(inv.sellerName), MissingSellerName,
              Blank(inv.buyerName), MissingBuyerName, !InWindow(inv.invoiceDate), DateOutOfRange,
              inv.dueDate.Some? && Before(inv.dueDate.value, inv.invoiceDate), DueBeforeInvoice,
              Upper(inv.currency) !in AllowedCurrencies, InvalidCurrency);
  }

  /** What the date and currency checks report, check by check. */
  lemma FormatErrorsSpec(inv: Invoice)
    ensures DateOutOfRange in FormatErrors(inv)
            <==> Before(inv.invoiceDate, MinValidDate) || Before(MaxValidDate, inv.invoiceDate)
    ensures DueBeforeInvoice in FormatErrors(inv)
            <==> inv.dueDate.Some? && Before(inv.dueDate.value, inv.invoiceDate)
    ensures InvalidCurrency in FormatErrors(inv) <==> Upper(inv.currency) !in AllowedCurrencies
  {
    InFlags(DateOutOfRange, Blank(inv.invoiceNumber), MissingInvoiceNumber, Blank(inv.sellerName), MissingSellerName,
              Blank(inv.buyerName), MissingBuyerName, !InWindow(inv.invoiceDate), DateOutOfRange,
              inv.dueDate.Some? && Before(inv.dueDate.value, inv.invoiceDate), DueBeforeInvoice,
              Upper(inv.currency) !in AllowedCurrencies, InvalidCurrency);
    InFlags(DueBeforeInvoice, Blank(inv.invoiceNumber), MissingInvoiceNumber, Blank(inv.sellerName), MissingSellerName,
              Blank(inv.buyerName), MissingBuyerName, !InWindow(inv.invoiceDate), DateOutOfRange,
              inv.dueDate.Some? && Before(inv.dueDate.value, inv.invoiceDate), DueBeforeInvoice,
              Upper(inv.currency) !in AllowedCurrencies, InvalidCurrency);
    InFlags(InvalidCurrency, Blank(inv.invoiceNumber), MissingInvoiceNumber, Blank(inv.sellerName), MissingSellerName,
              Blank(inv.buyerName), MissingBuyerName, !InWindow(inv.invoiceDate), DateOutOfRange,
              inv.dueDate.Some? && Before(inv.dueDate.value, inv.invoiceDate), DueBeforeInvoice,
              Upper(inv.currency) !in AllowedCurrencies, InvalidCurrency);
    BeforeOrder(inv.invoiceDate, MinValidDate, MaxValidDate);
    BeforeOrder(MaxValidDate, inv.invoiceDate, MinValidDate);
  }

  /** What the sign rules report, total by total. */
  lemma NegativeTotalsSpec(inv: Invoice)
    ensures NetNegative in BusinessErrors(inv) <==> inv.netTotal.Some? && inv.netTotal.value < 0.0
    ensures TaxNegative in BusinessErrors(inv) <==> inv.taxAmount.Some? && inv.taxAmount.value < 0.0
    ensures GrossNegative in BusinessErrors(inv) <==> inv.grossTotal.Some? && inv.grossTotal.value < 0.0
  {
    InFlags(NetNegative, Negative(inv.netTotal), NetNegative, Negative(inv.taxAmount), TaxNegative,
              Negative(inv.grossTotal), GrossNegative, TotalsDisagree(inv), TotalsMismatch,
              LineItemsDisagree(inv), LineItemsSumMismatch,
              inv.grossTotal.Some? && inv.grossTotal.value > TotalLimit, TotalTooLarge);
    InFlags(TaxNegative, Negative(inv.netTotal), NetNegative, Negative(inv.taxAmount), TaxNegative,
              Negative(inv.grossTotal), GrossNegative, TotalsDisagree(inv), TotalsMismatch,
              LineItemsDisagree(inv), LineItemsSumMismatch,
              inv.grossTotal.Some? && inv.grossTotal.value > TotalLimit, TotalTooLarge);
    InFlags(GrossNegative, Negative(inv.netTotal), NetNegative, Negative(inv.taxAmount), TaxNegative,
              Negative(inv.grossTotal), GrossNegative, TotalsDisagree(inv), TotalsMismatch,
              LineItemsDisagree(inv), LineItemsSumMismatch,
              inv.grossTotal.Some? && inv.grossTotal.value > TotalLimit, TotalTooLarge);
  }

  /** What the consistency and limit rules report, rule by rule. */
  lemma BusinessErrorsSpec(inv: Invoice)
    ensures TotalsMismatch in BusinessErrors(inv)
            <==> inv.netTotal.Some? && inv.taxAmount.Some? && inv.grossTotal.Some?
                 && (inv.netTotal.value + inv.taxAmount.value - inv.grossTotal.value > Epsilon
                     || inv.grossTotal.value - inv.netTotal.value - inv.taxAmount.value > Epsilon)
    ensures LineItemsSumMismatch in BusinessErrors(inv)
            <==> |inv.lineItems| > 0 && inv.netTotal.Some?
                 && Abs(LineItemsSum(inv.lineItems) - inv.netTotal.value) > Epsilon
    ensures TotalTooLarge in BusinessErrors(inv) <==> inv.grossTotal.Some? && inv.grossTotal.value > 1000000000.0
  {
    InFlags(TotalsMismatch, Negative(inv.netTotal), NetNegative, Negative(inv.taxAmount), TaxNegative,
              Negative(inv.grossTotal), GrossNegative, TotalsDisagree(inv), TotalsMismatch,
              LineItemsDisagree(inv), LineItemsSumMismatch,
              inv.grossTotal.Some? && inv.grossTotal.value > TotalLimit, TotalTooLarge);
    InFlags(LineItemsSumMismatch, Negative(inv.netTotal), NetNegative, Negative(inv.taxAmount), TaxNegative,
              Negative(inv.grossTotal), GrossNegative, TotalsDisagree(inv), TotalsMismatch,
              LineItemsDisagree(inv), LineItemsSumMismatch,
              inv.grossTotal.Some? && inv.grossTotal.value > TotalLimit, TotalTooLarge);
    InFlags(TotalTooLarge, Negative(inv.netTotal), NetNegative, Negative(inv.taxAmount), TaxNegative,
              Negative(inv.grossTotal), GrossNegative, TotalsDisagree(inv), TotalsMismatch,
              LineItemsDisagree(inv), LineItemsSumMismatch,
              inv.grossTotal.Some? && inv.grossTotal.value > TotalLimit, TotalTooLarge);
  }

  /** Totals that differ by exactly the tolerance still agree. */
  lemma ToleranceInclusive(inv: Invoice)
    requires inv.netTotal.Some? && inv.taxAmount.Some? && inv.grossTotal.Some?
    requires inv.netTotal.value + inv.taxAmount.value - inv.grossTotal.value == Epsilon
             || inv.grossTotal.value - inv.netTotal.value - inv.taxAmount.value == Epsilon
    ensures TotalsMismatch !in BusinessErrors(inv)
  {
  }

  /** Net 100 and tax 18 agree with a gross of 118.005, which is within the tolerance,
      and disagree with a gross of 120. */
  lemma ToleranceExamples(inv: Invoice)
    requires inv.netTotal == Some(100.0) && inv.taxAmount == Some(18.0)
    ensures inv.grossTotal == Some(118.005) ==> TotalsMismatch !in BusinessErrors(inv)
    ensures inv.grossTotal == Some(120.0) ==> TotalsMismatch in BusinessErrors(inv)
  {
    BusinessErrorsSpec(inv);
  }

  /** An invoice whose fields are complete, whose dates and currency are in range
      and whose totals add up passes every per-invoice check. */
  lemma ConsistentInvoicePasses(inv: Invoice)
    requires !Blank(inv.invoiceNumber) && !Blank(inv.sellerName) && !Blank(inv.buyerName)
    requires InWindow(inv.invoiceDate) && inv.currency in AllowedCurrencies
    requires inv.dueDate.None? || AtMost(inv.invoiceDate, inv.dueDate.value)
    requires inv.netTotal.Some? && inv.taxAmount.Some? && inv.grossTotal.Some?
    requires 0.0 <= inv.netTotal.value && 0.0 <= inv.taxAmount.value
    requires inv.netTotal.value + inv.taxAmount.value == inv.grossTotal.value <= TotalLimit
    requires inv.lineItems == [] || LineItemsSum(inv.lineItems) == inv.netTotal.value
    ensures FormatErrors(inv) == [] && BusinessErrors(inv) == []
  {
    UpperOfCode(inv.currency);
    if inv.dueDate.Some? {
      BeforeOrder(inv.dueDate.value, inv.invoiceDate, inv.dueDate.value);
    }
  }

  /** An accepted code is already upper case. */
  lemma UpperOfCode(c: string)
    requires c in AllowedCurrencies
    ensures Upper(c) == c
  {
    CurrencyCodes();
    assert forall i :: 0 <= i < |c| ==> Upper(c)[i] == c[i];
  }

  /** The codes of a list of checks, one by one. */
  function Codes(cs: seq<Check>): (r: seq<string>)
    ensures |r| == |cs| && forall i :: 0 <= i < |cs| ==> r[i] == Code(cs[i])
  {
    seq(|cs|, i requires 0 <= i < |cs| => Code(cs[i]))
  }

  /** A code is listed exactly when its check is. */
  lemma CodesMember(cs: seq<Check>, c: Check)
    ensures Code(c) in Codes(cs) <==> c in cs
  {
    if Code(c) in Codes(cs) {
      var i :| 0 <= i < |cs| && Codes(cs)[i] == Code(c);
      CodeInjective(c, cs[i]);
    }
    if c in cs {
      var i :| 0 <= i < |cs| && cs[i] == c;
      assert Codes(cs)[i] == Code(c);
    }
  }

  /** The duplicate-detection key: stripped number, stripped seller, invoice date. */
  datatype Key = Key(number: string, seller: string, date: Date)

  function KeyOf(inv: Invoice): Key {
    Key(Strip(inv.invoiceNumber), Strip(inv.sellerName), inv.invoiceDate)
  }

  function Keys(invoices: seq<Invoice>): (r: seq<Key>)
    ensures |r| == |invoices| && forall i :: 0 <= i < |invoices| ==> r[i] == KeyOf(invoices[i])
  {
    seq(|invoices|, i requires 0 <= i < |invoices| => KeyOf(invoices[i]))
  }

  /** The keys among the first `n` whose count in the whole of `ks` exceeds one,
      each once, in order of first occurrence. */
  function RepeatedKeys(ks: seq<Key>, n: nat): (r: seq<Key>)
    requires n <= |ks|
    ensures forall k :: k in r <==> k in ks[..n] && multiset(ks)[k] > 1
    ensures forall i, j :: 0 <= i < j < |r| ==> r[i] != r[j]
  {
    if n == 0 then []
    else
      var r := RepeatedKeys(ks, n - 1);
      assert ks[..n] == ks[..n - 1] + [ks[n - 1]];
      if ks[n - 1] !in ks[..n - 1] && multiset(ks)[ks[n - 1]] > 1 then r + [ks[n - 1]] else r
  }

  /** `_find_duplicates`: every key that occurs more than once in the batch. */
  function FindDuplicates(invoices: seq<Invoice>): (r: seq<Key>)
    ensures forall k :: k in r <==> multiset(Keys(invoices))[k] >= 2
    ensures forall i, j :: 0 <= i < j < |r| ==> r[i] != r[j]
  {
    var ks := Keys(invoices);
    assert ks[..|ks|] == ks;
    RepeatedKeys(ks, |ks|)
  }

  /** A key that occurs once is never reported. */
  lemma SingleKeyNotDuplicate(invoices: seq<Invoice>, i: nat)
    requires i < |invoices|
    requires forall j :: 0 <= j < |invoices| && j != i ==> KeyOf(invoices[j]) != KeyOf(invoices[i])
    ensures KeyOf(invoices[i]) !in FindDuplicates(invoices)
  {
    OccursOnce(Keys(invoices), i);
  }

  /** Two invoices of the batch with the same key are both reported. */
  lemma SharedKeyDuplicate(invoices: seq<Invoice>, i: nat, j: nat)
    requires i < j < |invoices| && KeyOf(invoices[i]) == KeyOf(invoices[j])
    ensures KeyOf(invoices[i]) in FindDuplicates(invoices) && KeyOf(invoices[j]) in FindDuplicates(invoices)
  {
    OccursTwice(Keys(invoices), i, j);
  }

  lemma OccursOnce<T>(xs: seq<T>, i: nat)
    requires i < |xs|
    requires forall j :: 0 <= j < |xs| && j != i ==> xs[j] != xs[i]
    ensures multiset(xs)[xs[i]] == 1
  {
    var before, after := xs[..i], xs[i + 1..];
    assert xs == before + [xs[i]] + after;
    assert xs[i] !in before by {
      forall j | 0 <= j < |before| ensures before[j] != xs[i] {
        assert before[j] == xs[j];
      }
    }
    assert xs[i] !in after by {
      forall j | 0 <= j < |after| ensures after[j] != xs[i] {
        assert after[j] == xs[i + 1 + j];
      }
    }
  }

  lemma OccursTwice<T>(xs: seq<T>, i: nat, j: nat)
    requires i < j < |xs| && xs[i] == xs[j]
    ensures multiset(xs)[xs[i]] >= 2
  {
    assert xs == xs[..i] + [xs[i]] + xs[i + 1..j] + [xs[j]] + xs[j + 1..];
  }

  /** All the failed checks of one invoice, in order: format, business rules, duplicate key. */
  function InvoiceErrors(inv: Invoice, duplicates: set<Key>): seq<Check> {
    FormatErrors(inv) + BusinessErrors(inv) + (if KeyOf(inv) in duplicates then [DuplicateKey] else [])
  }

  /** The result reported for one invoice; it is valid exactly when no check failed. */
  function ResultOf(inv: Invoice, duplicates: set<Key>): (r: ValidationResult)
    ensures r.invoiceId == inv.invoiceNumber
    ensures r.isValid <==> r.errors == []
    ensures |r.errors| == |InvoiceErrors(inv, duplicates)|
  {
    var errors := InvoiceErrors(inv, duplicates);
    ValidationResult(inv.invoiceNumber, |errors| == 0, Codes(errors))
  }

  /** A result lists a check's code exactly when the invoice failed that check. */
  lemma ResultErrors(inv: Invoice, duplicates: set<Key>, c: Check)
    ensures Code(c) in ResultOf(inv, duplicates).errors <==> c in InvoiceErrors(inv, duplicates)
  {
    CodesMember(InvoiceErrors(inv, duplicates), c);
  }

  /** The duplicate check is failed exactly by an invoice whose key is a duplicate. */
  lemma DuplicateInErrors(inv: Invoice, duplicates: set<Key>)
    ensures DuplicateKey in InvoiceErrors(inv, duplicates) <==> KeyOf(inv) in duplicates
  {
    ErrorsKinds(inv);
    InLast(DuplicateKey, FormatErrors(inv), BusinessErrors(inv), if KeyOf(inv) in duplicates then [DuplicateKey] else []);
  }

  lemma InLast<T>(x: T, a: seq<T>, b: seq<T>, c: seq<T>)
    requires x !in a && x !in b
    ensures x in a + b + c <==> x in c
  {
  }

  /** The result of each invoice of a batch, in order. */
  function Results(invoices: seq<Invoice>, duplicates: set<Key>): (r: seq<ValidationResult>)
    ensures |r| == |invoices|
    decreases |invoices|
  {
    if invoices == [] then []
    else Results(invoices[..|invoices| - 1], duplicates) + [ResultOf(invoices[|invoices| - 1], duplicates)]
  }

  lemma ResultsAppend(invoices: seq<Invoice>, duplicates: set<Key>, i: nat)
    requires i < |invoices|
    ensures Results(invoices[..i + 1], duplicates) == Results(invoices[..i], duplicates) + [ResultOf(invoices[i], duplicates)]
  {
    assert invoices[..i + 1][..i] == invoices[..i];
  }

  lemma {:induction false} ResultsIndex(invoices: seq<Invoice>, duplicates: set<Key>)
    ensures forall i :: 0 <= i < |invoices| ==> Results(invoices, duplicates)[i] == ResultOf(invoices[i], duplicates)
    decreases |invoices|
  {
    if invoices != [] {
      var n := |invoices| - 1;
      var init := invoices[..n];
      ResultsIndex(init, duplicates);
      var r := Results(invoices, duplicates);
      assert r == Results(init, duplicates) + [ResultOf(invoices[n], duplicates)];
      forall i | 0 <= i < |invoices|
        ensures r[i] == ResultOf(invoices[i], duplicates)
      {
        if i < n {
          assert init[i] == invoices[i];
        }
      }
    }
  }

  /** The errors of all results, one after another. */
  function AllErrors(results: seq<ValidationResult>): seq<string>
    decreases |results|
  {
    if results == [] then [] else AllErrors(results[..|results| - 1]) + results[|results| - 1].errors
  }

  function CountInvalid(results: seq<ValidationResult>): (n: nat)
    ensures n <= |results|
    decreases |results|
  {
    if results == [] then 0
    else CountInvalid(results[..|results| - 1]) + (if results[|results| - 1].isValid then 0 else 1)
  }

  /** No result is counted invalid exactly when every result is valid, and all are
      exactly when none is. */
  lemma {:induction false} CountInvalidExtremes(results: seq<ValidationResult>)
    ensures CountInvalid(results) == 0 <==> forall i :: 0 <= i < |results| ==> results[i].isValid
    ensures CountInvalid(results) == |results| <==> forall i :: 0 <= i < |results| ==> !results[i].isValid
    decreases |results|
  {
    if results != [] {
      var init := results[..|results| - 1];
      CountInvalidExtremes(init);
      assert forall i :: 0 <= i < |init| ==> init[i] == results[i];
    }
  }

  /** `Counter(xs)`: each code that occurs, with how often it occurs. */
  function Tally(xs: seq<string>): map<string, int>
    decreases |xs|
  {
    if xs == [] then map[]
    else
      var m := Tally(xs[..|xs| - 1]);
      var e := xs[|xs| - 1];
      m[e := (if e in m then m[e] else 0) + 1]
  }

  /** The tally holds exactly the codes that occur, each with its number of occurrences. */
  lemma {:induction false} TallyCounts(xs: seq<string>)
    ensures forall e :: e in Tally(xs) <==> e in xs
    ensures forall e :: e in Tally(xs) ==> Tally(xs)[e] == multiset(xs)[e]
    decreases |xs|
  {
    if xs != [] {
      var init := xs[..|xs| - 1];
      assert xs == init + [xs[|xs| - 1]];
      TallyCounts(init);
    }
  }

  /** The sum of the values of a map. */
  ghost function ValuesSum(m: map<string, int>): int
    decreases |m|
  {
    if m == map[] then 0
    else
      var k :| k in m;
      m[k] + ValuesSum(m - {k})
  }

  lemma {:induction false} ValuesSumRemove(m: map<string, int>, k: string)
    requires k in m
    ensures ValuesSum(m) == m[k] + ValuesSum(m - {k})
    decreases |m|
  {
    var j :| j in m && ValuesSum(m) == m[j] + ValuesSum(m - {j});
    if j != k {
      assert |m - {j}| == |m| - 1;
      ValuesSumRemove(m - {j}, k);
      ValuesSumRemove(m - {k}, j);
      assert (m - {j}) - {k} == (m - {k}) - {j};
    }
  }

  /** The counts of a tally add up to the number of codes tallied. */
  lemma {:induction false} TallySum(xs: seq<string>)
    ensures ValuesSum(Tally(xs)) == |xs|
    decreases |xs|
  {
    if xs != [] {
      var init := xs[..|xs| - 1];
      var e := xs[|xs| - 1];
      var m := Tally(init);
      TallySum(init);
      var m' := m[e := (if e in m then m[e] else 0) + 1];
      ValuesSumRemove(m', e);
      assert m' - {e} == m - {e};
      if e in m {
        ValuesSumRemove(m, e);
      } else {
        assert m - {e} == m;
      }
    }
  }

  /** `validate_invoices`: one result per invoice, in order, and the summary. */
  method ValidateInvoices(invoices: seq<Invoice>) returns (results: seq<ValidationResult>, summary: BatchSummary)
    ensures |results| == |invoices|
    ensures forall i :: 0 <= i < |invoices| ==>
              results[i] == ResultOf(invoices[i], set k | k in FindDuplicates(invoices))
    ensures summary.totalInvoices == |invoices|
    ensures summary.invalidInvoices == CountInvalid(results)
    ensures summary.validInvoices == |invoices| - CountInvalid(results)
    ensures summary.errorCounts == Tally(AllErrors(results))
  {
    var duplicates := set k | k in FindDuplicates(invoices);
    var counter: map<string, int> := map[];
    results := [];
    var i := 0;
    while i < |invoices|
      invariant 0 <= i <= |invoices|
      invariant |results| == i
      invariant results == Results(invoices[..i], duplicates)
      invariant counter == Tally(AllErrors(results))
    {
      var inv := invoices[i];
      var format := CheckCompletenessAndFormat(inv);
      var business := CheckBusinessRules(inv);
      var failed := format + business;
      if KeyOf(inv) in duplicates {
        failed := failed + [DuplicateKey];
      } else {
        Unchanged(failed);
      }
      assert failed == InvoiceErrors(inv, duplicates);
      var errors := Codes(failed);
      var isValid := |errors| == 0;
      counter := CountErrors(counter, errors, AllErrors(results));
      var r := ValidationResult(inv.invoiceNumber, isValid, errors);
      assert r == ResultOf(inv, duplicates);
      ResultsAppend(invoices, duplicates, i);
      results := results + [r];
      i := i + 1;
    }
    assert invoices[..|invoices|] == invoices;
    ResultsIndex(invoices, duplicates);
    var invalid := CountInvalidResults(results);
    summary := BatchSummary(|invoices|, |invoices| - invalid, invalid, counter);
  }

  /** `error_counter[e] += 1` for each code in turn: the tally grows by those codes. */
  method CountErrors(counter: map<string, int>, errors: seq<string>, ghost seen: seq<string>)
    returns (r: map<string, int>)
    requires counter == Tally(seen)
    ensures r == Tally(seen + errors)
  {
    r := counter;
    var j := 0;
    assert seen + errors[..0] == seen;
    while j < |errors|
      invariant 0 <= j <= |errors|
      invariant r == Tally(seen + errors[..j])
    {
      var e := errors[j];
      TallyAppend(seen + errors[..j], e);
      ExtendSlice(seen, errors, j);
      r := r[e := (if e in r then r[e] else 0) + 1];
      j := j + 1;
    }
    assert errors[..|errors|] == errors;
  }

  lemma ExtendSlice<T>(xs: seq<T>, ys: seq<T>, j: nat)
    requires j < |ys|
    ensures xs + ys[..j + 1] == (xs + ys[..j]) + [ys[j]]
  {
  }

  /** Tallying one more code adds one to its count. */
  lemma TallyAppend(xs: seq<string>, e: string)
    ensures Tally(xs + [e]) == Tally(xs)[e := (if e in Tally(xs) then Tally(xs)[e] else 0) + 1]
  {
    assert (xs + [e])[..|xs|] == xs;
  }

  /** `sum(1 for r in results if not r.is_valid)`. */
  method CountInvalidResults(results: seq<ValidationResult>) returns (invalid: nat)
    ensures invalid == CountInvalid(results)
  {
    invalid := 0;
    var k := 0;
    while k < |results|
      invariant 0 <= k <= |results|
      invariant invalid == CountInvalid(results[..k])
    {
      assert results[..k + 1][..k] == results[..k];
      if !results[k].isValid {
        invalid := invalid + 1;
      }
      k := k + 1;
    }
    assert results[..|results|] == results;
  }

  /** The summary's counts agree with each other and with the results. */
  lemma SummaryCounts(invoices: seq<Invoice>, results: seq<ValidationResult>, summary: BatchSummary)
    requires summary.totalInvoices == |invoices| == |results|
    requires summary.invalidInvoices == CountInvalid(results)
    requires summary.validInvoices == |invoices| - CountInvalid(results)
    requires summary.errorCounts == Tally(AllErrors(results))
    ensures summary.validInvoices + summary.invalidInvoices == summary.totalInvoices
    ensures 0 <= summary.validInvoices && 0 <= summary.invalidInvoices
    ensures ValuesSum(summary.errorCounts) == |AllErrors(results)|
  {
    TallySum(AllErrors(results));
  }

  /** The duplicate code is reported for an invoice exactly when its key occurs at
      least twice in the batch. */
  lemma DuplicateFlag(invoices: seq<Invoice>, i: nat)
    requires i < |invoices|
    ensures Code(DuplicateKey) in ResultOf(invoices[i], set k | k in FindDuplicates(invoices)).errors
            <==> multiset(Keys(invoices))[KeyOf(invoices[i])] >= 2
  {
    var duplicates := set k | k in FindDuplicates(invoices);
    ResultErrors(invoices[i], duplicates, DuplicateKey);
    DuplicateInErrors(invoices[i], duplicates);
  }
}
