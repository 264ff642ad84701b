/** The library's fixed configuration: the accepted currency codes, the window of
    plausible invoice dates, the tolerance for comparing amounts, and the
    patterns the extractor recognises labels, dates and amounts with. */
module Config {
  import opened Models
  import opened Pattern

  /** `ALLOWED_CURRENCIES`. */
  const AllowedCurrencies: set<string> := {"INR", "EUR", "USD", "GBP"}

  /** `MIN_VALID_DATE` and `MAX_VALID_DATE`, both inclusive. */
  const MinValidDate: Date := Date(2000, 1, 1)
  const MaxValidDate: Date := Date(2100, 1, 1)

  /** `EPSILON`: two amounts further apart than this do not agree. */
  const Epsilon: real := 0.01

  /** The window is made of two real dates, the first before the second. */
  lemma DateWindow()
    ensures ValidDate(MinValidDate) && ValidDate(MaxValidDate)
    ensures Before(MinValidDate, MaxValidDate)
  {
  }

  /** Every accepted code is three capital letters, and there are four of them. */
  lemma CurrencyCodes()
    ensures |AllowedCurrencies| == 4
    ensures forall c :: c in AllowedCurrencies ==> |c| == 3 && forall i :: 0 <= i < 3 ==> 'A' <= c[i] <= 'Z'
  {
    assert AllowedCurrencies == {"INR"} + {"EUR"} + {"USD"} + {"GBP"};
  }

  // Pieces the patterns share.

  /** `\d` */
  const D: Pat := Char(Digit)
  /** `\s*` */
  const Ws: Pat := Star(Char(Space))
  /** `[:\-]?` */
  const Colon: Pat := Opt(Char(OneOf(":-")))
  /** `(.+?)(?=\n|$)`: the rest of the line, at least one character. */
  const LineValue: Pat := Seq(Group(Seq(Char(NotNewline), LazyStar(Char(NotNewline)))), LineEndAhead)

  /** A label, then `\s*[:\-]?\s*`, then the captured value. */
  function Label(name: Pat, value: Pat): (r: Pat)
    ensures GroupCount(r) == GroupCount(name) + GroupCount(value)
  {
    assert GroupCount(Ws) == 0 && GroupCount(Colon) == 0;
    var rest := Seq(Colon, Seq(Ws, value));
    assert GroupCount(rest) == GroupCount(value);
    Seq(name, Seq(Ws, rest))
  }

  /** Two words with optional whitespace between them: `A\s*B`. */
  function Words(a: string, b: string): (r: Pat)
    ensures GroupCount(r) == 0
  {
    assert GroupCount(Ws) == 0 && GroupCount(Seq(Ws, Lit(b))) == 0;
    Seq(Lit(a), Seq(Ws, Lit(b)))
  }

  /** `AMOUNT_PATTERN`: `[-+]?\d{1,3}(?:,\d{3})*(?:\.\d+)?`. */
  const AmountPat: Pat :=
    Seq(Opt(Char(OneOf("-+"))), Seq(Between(D, 1, 3), Seq(Star(Seq(Lit(","), Times(D, 3))), Opt(Seq(Lit("."), Plus(D))))))

  lemma AmountPatGroups()
    ensures GroupCount(AmountPat) == 0
  {
    assert GroupCount(Between(D, 1, 3)) == 0;
  }

  /** A label followed by a captured amount, ignoring case. */
  function AmountRule(name: Pat): (r: Regex)
    ensures GroupCount(r.pat) == GroupCount(name) + 1
  {
    AmountPatGroups();
    Regex(Label(name, Group(AmountPat)), true)
  }

  /** A label followed by the rest of the line, captured, ignoring case. */
  function LineRule(name: Pat): (r: Regex)
    ensures GroupCount(r.pat) == GroupCount(name) + 1
  {
    assert GroupCount(LineValue) == 1;
    Regex(Label(name, LineValue), true)
  }

  /** The keys of `LABEL_PATTERNS`. */
  datatype Field =
    | InvoiceNumber | InvoiceDate | DueDate | SellerName | SellerTaxId | BuyerName | BuyerTaxId
    | Currency | NetTotal | TaxAmount | GrossTotal

  /** `[A-Za-z0-9\-\/\.]` */
  const IdChar: Class := Union(Range('A', 'Z'), Union(Range('a', 'z'), Union(Range('0', '9'), OneOf("-/."))))
  /** `[A-Za-z0-9]` */
  const AlnumChar: Class := Union(Range('A', 'Z'), Union(Range('a', 'z'), Range('0', '9')))

  /** `\s*(?:Tax|GST|VAT|TIN)\s*(?:ID)?\s*[:\-]?\s*([A-Za-z0-9]+)` after a party name. */
  function TaxIdRule(party: Pat): (r: Regex)
    ensures GroupCount(r.pat) == GroupCount(party) + 1
  {
    var value := Label(Opt(Lit("ID")), Group(Plus(Char(AlnumChar))));
    assert GroupCount(Ws) == 0 && GroupCount(value) == 1;
    Regex(Seq(party, Seq(Ws, Seq(Alt(Lit("Tax"), Alt(Lit("GST"), Alt(Lit("VAT"), Lit("TIN")))), Seq(Ws, value)))), true)
  }

  /** `Invoice\s*(No\.?|Number|#|ID)\s*[:\-]?\s*([A-Za-z0-9\-\/\.]+)`: two groups,
      the spelling of the label and the number. */
  function InvoiceNumberRule(): (r: Regex)
    ensures GroupCount(r.pat) == 2
  {
    var spelling := Group(Alt(Seq(Lit("No"), Opt(Lit("."))), Alt(Lit("Number"), Alt(Lit("#"), Lit("ID")))));
    var number := Group(Plus(Char(IdChar)));
    assert GroupCount(Ws) == 0 && GroupCount(spelling) == 1 && GroupCount(number) == 1;
    Regex(Seq(Lit("Invoice"), Seq(Ws, Label(spelling, number))), true)
  }

  /** `LABEL_PATTERNS[key]`: the rules for a field, in the order they are tried, all
      compiled with `re.IGNORECASE`. */
  function LabelRules(f: Field): seq<Regex> {
    match f
    case InvoiceNumber => InvoiceNumberRules
    case InvoiceDate => InvoiceDateRules
    case DueDate => DueDateRules
    case SellerName => SellerNameRules
    case SellerTaxId => SellerTaxIdRules
    case BuyerName => BuyerNameRules
    case BuyerTaxId => BuyerTaxIdRules
    case Currency => CurrencyRules
    case NetTotal => NetTotalRules
    case TaxAmount => TaxAmountRules
    case GrossTotal => GrossTotalRules
  }

  const InvoiceNumberRules: seq<Regex> := [
    InvoiceNumberRule(),
    Regex(Seq(Lit("INV"), Seq(Star(Char(Union(OneOf(":-"), Space))), Group(Plus(Char(IdChar))))), true)]

  const InvoiceDateRules: seq<Regex> := [LineRule(Words("Invoice", "Date")), LineRule(Lit("Date"))]

  const DueDateRules: seq<Regex> := [LineRule(Words("Due", "Date")), LineRule(Words("Payment", "Due"))]

  const SellerNameRules: seq<Regex> := [
    LineRule(Alt(Lit("Seller"), Alt(Lit("Vendor"), Alt(Lit("From"), Words("Bill", "From"))))),
    LineRule(Seq(Lit("Company"), Seq(Ws, Opt(Lit("Name")))))]

  const SellerTaxIdRules: seq<Regex> := [TaxIdRule(Alt(Lit("Seller"), Lit("Vendor")))]

  const BuyerNameRules: seq<Regex> := [
    LineRule(Alt(Lit("Buyer"), Alt(Lit("Customer"), Alt(Words("Bill", "To"), Words("Ship", "To"))))),
    LineRule(Alt(Lit("To"), Words("Sold", "To")))]

  const BuyerTaxIdRules: seq<Regex> := [TaxIdRule(Alt(Lit("Buyer"), Lit("Customer")))]

  const CurrencyRules: seq<Regex> := [
    Regex(Label(Lit("Currency"), Group(Times(Char(Range('A', 'Z')), 3))), true),
    Regex(Seq(WordBoundary, Seq(Group(Alt(Lit("INR"), Alt(Lit("USD"), Alt(Lit("EUR"), Lit("GBP"))))), WordBoundary)), true)]

  const NetTotalRules: seq<Regex> := [
    AmountRule(Lit("Subtotal")), AmountRule(Words("Net", "Total")), AmountRule(Words("Taxable", "Amount"))]

  /** `(?:CGST|SGST|IGST|GST|Tax)` */
  const GstLabel: Pat := Alt(Lit("CGST"), Alt(Lit("SGST"), Alt(Lit("IGST"), Alt(Lit("GST"), Lit("Tax")))))

  /** `(?:VAT|Sales\s*Tax)` */
  const VatLabel: Pat := Alt(Lit("VAT"), Words("Sales", "Tax"))

  const TaxAmountRules: seq<Regex> := [AmountRule(GstLabel), AmountRule(VatLabel)]

  /** `Total\s*(?:Payable|Amount|Due)` */
  const TotalDueLabel: Pat := Seq(Lit("Total"), Seq(Ws, Alt(Lit("Payable"), Alt(Lit("Amount"), Lit("Due")))))

  lemma TotalDueLabelGroups()
    ensures GroupCount(TotalDueLabel) == 0
  {
    assert GroupCount(Ws) == 0;
  }

  const GrossTotalRules: seq<Regex> := [
    AmountRule(TotalDueLabel),
    AmountRule(Words("Grand", "Total")), AmountRule(Words("Final", "Total"))]

  /** `(Jan|Feb|...|Dec)` */
  const MonthNames: Pat :=
    Alt(Lit("Jan"), Alt(Lit("Feb"), Alt(Lit("Mar"), Alt(Lit("Apr"), Alt(Lit("May"), Alt(Lit("Jun"),
    Alt(Lit("Jul"), Alt(Lit("Aug"), Alt(Lit("Sep"), Alt(Lit("Oct"), Alt(Lit("Nov"), Lit("Dec"))))))))))))

  /** `DATE_PATTERNS`, in the order they are tried: day/month/year, ISO year-month-day,
      and day, month name, year (the only one compiled with `re.IGNORECASE`). */
  const DateRules: seq<Regex> := [DayFirstRule, IsoRule, MonthNameRule]

  /** `\b(a)sep(b)sep'(c)\b`: a date rule's shape, three captures between word boundaries. */
  function DateRule(a: Pat, sep: Pat, b: Pat, sep': Pat, c: Pat, ignoreCase: bool): (r: Regex)
    ensures GroupCount(a) + GroupCount(sep) + GroupCount(b) + GroupCount(sep') + GroupCount(c) == 0
            ==> GroupCount(r.pat) == 3
  {
    var tail := Seq(Group(c), WordBoundary);
    assert GroupCount(tail) == 1 + GroupCount(c);
    var mid := Seq(Group(b), Seq(sep', tail));
    assert GroupCount(Seq(sep', tail)) == GroupCount(sep') + GroupCount(tail);
    assert GroupCount(mid) == 1 + GroupCount(b) + GroupCount(sep') + GroupCount(tail);
    var front := Seq(Group(a), Seq(sep, mid));
    assert GroupCount(Seq(sep, mid)) == GroupCount(sep) + GroupCount(mid);
    assert GroupCount(front) == 1 + GroupCount(a) + GroupCount(sep) + GroupCount(mid);
    Regex(Seq(WordBoundary, front), ignoreCase)
  }

  /** `\b(\d{1,2})[/-](\d{1,2})[/-](\d{4})\b` */
  const DayFirstRule: Regex :=
    DateRule(Between(D, 1, 2), Char(OneOf("/-")), Between(D, 1, 2), Char(OneOf("/-")), Times(D, 4), false)

  /** `\b(\d{4})-(\d{1,2})-(\d{1,2})\b` */
  const IsoRule: Regex :=
    DateRule(Times(D, 4), Lit("-"), Between(D, 1, 2), Lit("-"), Between(D, 1, 2), false)

  /** `\b(\d{1,2})\s+(Jan|...|Dec)[a-z]*\s+(\d{4})\b`, ignoring case. */
  const MonthNameRule: Regex :=
    DateRule(Between(D, 1, 2), Plus(Char(Space)), MonthNames, Seq(Star(Char(Range('a', 'z'))), Plus(Char(Space))),
             Times(D, 4), true)

  /** The number of capture groups of every rule of a field. */
  predicate RulesCapture(rules: seq<Regex>, n: nat) {
    forall i :: 0 <= i < |rules| ==> GroupCount(rules[i].pat) == n
  }

  /** Every amount rule wraps the amount pattern in its only capture group. */
  lemma NetRulesGroups()
    ensures RulesCapture(NetTotalRules, 1)
  {
  }

  lemma TaxRulesGroups()
    ensures RulesCapture(TaxAmountRules, 1)
  {
  }

  lemma GrossRulesGroups()
    ensures RulesCapture(GrossTotalRules, 1)
  {
    assert GroupCount(Ws) == 0;
  }

  /** The rules for dates and names capture one group: the rest of the line. */
  lemma DateLabelGroups()
    ensures RulesCapture(InvoiceDateRules, 1) && RulesCapture(DueDateRules, 1)
  {
  }

  lemma NameLabelGroups()
    ensures RulesCapture(SellerNameRules, 1) && RulesCapture(BuyerNameRules, 1)
  {
    assert GroupCount(Ws) == 0;
  }

  lemma TaxIdLabelGroups()
    ensures RulesCapture(SellerTaxIdRules, 1) && RulesCapture(BuyerTaxIdRules, 1)
  {
  }

  lemma CurrencyRulesGroups()
    ensures RulesCapture(CurrencyRules, 1)
  {
    assert GroupCount(Times(Char(Range('A', 'Z')), 3)) == 0;
  }

  /** The first invoice-number rule captures the label's spelling and then the number;
      the second captures only the number. */
  lemma InvoiceNumberGroups()
    ensures GroupCount(InvoiceNumberRules[0].pat) == 2
    ensures GroupCount(InvoiceNumberRules[1].pat) == 1
  {
    assert GroupCount(Star(Char(Union(OneOf(":-"), Space)))) == 0;
  }

  /** Every date rule captures exactly three groups. */
  lemma DateRulesThreeGroups()
    ensures |DateRules| == 3
    ensures RulesCapture(DateRules, 3)
  {
    forall i | 0 <= i < |DateRules|
      ensures GroupCount(DateRules[i].pat) == 3
    {
      if i == 0 {
        DayFirstGroups();
      } else if i == 1 {
        IsoGroups();
      } else {
        MonthNameGroups();
      }
    }
  }

  lemma DayFirstGroups()
    ensures GroupCount(DayFirstRule.pat) == 3
  {
    assert GroupCount(D) == 0;
  }

  lemma IsoGroups()
    ensures GroupCount(IsoRule.pat) == 3
  {
    assert GroupCount(D) == 0;
  }

  lemma MonthNameGroups()
    ensures GroupCount(MonthNameRule.pat) == 3
  {
    assert GroupCount(D) == 0 && GroupCount(Plus(Char(Space))) == 0;
    assert GroupCount(Seq(Star(Char(Range('a', 'z'))), Plus(Char(Space)))) == 0;
  }
}
