/** What the validator can report about an invoice the extractor produced. */
module Pipeline {
  import opened Wrappers
  import opened Models
  import opened Config
  import opened Extractor
  import opened Validator

  /** A sound invoice without a tax amount never fails the name, currency, tax-sign or
      totals checks. */
  lemma SoundInvoiceChecks(path: string, inv: Invoice)
    requires InvoiceSound(path, inv) && inv.taxAmount.None?
    ensures MissingSellerName !in FormatErrors(inv) && MissingBuyerName !in FormatErrors(inv)
    ensures InvalidCurrency !in FormatErrors(inv)
    ensures TaxNegative !in BusinessErrors(inv) && TotalsMismatch !in BusinessErrors(inv)
  {
    RequiredFieldsSpec(inv);
    FormatErrorsSpec(inv);
    UpperOfCode(inv.currency);
    NegativeTotalsSpec(inv);
    BusinessErrorsSpec(inv);
  }

  /** The extractor's defaults and its currency guess keep an extracted invoice clear of
      the missing-name and currency errors, and since no tax amount is ever read, the
      totals check never fires on one. */
  lemma ExtractedInvoiceChecks(raw: RawInvoiceText, today: Date, g: Result<Option<string>, ExtractError>, inv: Invoice)
    requires ValidDate(today) && CurrencyGuess(raw.fullText, g)
    requires InvoiceOf(raw, today, g) == Success(inv)
    ensures MissingSellerName !in FormatErrors(inv) && MissingBuyerName !in FormatErrors(inv)
    ensures InvalidCurrency !in FormatErrors(inv)
    ensures TaxNegative !in BusinessErrors(inv) && TotalsMismatch !in BusinessErrors(inv)
  {
    InvoiceHeader(raw, today, g, inv);
    InvoiceTotals(raw, today, g, inv);
    SoundInvoiceChecks(raw.path, inv);
  }
}
