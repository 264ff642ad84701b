# invoice_qc: a verified model of invoice extraction and validation

`invoice_qc` turns the text of a PDF invoice into an `Invoice` record and
then checks batches of such records. This project models its core in Dafny
and proves properties of that model.

- **Extraction.** Fields are read from the document text with the label
  patterns of `config_labels.py`: the invoice number, dates, party names and
  currency, the three totals, and the line-item table. Missing fields fall
  back to defaults.
- **Validation.** Per-invoice completeness, format and business-rule
  checks, a duplicate-key pass over the whole batch, and the batch summary
  with its count of each error code.

## Layout

| file | module | models |
|---|---|---|
| `wrappers.dfy` | `Wrappers` | `Option` and `Result`: a Python value that may be `None`, and an operation that may raise |
| `text.dfy` | `Text` | the `str` methods the core calls: `strip`, `lower`, `upper`, `replace`, `splitlines`, `"\n".join` |
| `numbers.dfy` | `Numbers` | `int(str)` and `float(str)` on the strings the core passes to them, and `"%02d"`-style digits |
| `amounts.dfy` | `Amounts` | the first match of the two amount patterns, `AMOUNT_PATTERN` and `AMOUNT_TOKEN` |
| `pattern.dfy` | `Pattern` | a backtracking matcher for the subset of Python's `re` the label, date and amount rules use |
| `lang_utils.dfy` | `LangUtils` | `normalize_amount`, `clean_line`, `clean_text` and `extract_lines` |
| `models.dfy` | `Models` | `LineItem` with its non-negative validator, `Invoice`, `InvoiceValidationResult`, `BatchValidationSummary`, and dates |
| `config.dfy` | `Config` | the registry: allowed currencies, the date window, `EPSILON`, `DATE_PATTERNS`, `AMOUNT_PATTERN`, `LABEL_PATTERNS` |
| `extractor.dfy` | `Extractor` | `_parse_date_from_text`, `_parse_amount`, `_extract_single_field`, `_guess_currency`, `_extract_line_items`, `parse_raw_invoice` |
| `validator.dfy` | `Validator` | `_check_completeness_and_format`, `_check_business_rules`, `_find_duplicates`, `validate_invoices` |
| `pipeline.dfy` | `Pipeline` | what validation can say about an invoice that extraction produced |

## Modelling choices

- **Pattern matching.** A regular expression is a `Pat` value. `Ends(p, s, pos, ci)`
  lists every way `p` can match at `pos`, in the order a backtracking engine
  tries them. `Search` returns the first way at the leftmost position that
  matches, which is what `re.search` returns. The patterns in `Config` are
  transcriptions of the ones in `config_labels.py`.
- **Errors.** An operation that can raise returns a `Result`.
  - `NoSuchGroup` models an `IndexError` from `m.group(k)` or `m.groups()[-1]`.
  - `InvalidLineItem` models the `ValidationError` raised when a negative
    number reaches a `LineItem`.
- **Methods and functions.** Every loop of the source is a Dafny `method` with
  a `while` loop. Each method is proved equal to a function that states what
  the loop computes (`ReadHeader` against `HeaderOf`, `ValidateInvoices`
  against `ResultOf` and `Tally`, and so on). The lemmas are about those
  functions.
- **The currency guess** walks `ALLOWED_CURRENCIES`, a Python `set`. Its
  order depends on string hashing and can change between runs. So
  `GuessCurrency` picks any listed code that appears as a whole word, and
  `CurrencyGuess` states all that is certain. `ParseRawInvoice` promises its
  result for some guess that `CurrencyGuess` allows.
- **Dates.** The date of the run (`datetime.today()`) is a parameter, `today`.
  A date is a `Date(year, month, day)` that `ValidDate` accepts.
- **Numbers.** Amounts are `real`s, so the `EPSILON` comparisons are exact.

## Behaviour of the code worth knowing

These are consequences of the code as written, each stated by a lemma.

- **`normalize_amount`, two separators.** With both a comma and a point, the
  code drops every point and turns each comma into a point. It then takes the
  first match of `AMOUNT_TOKEN`, whose `\d{1,3}` is not anchored.
  - `LangUtils.NormalizeCommaThenPoint`: `"1,234.56"` becomes `"1.23456"` and
    reads as 1.234.
  - `LangUtils.NormalizePointThenComma`: `"1.234,56"` becomes `"1234.56"` and
    reads as 123.0.
- **Table columns.** The table parser reads its numeric columns with
  `_parse_amount`, not `normalize_amount` (`Extractor.RowOfColumns`).
- **Negative line items.** A negative number in a quantity, price or total
  column makes the `LineItem` validator raise, so extraction fails on such a
  row (`Extractor.LineItemsFailure`).
- **The tax loop** raises whenever a tax rule matches (see Findings), so
  `parse_raw_invoice` fails on such a document (`Extractor.InvoiceFailure`).
- **Currency fallback.** The fallback search iterates over a `set`, so which
  of several codes present is returned depends on the set's order
  (`Extractor.CurrencyGuess` allows each of them).

## Model

| member | source | states |
|---|---|---|
| Text.Strip | invoice_qc/validator.py:15 | `str.strip()`: the result is no longer than the input and has no whitespace at either end; `Text.StripSlice` gives its content |
| Text.StripSlice | invoice_qc/validator.py:15 | the result of `strip` is a slice of the input with only whitespace before and after it, so only the edge whitespace is removed and the rest is kept in order |
| Text.StripEmpty | invoice_qc/validator.py:15-20 | stripping leaves nothing exactly when the text is all whitespace |
| Text.StripStripped | invoice_qc/extractor.py:81 | text with no whitespace at either end is left unchanged by `strip` |
| Text.StripKeepsFirst | invoice_qc/extractor.py:81 | stripping text that does not start with whitespace keeps its first character |
| Text.Lower | invoice_qc/extractor.py:107 | `str.lower()` lowers each character and keeps the length |
| Text.Upper | invoice_qc/validator.py:28 | `str.upper()` raises each character and keeps the length |
| Text.WithoutRemoves | invoice_qc/extractor.py:68 | `replace(c, "")` removes every `c` and keeps every other character, in order |
| Text.WithoutAppend | invoice_qc/extractor.py:68 | removing a character from a concatenation removes it from each part |
| Text.SplitLines | invoice_qc/extractor.py:78 | `str.splitlines()`: no line holds a line boundary, and only empty text gives no lines |
| Text.SplitJoinLines | invoice_qc/lang_utils.py:58 | joining boundary-free lines with "\n" and splitting again gives them back when the last is not empty |
| Text.SplitJoinTrailing | invoice_qc/lang_utils.py:58 | a final empty line is dropped by the split, as `"a\n".splitlines()` is `["a"]` |
| Text.SplitAfterLine | invoice_qc/extractor.py:78 | a line ended by "\n" is the first line of the text |
| Text.JoinLines | invoice_qc/lang_utils.py:58 | `"\n".join(ls)`: `SplitJoinLines` and `SplitJoinTrailing` say what splitting its result gives back |
| Text.ReplaceChar | invoice_qc/lang_utils.py:53 | `str.replace` of one character by another: same length, each occurrence replaced and every other character kept |
| Text.Contains | invoice_qc/extractor.py:108 | `w in s`: `w` occurs at some position of `s` |
| Numbers.Digits | invoice_qc/extractor.py:55 | zero-padded decimal digits whose value is the number, of exactly the padded width when it fits |
| Numbers.DigitsValueBound | invoice_qc/extractor.py:54 | a string of `n` digits denotes a number below 10^n |
| Numbers.IntOf | invoice_qc/extractor.py:54 | `int(str)`: a value only when the stripped text starts with a digit or a sign |
| Numbers.IntOfDigits | invoice_qc/extractor.py:54 | a digit string reads as its value |
| Numbers.IntOfLetter | invoice_qc/extractor.py:54 | text starting with a letter is not an integer, so a month name raises `ValueError` |
| Numbers.FloatOfTwoDots | invoice_qc/extractor.py:69-72 | a string with two decimal points is not a float |
| Numbers.FloatOfSigned | invoice_qc/extractor.py:70 | a leading `-` negates the value, and a leading `+` or no sign keeps it |
| Numbers.UnsignedFraction | invoice_qc/extractor.py:70 | digits, a point and digits read as their decimal value |
| Numbers.UnsignedWhole | invoice_qc/extractor.py:70 | digits alone read as their value |
| Numbers.FloatOf | invoice_qc/extractor.py:70 | `float()` on an optional sign and digits with at most one point; `FloatOfSigned`, `FloatOfTwoDots`, `UnsignedFraction` and `UnsignedWhole` give its values and refusals |
| Amounts.FindToken | invoice_qc/config_labels.py:21 | the leftmost position where an amount starts, with the end the greedy first match reaches; none exactly when no position starts one |
| Amounts.TokenEnd | invoice_qc/lang_utils.py:8 | the first match from a start ends after it |
| Amounts.GroupsDigits | invoice_qc/config_labels.py:21 | with commas removed, the leading digits and groups of `AMOUNT_PATTERN` are all digits |
| Amounts.LabelTokenParses | invoice_qc/extractor.py:65-72 | the first match of `AMOUNT_PATTERN`, commas removed, is always a float, so `_parse_amount` never hits its `ValueError` branch |
| Amounts.TokenLeadingDigits | invoice_qc/lang_utils.py:8 | four leading digits give a token of the first three only |
| Amounts.TokenDecimal | invoice_qc/lang_utils.py:8 | up to three digits, a decimal separator and one or two digits are one token |
| Amounts.TokenGroupThenDigits | invoice_qc/lang_utils.py:8 | a group of three digits after the lead is taken, and digits right after it are not |
| Amounts.TokenTwoGroups | invoice_qc/lang_utils.py:8 | two groups after the lead are both taken |
| Pattern.Ends | invoice_qc/config_labels.py:26-68 | every way a pattern matches at a position ends inside the text and reports as many groups as the pattern has, each inside the match |
| Pattern.SearchFrom | invoice_qc/extractor.py:79 | `re.search`: the leftmost position with a match and its first way; nothing matches before it, and none means no position matches |
| Pattern.Search | invoice_qc/extractor.py:162 | the match found is one of the ways at its position, with one span per group inside it; nothing matches further left |
| Pattern.SeqMembers | invoice_qc/config_labels.py:26 | a way of matching `ab` is exactly a way of `a` followed by a way of `b` from where it ends |
| Pattern.SeqFirst | invoice_qc/config_labels.py:26 | the first way of `ab` continues the first way of `a` when `b` matches there |
| Pattern.SeqNonEmpty | invoice_qc/config_labels.py:26 | `ab` matches exactly when some way of `a` is followed by a match of `b` |
| Pattern.SeqThenSound | invoice_qc/config_labels.py:26 | every continuation comes from a way of the prefix and a way of the rest |
| Pattern.SeqThenComplete | invoice_qc/config_labels.py:26 | every pair of a prefix way and a rest way is among the continuations |
| Pattern.StarFirst | invoice_qc/config_labels.py:27 | a greedy star's first way repeats as long as its body advances |
| Pattern.AltMember | invoice_qc/config_labels.py:61 | a way of matching an alternation ends where a way of `a` or of `b` ends, and reports no groups |
| Pattern.AltLeftWay | invoice_qc/config_labels.py:61 | every way of the left branch is a way of the alternation |
| Pattern.AltRightWay | invoice_qc/config_labels.py:61 | every way of the right branch is a way of the alternation |
| Pattern.Capture | invoice_qc/config_labels.py:56 | a group adds the span of each way of its body in front of the body's own groups |
| Pattern.NoGroups | invoice_qc/config_labels.py:21 | a pattern without groups reports none |
| Pattern.GroupWay | invoice_qc/config_labels.py:56 | a group captures the span of each way of its body |
| Pattern.SearchFinds | invoice_qc/extractor.py:162 | a pattern that matches somewhere is found by `search` |
| LangUtils.Keep | invoice_qc/lang_utils.py:24 | `re.sub(r"[^\d.,\-]", "", s)` is never longer than `s` |
| LangUtils.KeepAppend | invoice_qc/lang_utils.py:24 | the filter distributes over concatenation |
| LangUtils.KeepOnlyKept | invoice_qc/lang_utils.py:24 | only digits, `.`, `,` and `-` survive, and text made only of them is kept whole |
| LangUtils.KeepStrip | invoice_qc/lang_utils.py:22-24 | stripping first changes nothing, since whitespace is filtered anyway |
| LangUtils.Separators | invoice_qc/lang_utils.py:26-29 | no comma survives the separator rewrite, and text without a comma is unchanged |
| LangUtils.SeparatorsCommaOnly | invoice_qc/lang_utils.py:28-29 | with commas and no point, each comma becomes a point |
| LangUtils.SeparatorsBoth | invoice_qc/lang_utils.py:26-27 | with both, points are dropped and then commas become points |
| LangUtils.SeparatorsCommaThenPoint | invoice_qc/lang_utils.py:26-27 | `a,b.c` becomes `a.bc` |
| LangUtils.SeparatorsPointThenComma | invoice_qc/lang_utils.py:26-27 | `a.b,c` becomes `ab.c` |
| LangUtils.NormalizeAmount | invoice_qc/lang_utils.py:19-21 | a missing or empty input gives no amount |
| LangUtils.NormalizeKept | invoice_qc/lang_utils.py:19-37 | only the kept characters decide the result |
| LangUtils.NormalizeIgnores | invoice_qc/lang_utils.py:24 | removing a currency symbol, letter or space never changes the result |
| LangUtils.NormalizeNoDigit | invoice_qc/lang_utils.py:31-33 | text without a digit gives no amount |
| LangUtils.NormalizeDecimalComma | invoice_qc/lang_utils.py:28-35 | one to three digits, a comma and one or two digits read as that decimal: a lone comma is the decimal point |
| LangUtils.NormalizeLeadingDigits | invoice_qc/lang_utils.py:31-35 | four or more leading digits read as the first three only |
| LangUtils.NormalizeTwoGroups | invoice_qc/lang_utils.py:31-37 | `"1.234.567"` is a token that `float` refuses, so no amount |
| LangUtils.NormalizeCommaThenPoint | invoice_qc/lang_utils.py:26-35 | `"1,234.56"` reads as 1.234 |
| LangUtils.NormalizePointThenComma | invoice_qc/lang_utils.py:26-35 | `"1.234,56"` reads as 123.0 |
| LangUtils.CleanLine | invoice_qc/lang_utils.py:52-53 | the cleaned line has no no-break space and no whitespace at either end |
| LangUtils.CleanLineIdempotent | invoice_qc/lang_utils.py:52-53 | cleaning twice is cleaning once |
| LangUtils.CleanLineEmpty | invoice_qc/lang_utils.py:52-53 | a line cleans to nothing exactly when it is all whitespace |
| LangUtils.CleanLineNoBoundary | invoice_qc/lang_utils.py:52-53 | cleaning adds no line boundary |
| LangUtils.CleanLines | invoice_qc/lang_utils.py:58 | one cleaned line per line, in order |
| LangUtils.NonEmptyLines | invoice_qc/lang_utils.py:63 | the kept lines are non-empty lines of the input, and all lines are kept when none is empty; `NonEmptyKeeps` and `NonEmptyAppend` give the converse and the order |
| LangUtils.NonEmpty | invoice_qc/lang_utils.py:63 | `[l for l in ls if l]`, never longer than its input; `NonEmptySingle`, `NonEmptyAppend` and `NonEmptyKeeps` determine it |
| LangUtils.NonEmptySingle | invoice_qc/lang_utils.py:63 | one line is kept exactly when it is not empty |
| LangUtils.NonEmptyAppend | invoice_qc/lang_utils.py:63 | the filter works line by line: filtering joined lists joins the filtered lists, so the kept lines stay in their order |
| LangUtils.NonEmptyKeeps | invoice_qc/lang_utils.py:63 | a line is kept exactly when it is one of the input lines and is not empty |
| LangUtils.CleanText | invoice_qc/lang_utils.py:56-58 | `clean_text`: the cleaned lines joined with "\n"; `CleanTextLines` gives the lines back and `ExtractLinesOfCleanText` relates it to `extract_lines` |
| LangUtils.CleanTextLines | invoice_qc/lang_utils.py:56-58 | splitting the cleaned text gives the cleaned lines back when the last is not empty |
| LangUtils.ExtractLinesOfCleanText | invoice_qc/lang_utils.py:56-63 | `extract_lines(t)` is the non-empty lines of `clean_text(t)` |
| LangUtils.ExtractLines | invoice_qc/lang_utils.py:61-63 | a line is extracted exactly when it is one of the cleaned input lines and is not empty; `NonEmptyAppend` gives their order |
| Models.DaysInMonth | invoice_qc/extractor.py:54 | a month has 28 to 31 days |
| Models.MakeDate | invoice_qc/extractor.py:54-57 | `datetime(y, m, d)` gives the date exactly when it exists, and raises otherwise |
| Models.BeforeOrder | invoice_qc/validator.py:22-25 | date comparison is a strict total order |
| Models.IsoFormat | invoice_qc/extractor.py:55 | `isoformat()` is `YYYY-MM-DD`: ten characters, digits and two dashes |
| Models.FromIsoFormat | invoice_qc/extractor.py:188-189 | `fromisoformat` only ever gives an existing date |
| Models.IsoRoundTrip | invoice_qc/extractor.py:55 | `fromisoformat(d.isoformat()) == d` for every date |
| Models.NegativeError | invoice_qc/models.py:17-21 | a field's message exactly when it is present and negative |
| Models.NewLineItem | invoice_qc/models.py:9-21 | a line item is built exactly when quantity, price and total are absent or non-negative, and the error lists one message per negative field, in field order |
| Models.LineItemDefaults | invoice_qc/models.py:10-13 | a description alone makes a line item with no numbers |
| Models.NewInvoice | invoice_qc/models.py:24-45 | the required fields are as given and every optional field takes its default |
| Models.NewValidationResult | invoice_qc/models.py:48-51 | a result starts with no errors |
| Config.DateWindow | invoice_qc/config_labels.py:71-72 | both ends of the date window are real dates, the first before the second |
| Config.CurrencyCodes | invoice_qc/config_labels.py:8 | four allowed codes, each three capital letters |
| Config.AmountRule | invoice_qc/config_labels.py:55-68 | an amount rule has one group more than its label |
| Config.LineRule | invoice_qc/config_labels.py:29-47 | a rest-of-line rule has one group more than its label |
| Config.InvoiceNumberRule | invoice_qc/config_labels.py:26 | the first invoice-number rule has two groups |
| Config.InvoiceNumberGroups | invoice_qc/config_labels.py:25-28 | the invoice-number rules have two groups and one group |
| Config.DateRulesThreeGroups | invoice_qc/config_labels.py:11-18 | there are three date rules, each with three groups |
| Config.NetRulesGroups | invoice_qc/config_labels.py:55-59 | every net-total rule has exactly one group |
| Config.TaxRulesGroups | invoice_qc/config_labels.py:60-63 | every tax rule has exactly one group |
| Config.GrossRulesGroups | invoice_qc/config_labels.py:64-68 | every gross-total rule has exactly one group |
| Config.DateLabelGroups | invoice_qc/config_labels.py:29-36 | the invoice-date and due-date rules have one group each |
| Config.NameLabelGroups | invoice_qc/config_labels.py:37-47 | the seller and buyer rules have one group each |
| Config.TaxIdLabelGroups | invoice_qc/config_labels.py:41-50 | the tax-id rules have one group each |
| Config.CurrencyRulesGroups | invoice_qc/config_labels.py:51-54 | the currency rules have one group each |
| Extractor.Stem | invoice_qc/extractor.py:145 | `Path.stem` is a prefix of the name; when shorter, the rest is a dot and a suffix without dots |
| Extractor.StemOfSuffixed | invoice_qc/extractor.py:145 | the stem of `base.ext` is `base` |
| Extractor.StemWithoutSuffix | invoice_qc/extractor.py:145 | a name without an inner dot is its own stem |
| Extractor.StemNonEmpty | invoice_qc/extractor.py:145 | a non-empty name has a non-empty stem |
| Extractor.DateIn | invoice_qc/extractor.py:36-59 | a date found in the text is a real date |
| Extractor.ParseDateFromText | invoice_qc/extractor.py:36-59 | none exactly when no rule yields a date; otherwise the ISO text that `fromisoformat` reads back as that date |
| Extractor.FirstDate | invoice_qc/extractor.py:40-57 | the loop over the date rules returns the ISO form of the first date a rule yields |
| Extractor.DateOfMatch | invoice_qc/extractor.py:44-57 | a date built from a match's three groups is a real date |
| Extractor.LetterMiddleNoDate | invoice_qc/extractor.py:44-57 | a date rule whose middle is letters never gives a date |
| Extractor.DateRuleMiddle | invoice_qc/config_labels.py:13-17 | a date rule's second group is a way of its middle pattern |
| Extractor.MonthRuleNoDate | invoice_qc/extractor.py:44-57 | a match of the month-name rule never gives a date, as `int` refuses the month name |
| Extractor.DateFromFirstTwo | invoice_qc/extractor.py:40-57 | so only the first two date rules can give a date |
| Extractor.ParseAmountSome | invoice_qc/extractor.py:62-72 | `_parse_amount` gives a number exactly when the text holds a digit, or a sign before one |
| Extractor.ParseAmountLeftmost | invoice_qc/extractor.py:65-70 | the number is that of the leftmost amount, commas removed |
| Extractor.ParseAmount | invoice_qc/extractor.py:62-72 | `_parse_amount`: none for empty or amount-free text, otherwise `float()` of the first `AMOUNT_PATTERN` match without its commas; `ParseAmountSome` and `ParseAmountLeftmost` state when it gives a number and which one |
| Extractor.LastGroup | invoice_qc/extractor.py:81 | `m.groups()[-1].strip()` raises exactly on a match without groups, and otherwise gives stripped text |
| Extractor.LineHit | invoice_qc/extractor.py:78-80 | the first line on which a rule matches, and none exactly when it matches no line |
| Extractor.ExtractSingleField | invoice_qc/extractor.py:75-82 | the nested loop returns the value of the first rule and first line that match |
| Extractor.FieldOf | invoice_qc/extractor.py:75-82 | `_extract_single_field` over the text's lines; `FieldNone`, `FieldFirstRule` and `FieldCaptured` state its outcome |
| Extractor.FieldFrom | invoice_qc/extractor.py:77-82 | the rules from the `i`-th on, each over every line, the first hit deciding; `FieldNone` and `FieldFirstRule` state it |
| Extractor.FieldNone | invoice_qc/extractor.py:75-82 | nothing is found exactly when no rule matches any line |
| Extractor.FieldFirstRule | invoice_qc/extractor.py:77-81 | the first rule with a matching line decides, on its first matching line |
| Extractor.FieldCaptured | invoice_qc/extractor.py:81 | rules that all have a group never raise and give stripped text |
| Extractor.LabelFieldCaptured | invoice_qc/extractor.py:75-82 | the same, for the whole text |
| Extractor.NumberCaptured | invoice_qc/extractor.py:145 | reading the invoice number never raises |
| Extractor.DatesCaptured | invoice_qc/extractor.py:147-153 | reading either date label never raises |
| Extractor.NamesCaptured | invoice_qc/extractor.py:155-156 | reading the seller and buyer never raises |
| Extractor.WordRegexAt | invoice_qc/extractor.py:91 | `\bCUR\b` matches at a position exactly when the code stands there as a whole word |
| Extractor.WordFound | invoice_qc/extractor.py:91 | `re.search(rf"\b{cur}\b", text)` succeeds exactly when the code occurs as a whole word |
| Extractor.GuessCurrency | invoice_qc/extractor.py:85-93 | an accepted labelled code, upper-cased; otherwise some allowed code that occurs as a word; none exactly when none occurs |
| Extractor.CurrencyGuessAccepted | invoice_qc/extractor.py:85-93 | the guess never raises and is an allowed code or none |
| Extractor.SomeCurrencyGuess | invoice_qc/extractor.py:90-93 | some guess is always possible |
| Extractor.CurrencyGuess | invoice_qc/extractor.py:85-93 | the results `_guess_currency` may give: the label's failure; an allowed label value, upper-cased; otherwise an allowed code that occurs as a whole word, and none exactly when no allowed code does |
| Extractor.OrElse | invoice_qc/extractor.py:145 | `x or default`: the default, or the value when present and not empty |
| Extractor.OrElseNotBlank | invoice_qc/extractor.py:155-156 | a stripped value or a placeholder is never blank |
| Extractor.AmountPatStarts | invoice_qc/config_labels.py:21 | every way of matching `AMOUNT_PATTERN` covers text that starts with an amount |
| Extractor.LabelledAmountMember | invoice_qc/config_labels.py:55-68 | a match of an amount rule captures one group, which starts with an amount |
| Extractor.NetRuleGroup | invoice_qc/config_labels.py:55-59 | a match of a net-total rule captures one amount |
| Extractor.TaxRuleGroup | invoice_qc/config_labels.py:60-63 | a match of a tax rule captures one amount, and only one group |
| Extractor.GrossRuleGroup | invoice_qc/config_labels.py:64-68 | a match of a gross-total rule captures one amount |
| Extractor.LabelWay | invoice_qc/config_labels.py:56 | a label, then its value, is a way of matching the labelled rule |
| Extractor.AmountRuleWay | invoice_qc/config_labels.py:55-68 | an amount rule finds a label that a digit follows right away |
| Extractor.LabelledAmount | invoice_qc/extractor.py:160-182 | each totals loop returns what `AmountFrom` specifies: the first rule whose match gives an amount, or the `IndexError` when the group is missing |
| Extractor.AmountStep | invoice_qc/extractor.py:161-166 | a rule whose match captures an amount decides; one that does not match passes on |
| Extractor.FirstAmountDecides | invoice_qc/extractor.py:160-166 | reading group 1 of such rules never raises, and an amount is found exactly when some rule matches |
| Extractor.FirstAmountRule | invoice_qc/extractor.py:161-166 | when no earlier rule matches and the first match captures text starting with an amount, that amount is the result |
| Extractor.SecondGroupRaises | invoice_qc/extractor.py:168-174 | asking one-group rules for group 2 raises exactly when one of them matches |
| Extractor.NetRulesCaptureAmounts | invoice_qc/config_labels.py:55-59 | every net-total match captures text that starts with an amount |
| Extractor.GrossRulesCaptureAmounts | invoice_qc/config_labels.py:64-68 | every gross-total match captures text that starts with an amount |
| Extractor.TaxRulesCaptureAmounts | invoice_qc/config_labels.py:60-63 | every tax match captures text that starts with an amount |
| Extractor.FirstRun | invoice_qc/extractor.py:121 | the first run of two or more whitespace characters from a position, with none before it |
| Extractor.SplitRuns | invoice_qc/extractor.py:121 | `re.split(r"\s{2,}", s)` always gives at least one part |
| Extractor.SplitJoinColumns | invoice_qc/extractor.py:121 | columns written with two spaces between them are split back into those columns |
| Extractor.RowOfColumns | invoice_qc/extractor.py:121-137 | such a row is read column by column: description, quantity, unit price, line total |
| Extractor.RowItem | invoice_qc/extractor.py:121-136 | one row: split at runs of two or more whitespace characters, the first column as description and columns 2 to 4 through `_parse_amount` into a `LineItem`; `RowOfColumns` states it |
| Extractor.NonBlank | invoice_qc/extractor.py:103 | no kept line is blank; `NonBlankKeeps` and `NonBlankAppend` say which lines are kept and in what order |
| Extractor.NonBlankSingle | invoice_qc/extractor.py:103 | one line is kept exactly when it holds a non-whitespace character |
| Extractor.NonBlankAppend | invoice_qc/extractor.py:103 | the filter works line by line: filtering joined lists joins the filtered lists, so the kept lines stay in their order |
| Extractor.NonBlankKeeps | invoice_qc/extractor.py:103 | a line is kept exactly when it is one of the input lines and is not all whitespace |
| Extractor.HeaderFrom | invoice_qc/extractor.py:106-110 | the first line mentioning a description and a quantity, and none exactly when no line does |
| Extractor.TableEnd | invoice_qc/extractor.py:116-119 | the first grand-total row after the header, or the end |
| Extractor.FindHeader | invoice_qc/extractor.py:106-113 | the header loop finds that first header row |
| Extractor.ReadRows | invoice_qc/extractor.py:116-139 | the row loop gives what `RowsFrom` specifies |
| Extractor.RowsFrom | invoice_qc/extractor.py:116-137 | the items of the rows from the `j`-th up to the grand-total row, or the first refusal; `RowsSpec` states it |
| Extractor.RowsSpec | invoice_qc/extractor.py:116-137 | reading fails exactly when some row before the table's end fails; otherwise one item per row, each read from its row |
| Extractor.ExtractLineItems | invoice_qc/extractor.py:96-139 | reading the table gives `LineItemsOf` |
| Extractor.ReadTable | invoice_qc/extractor.py:104-139 | the header loop and the row loop over the kept lines give `TableItems` |
| Extractor.TableItems | invoice_qc/extractor.py:104-139 | no header, no items; otherwise the rows after it, or the first row's refusal; `LineItemsWithoutHeader`, `LineItemsFailure` and `LineItemsRows` state it |
| Extractor.LineItemsOf | invoice_qc/extractor.py:96-139 | `_extract_line_items`: the table read from the non-blank lines of the text |
| Extractor.LineItemsWithoutHeader | invoice_qc/extractor.py:112-113 | without a header row there are no line items |
| Extractor.LineItemsFailure | invoice_qc/extractor.py:116-137 | with a header row, extraction raises exactly when some row between the header and the grand-total row (or the end) is refused by `RowItem`: its quantity, unit-price or line-total column, read by `_parse_amount`, is negative; the description and any fifth column are never checked |
| Extractor.LineItemsRows | invoice_qc/extractor.py:116-137 | otherwise each item is its row, read column by column |
| Extractor.InvoiceDate | invoice_qc/extractor.py:147-150 | the invoice date is what `DateIn` gives for the text it is passed (the label value, or the whole text when that value is missing or empty): the date of the first date rule, in the order day-first, ISO, month-name, whose first match is a real date, which need not be the leftmost date; otherwise `today`; always a real date |
| Extractor.DueDate | invoice_qc/extractor.py:152-153 | no due date without a non-empty label; otherwise the date found in it |
| Extractor.ReadHeader | invoice_qc/extractor.py:145-156 | the header fields are read as `HeaderOf` specifies |
| Extractor.HeaderWithFields | invoice_qc/extractor.py:145-156 | fields read without raising give a sound header |
| Extractor.HeaderFields | invoice_qc/extractor.py:145-156 | reading the header never raises: names not blank, a number when the file has a name, real dates |
| Extractor.HeaderWith | invoice_qc/extractor.py:145-156 | the header built from the five label fields, failing with the first field that fails; `HeaderWithFields` states it |
| Extractor.HeaderOf | invoice_qc/extractor.py:143-156 | the header read from a document's label rules; `ReadHeader` computes it and `HeaderFields` states it |
| Extractor.ReadTotals | invoice_qc/extractor.py:160-182 | the three totals loops give `TotalsOf` |
| Extractor.TotalsFromRules | invoice_qc/extractor.py:160-182 | with group 2 for the tax rules: failure exactly when a tax rule matches; otherwise no tax, and net or gross found exactly when one of their rules matches |
| Extractor.TotalsOutcome | invoice_qc/extractor.py:160-182 | the same, for the registry's rules |
| Extractor.TotalsFromCaptured | invoice_qc/extractor.py:160-182 | with group 1 throughout: no failure, and each total found exactly when one of its rules matches |
| Extractor.TotalsFrom | invoice_qc/extractor.py:160-182 | the three total loops over given rules and tax group, failing with the first loop that fails; `TotalsFromRules` and `TotalsFromCaptured` state it |
| Extractor.TotalsOf | invoice_qc/extractor.py:160-182 | the three loops as written, reading group 2 for tax; `TotalsOutcome` states it |
| Extractor.IntendedTotals | invoice_qc/extractor.py:168-174 | the tax loop reading group 1, as evidently intended; `IntendedTotalsOutcome` states it |
| Extractor.IntendedTotalsOutcome | invoice_qc/extractor.py:168-174 | the corrected tax loop never raises and finds a tax amount exactly when a tax rule matches |
| Extractor.VatLabelRaises | invoice_qc/extractor.py:172 | a text starting `VAT` and a digit raises as written, and gives a tax amount with group 1 |
| Extractor.ParseRawInvoice | invoice_qc/extractor.py:142-197 | the invoice is `InvoiceOf` for some allowed currency guess |
| Extractor.AssembleFails | invoice_qc/extractor.py:142-197 | assembly fails exactly when one part fails, with the first failing part's error |
| Extractor.AssembleFields | invoice_qc/extractor.py:186-197 | each invoice field comes from its part, with `INR` as the default currency and the ids, terms and reference left absent |
| Extractor.AssembleSound | invoice_qc/extractor.py:186-197 | a sound header and an allowed or missing currency make a sound invoice |
| Extractor.Assemble | invoice_qc/extractor.py:186-197 | the `Invoice` built from the parts, failing with the first part that fails; `AssembleFails`, `AssembleFields` and `AssembleSound` state it |
| Extractor.InvoiceOf | invoice_qc/extractor.py:142-197 | `parse_raw_invoice` for a given currency result; `InvoiceFailure`, `InvoiceHeader`, `InvoiceTotals` and `InvoiceRest` state it |
| Extractor.InvoiceFailure | invoice_qc/extractor.py:142-197 | `parse_raw_invoice` raises exactly when a tax rule matches or a table row is refused |
| Extractor.InvoiceHeader | invoice_qc/extractor.py:145-158 | an extracted invoice has names that are not blank, a number when the file has a name, an allowed currency and real dates |
| Extractor.InvoiceTotals | invoice_qc/extractor.py:160-182 | an extracted invoice has no tax amount, and net or gross exactly when one of their rules matches |
| Extractor.InvoiceRest | invoice_qc/extractor.py:184-197 | its line items are the table's, and its tax ids, terms and reference are absent |
| Validator.Flag | invoice_qc/validator.py:15-29 | a check is flagged exactly when it failed, at most once |
| Validator.FormatErrorsSpec | invoice_qc/validator.py:22-29 | the date-window, due-date and currency errors are reported exactly when the date is outside the window, the due date is earlier, or the upper-cased currency is not allowed |
| Validator.FormatErrors | invoice_qc/validator.py:12-31 | the completeness and format checks that fail, in source order; `FormatErrorsSpec` and `RequiredFieldsSpec` state when each is reported |
| Validator.RequiredFieldsSpec | invoice_qc/validator.py:15-20 | a missing-field error exactly when that field strips to nothing |
| Validator.CheckCompletenessAndFormat | invoice_qc/validator.py:12-31 | the format errors, in the order of the checks |
| Validator.NegativeTotalsSpec | invoice_qc/validator.py:41-47 | a negative-total error exactly when that total is present and below zero |
| Validator.BusinessErrorsSpec | invoice_qc/validator.py:49-59 | totals mismatch exactly when all three are present and differ by more than `EPSILON` in either direction; line-sum mismatch when items and a net total exist and disagree; too large above 10^9 |
| Validator.BusinessErrors | invoice_qc/validator.py:34-61 | the business rules that fail, in source order; `NegativeTotalsSpec` and `BusinessErrorsSpec` state when each is reported |
| Validator.CheckBusinessRules | invoice_qc/validator.py:34-61 | the business errors, in the order of the rules |
| Validator.SumLineTotals | invoice_qc/validator.py:54 | the sum of the line totals, a missing one counting as zero |
| Validator.LineItemsSum | invoice_qc/validator.py:54 | `sum(li.line_total or 0.0 ...)`; `SumLineTotals` computes it by a loop |
| Validator.ToleranceInclusive | invoice_qc/validator.py:50 | a difference of exactly `EPSILON` is no mismatch |
| Validator.ToleranceExamples | invoice_qc/validator.py:49-51 | 100 + 18 agrees with 118.005 and disagrees with 120 |
| Validator.ConsistentInvoicePasses | invoice_qc/validator.py:12-61 | a complete invoice with dates in range, an allowed currency and totals that add up fails no check |
| Validator.ErrorsKinds | invoice_qc/validator.py:12-61 | the format pass reports only format checks and the business pass only business rules, each at most once |
| Validator.InFlags | invoice_qc/validator.py:12-61 | a check is among the flags exactly when a flag that holds is for it |
| Validator.CodeInjective | invoice_qc/validator.py:16-89 | no two checks share an error code |
| Validator.CodeShape | invoice_qc/validator.py:16-89 | each code is as long as its literal; the currency code starts with the `f` of `format:` and the too-large code with the `a` of `anomaly:` |
| Validator.Codes | invoice_qc/validator.py:84-89 | one code per failed check, in order |
| Validator.CodesMember | invoice_qc/validator.py:84-89 | a code is listed exactly when its check failed |
| Validator.UpperOfCode | invoice_qc/validator.py:28 | an allowed code is its own upper case |
| Validator.Code | invoice_qc/validator.py:16-89 | the error string of each check; `CodeInjective` shows no two share one |
| Validator.Keys | invoice_qc/validator.py:65-68 | one key per invoice: stripped number, stripped seller, date |
| Validator.KeyOf | invoice_qc/validator.py:66 | the stripped invoice number, the stripped seller name and the invoice date; `FindDuplicates` and `DuplicateFlag` use it |
| Validator.RepeatedKeys | invoice_qc/validator.py:69 | the keys seen so far that occur more than once in the batch, each once |
| Validator.FindDuplicates | invoice_qc/validator.py:64-70 | `_find_duplicates`: exactly the keys that occur at least twice, each once |
| Validator.SingleKeyNotDuplicate | invoice_qc/validator.py:64-70 | a key that occurs once is not reported |
| Validator.SharedKeyDuplicate | invoice_qc/validator.py:64-70 | two invoices with the same key are both reported |
| Validator.ResultOf | invoice_qc/validator.py:82-101 | the result is for the invoice's number, with one error per failed check, and valid exactly when there is none |
| Validator.ResultErrors | invoice_qc/validator.py:82-99 | a result lists a code exactly when the invoice failed that check |
| Validator.DuplicateInErrors | invoice_qc/validator.py:87-89 | the duplicate check fails exactly for a key among the duplicates |
| Validator.InvoiceErrors | invoice_qc/validator.py:84-89 | the format errors, then the business errors, then the duplicate error when the key is among the duplicates; `DuplicateInErrors` and `ResultErrors` state it |
| Validator.DuplicateFlag | invoice_qc/validator.py:78-89 | an invoice is flagged as a duplicate exactly when its key occurs twice or more in the batch |
| Validator.Results | invoice_qc/validator.py:81-101 | one result per invoice |
| Validator.ResultsIndex | invoice_qc/validator.py:81-101 | the `i`-th result is that of the `i`-th invoice |
| Validator.CountInvalid | invoice_qc/validator.py:104 | the invalid results number at most all of them |
| Validator.CountInvalidExtremes | invoice_qc/validator.py:104-105 | none invalid exactly when all are valid, and all invalid exactly when none is valid |
| Validator.CountInvalidResults | invoice_qc/validator.py:104 | the counting loop gives `CountInvalid` |
| Validator.TallyCounts | invoice_qc/validator.py:79-93 | the counter holds exactly the codes reported, each with how many times it was |
| Validator.Tally | invoice_qc/validator.py:79-93 | the `Counter` of error codes; `TallyCounts`, `TallySum` and `TallyAppend` state it |
| Validator.TallySum | invoice_qc/validator.py:92-93 | the counts add up to the number of errors reported |
| Validator.TallyAppend | invoice_qc/validator.py:93 | counting one more code adds one to its count |
| Validator.CountErrors | invoice_qc/validator.py:92-93 | the inner counting loop adds one result's errors |
| Validator.ValidateInvoices | invoice_qc/validator.py:73-114 | one result per invoice, each that invoice's result against the batch's duplicates; the summary counts all, invalid and valid results and tallies every code |
| Validator.SummaryCounts | invoice_qc/validator.py:103-112 | valid plus invalid is the total, and the tallies add up to the number of errors |
| Pipeline.SoundInvoiceChecks | invoice_qc/validator.py:17-51 | a sound invoice without a tax amount passes the name, currency, tax-sign and totals checks |
| Pipeline.ExtractedInvoiceChecks | invoice_qc/extractor.py:155-174 | so does every invoice that `parse_raw_invoice` returns |

## Left out

- PDF text extraction (`extract_text_from_pdf`, `pdfplumber`), `extract_invoices_from_dir` and `export_invoices_to_json`: file and PDF I/O. A document is given as a `RawInvoiceText`, whose path is the file's final name component.
- `detect_language` (`langdetect`) and `parse_date_any` (`dateparser`): foreign libraries that the modelled operations do not call.
- The command line, the web app and the fallback that calls a remote model: they are outside the core.
- `datetime.today()` is the parameter `today`.
- Floating point: amounts are exact `real`s, so rounding at the `EPSILON` boundary and the overflow of `float` are not modelled.
- Case folding, `\d`, `\s`, `\b` and word characters are ASCII, with the Unicode whitespace set for `\s` and `strip`. Non-ASCII letters and digits are not modelled.
- Pattern: only the constructs the registry uses are modelled. These are literals, classes, sequence, alternation, greedy and lazy star, groups, `\b`, and the lookahead `(?=\n|$)`. Groups inside alternation branches or repetitions report nothing; none of the registry's patterns has one.
- `int()` accepting underscores between digits is not modelled: no date rule captures an underscore.
- `fromisoformat` is modelled for the `YYYY-MM-DD` form only, the only form `isoformat()` produces here.
- `TABLE_HEADERS` is not modelled, because no core file reads it.
- `LABEL_PATTERNS` entries `seller_tax_id` and `buyer_tax_id` are transcribed, but `parse_raw_invoice` never reads them, so no invoice carries a tax id.
- `Extractor.GuessCurrency`: the order of Python's `set` iteration is not modelled. The method may pick any allowed code found in the text.
- `Amounts.FindToken`: `AMOUNT_PATTERN` and `AMOUNT_TOKEN` are matched by a direct scan, not by the `Pattern` engine. The amount rules inside `LABEL_PATTERNS` do use the engine, which `Extractor.AmountPatStarts` ties to the scan.
- `Text.SplitLines`: the line boundaries are `\n`, `\r`, `\r\n`, `\v`, `\f`, the file, group and record separators, `\x85`, and the line and paragraph separators, as for `str.splitlines`.

## Findings

| source | as written | input that shows it | evidently intended | confidence | as-written member | corrected member |
|---|---|---|---|---|---|---|
| invoice_qc/extractor.py:172 | the tax loop reads `m.group(2)`, but each tax rule at config_labels.py:60-63 has one group, so every tax match raises `IndexError: no such group` and `parse_raw_invoice` fails | a document whose text starts `VAT5` | `m.group(1)`, as the net and gross loops read | not executed | Extractor.VatLabelRaises | Extractor.IntendedTotalsOutcome |

`Extractor.TotalsOf` models the loop as written, and `Extractor.VatLabelRaises`
shows it failing on that input. `Extractor.IntendedTotals` reads group 1.
`Extractor.IntendedTotalsOutcome` proves that it never fails and finds a tax
amount exactly when a tax rule matches. `Extractor.ParseRawInvoice` keeps
the code's behaviour as written, so `Extractor.InvoiceFailure` and
`Extractor.InvoiceTotals` describe what the library does today.
