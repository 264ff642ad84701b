/** The extractor: from the text of one invoice document to an `Invoice`. Each
    field is found by trying the registry's rules in order, line by line for the
    labelled fields and over the whole text for the totals; dates are read by the
    date rules and re-checked as calendar dates; the line-item table is read
    between its header row and the grand-total row. */
module Extractor {
  import opened Wrappers
  import opened Text
  import opened Numbers
  import opened Amounts
  import opened Pattern
  import opened Models
  import opened Config

  /** `RawInvoiceText`: the document's file name (its final path component) and its text. */
  datatype RawInvoiceText = RawInvoiceText(path: string, fullText: string)

  /** Index of the last `c` in `s`, or -1 (`str.rfind`). */
  function LastIndexOf(s: string, c: char): (k: int)
    ensures -1 <= k < |s|
    ensures k >= 0 ==> s[k] == c
    ensures forall j :: k < j < |s| ==> s[j] != c
    decreases |s|
  {
    if s == [] then -1
    else if s[|s| - 1] == c then |s| - 1
    else LastIndexOf(s[..|s| - 1], c)
  }

  /** `Path(name).stem`: the name without its last suffix. A dot at the very start
      or the very end does not begin a suffix. */
  function Stem(name: string): (r: string)
    ensures IsPrefix(r, name)
    ensures |r| < |name| ==> name[|r|] == '.' && 0 < |r| && '.' !in name[|r| + 1..]
  {
    var i := LastIndexOf(name, '.');
    if 0 < i < |name| - 1 then name[..i] else name
  }

  /** The stem of `base.ext` is `base`, for a non-empty `base` and a suffix without dots. */
  lemma StemOfSuffixed(base: string, ext: string)
    requires base != [] && ext != [] && '.' !in ext
    ensures Stem(base + "." + ext) == base
  {
    var name := base + "." + ext;
    assert name[|base|] == '.';
    assert forall j :: |base| < j < |name| ==> name[j] == ext[j - |base| - 1];
    assert name[..|base|] == base;
  }

  /** A name without a dot, or with its only dot first or last, is its own stem. */
  lemma StemWithoutSuffix(name: string)
    requires forall j :: 0 < j < |name| - 1 ==> name[j] != '.'
    ensures Stem(name) == name
  {
  }

  /** The stem of a non-empty name is never empty. */
  lemma StemNonEmpty(name: string)
    requires name != []
    ensures Stem(name) != []
  {
  }

  /** `_parse_amount(s)`: the first amount in the text, commas dropped, as a float. */
  function ParseAmount(s: string): (r: Option<real>)
  {
    if s == [] then None
    else match TokenText(LabelStyle, s)
      case None => None
      case Some(t) => FloatOf(Without(t, ','))
  }

  /** An amount is read exactly when the text holds the start of one somewhere (a digit,
      or a sign before a digit); the float conversion never fails on what the pattern
      matched. */
  lemma ParseAmountSome(s: string)
    ensures ParseAmount(s).Some? <==> exists q :: 0 <= q <= |s| && StartsAt(s, q)
  {
    match FindToken(LabelStyle, s)
    case None =>
    case Some(t) =>
      assert s != [];
      LabelTokenParses(s, t.start);
  }

  /** The value is that of the leftmost amount, read with commas dropped. */
  lemma ParseAmountLeftmost(s: string, q: nat)
    requires StartsAt(s, q) && forall j :: 0 <= j < q ==> !StartsAt(s, j)
    ensures ParseAmount(s) == FloatOf(Without(s[q..TokenEnd(LabelStyle, s, q)], ','))
  {
    var t := FindToken(LabelStyle, s);
    assert t.Some?;
    assert t.value.start == q;
  }

  // What the label rules capture.

  /** `[-+]?`: either nothing, or one sign. */
  lemma OptSignMember(s: string, q: nat, ci: bool, m: Match)
    requires q <= |s| && m in Ends(Opt(Char(OneOf("-+"))), s, q, ci)
    ensures m.end == q || (m.end == q + 1 && IsSign(s[q]))
  {
    AltMember(Char(OneOf("-+")), Empty, s, q, ci, m);
    if mc :| mc in Ends(Char(OneOf("-+")), s, q, ci) && mc.end == m.end {
      CharMember(OneOf("-+"), s, q, ci, mc);
    }
  }

  /** `\d{1,3}` then anything: a digit comes first. */
  lemma LeadingDigitMember(rest: Pat, s: string, p: nat, ci: bool, m: Match)
    requires p <= |s| && m in Ends(Seq(Between(D, 1, 3), rest), s, p, ci)
    ensures p < |s| && IsDigit(s[p]) && p < m.end
  {
    var mc, md := SeqSplit(Between(D, 1, 3), rest, s, p, ci, m);
    assert Between(D, 1, 3) == Seq(Times(D, 1), UpTo(D, 2));
    var me, mf := SeqSplit(Times(D, 1), UpTo(D, 2), s, p, ci, mc);
    assert Times(D, 1) == Seq(D, Empty);
    var mg, mh := SeqSplit(D, Empty, s, p, ci, me);
    CharMember(Digit, s, p, ci, mg);
  }

  /** Whatever `AMOUNT_PATTERN` matches begins with the start of an amount. */
  lemma AmountPatStarts(s: string, q: nat, ci: bool, m: Match)
    requires q <= |s| && m in Ends(AmountPat, s, q, ci)
    ensures q <= m.end <= |s| && StartsAt(s[q..m.end], 0)
  {
    var rest := Seq(Star(Seq(Lit(","), Times(D, 3))), Opt(Seq(Lit("."), Plus(D))));
    var ma, mb := SeqSplit(Opt(Char(OneOf("-+"))), Seq(Between(D, 1, 3), rest), s, q, ci, m);
    OptSignMember(s, q, ci, ma);
    LeadingDigitMember(rest, s, ma.end, ci, mb);
    var t := s[q..m.end];
    if ma.end == q {
      assert t[0] == s[q];
    } else {
      assert t[0] == s[q] && t[1] == s[q + 1];
    }
  }

  /** After a label that captures nothing, the value is matched from some later position. */
  lemma LabelValueMember(name: Pat, v: Pat, s: string, pos: nat, ci: bool, m: Match) returns (q: nat)
    requires pos <= |s| && GroupCount(name) == 0 && m in Ends(Label(name, v), s, pos, ci)
    ensures pos <= q <= |s| && m in Ends(v, s, q, ci)
  {
    assert GroupCount(Ws) == 0 && GroupCount(Colon) == 0;
    var q1 := SkipMember(name, Seq(Ws, Seq(Colon, Seq(Ws, v))), s, pos, ci, m);
    var q2 := SkipMember(Ws, Seq(Colon, Seq(Ws, v)), s, q1, ci, m);
    var q3 := SkipMember(Colon, Seq(Ws, v), s, q2, ci, m);
    q := SkipMember(Ws, v, s, q3, ci, m);
  }

  /** A labelled amount captures text that starts with an amount. */
  lemma LabelledAmountMember(name: Pat, s: string, pos: nat, ci: bool, m: Match)
    requires pos <= |s| && GroupCount(name) == 0 && m in Ends(Label(name, Group(AmountPat)), s, pos, ci)
    ensures |m.groups| == 1 && m.groups[0].start <= m.groups[0].end <= |s|
    ensures StartsAt(s[m.groups[0].start..m.groups[0].end], 0)
  {
    var q := LabelValueMember(name, Group(AmountPat), s, pos, ci, m);
    var ma := GroupMember(AmountPat, s, q, ci, m);
    AmountPatStarts(s, q, ci, ma);
    AmountPatGroups();
    NoGroups(AmountPat, s, q, ci, ma);
    assert m.groups == [Span(q, ma.end)];
  }

  /** The one group of an amount rule holds text that starts with an amount. */
  lemma AmountRuleGroup(name: Pat, s: string, f: Found)
    requires GroupCount(name) == 0 && Search(AmountRule(name), s) == Some(f)
    ensures |f.m.groups| == 1 && StartsAt(GroupText(s, f, 0), 0)
  {
    assert AmountRule(name).pat == Label(name, Group(AmountPat));
    LabelledAmountMember(name, s, f.start, true, f.m);
  }

  /** Every net-total rule captures the text of an amount. */
  lemma NetRuleGroup(i: nat, s: string, f: Found)
    requires i < |NetTotalRules| && Search(NetTotalRules[i], s) == Some(f)
    ensures |f.m.groups| == 1 && StartsAt(GroupText(s, f, 0), 0)
  {
    if i == 0 {
      AmountRuleGroup(Lit("Subtotal"), s, f);
    } else if i == 1 {
      AmountRuleGroup(Words("Net", "Total"), s, f);
    } else {
      AmountRuleGroup(Words("Taxable", "Amount"), s, f);
    }
  }

  /** Every gross-total rule captures the text of an amount. */
  lemma GrossRuleGroup(i: nat, s: string, f: Found)
    requires i < |GrossTotalRules| && Search(GrossTotalRules[i], s) == Some(f)
    ensures |f.m.groups| == 1 && StartsAt(GroupText(s, f, 0), 0)
  {
    if i == 0 {
      TotalPayableGroup(s, f);
    } else if i == 1 {
      AmountRuleGroup(Words("Grand", "Total"), s, f);
    } else {
      AmountRuleGroup(Words("Final", "Total"), s, f);
    }
  }

  lemma TotalPayableGroup(s: string, f: Found)
    requires Search(AmountRule(TotalDueLabel), s) == Some(f)
    ensures |f.m.groups| == 1 && StartsAt(GroupText(s, f, 0), 0)
  {
    TotalDueLabelGroups();
    AmountRuleGroup(TotalDueLabel, s, f);
  }

  /** Every tax rule captures the text of an amount in its one group. */
  lemma TaxRuleGroup(i: nat, s: string, f: Found)
    requires i < |TaxAmountRules| && Search(TaxAmountRules[i], s) == Some(f)
    ensures |f.m.groups| == 1 && StartsAt(GroupText(s, f, 0), 0)
  {
    if i == 0 {
      AmountRuleGroup(GstLabel, s, f);
    } else {
      assert GroupCount(Ws) == 0;
      AmountRuleGroup(VatLabel, s, f);
    }
  }

  // What the label rules match.

  /** A single digit is a way of `AMOUNT_PATTERN`. */
  lemma AmountPatWay(s: string, q: nat, ci: bool)
    requires q < |s| && IsDigit(s[q])
    ensures Match(q + 1, []) in Ends(AmountPat, s, q, ci)
  {
    var sign := Opt(Char(OneOf("-+")));
    var groups := Star(Seq(Lit(","), Times(D, 3)));
    var frac := Opt(Seq(Lit("."), Plus(D)));
    var none := Match(q + 1, []);
    CharWay(Digit, s, q, ci);
    EmptyWay(s, q + 1, ci);
    SeqMemberComplete(D, Empty, s, q, ci, none, none);
    assert Times(D, 1) == Seq(D, Empty);
    assert UpTo(D, 2) == Alt(Seq(D, UpTo(D, 1)), Empty);
    AltRightWay(Seq(D, UpTo(D, 1)), Empty, s, q + 1, ci, none);
    SeqMemberComplete(Times(D, 1), UpTo(D, 2), s, q, ci, none, none);
    assert Between(D, 1, 3) == Seq(Times(D, 1), UpTo(D, 2));
    StarEmptyWay(Seq(Lit(","), Times(D, 3)), s, q + 1, ci);
    OptEmptyWay(Seq(Lit("."), Plus(D)), s, q + 1, ci);
    SeqMemberComplete(groups, frac, s, q + 1, ci, none, none);
    SeqMemberComplete(Between(D, 1, 3), Seq(groups, frac), s, q, ci, none, none);
    OptEmptyWay(Char(OneOf("-+")), s, q, ci);
    SeqMemberComplete(sign, Seq(Between(D, 1, 3), Seq(groups, frac)), s, q, ci, Match(q, []), none);
  }

  /** A label followed right away by its value. */
  lemma LabelWay(name: Pat, v: Pat, s: string, pos: nat, ci: bool, mn: Match, mv: Match)
    requires pos <= |s| && mn in Ends(name, s, pos, ci) && mn.end <= |s| && mv in Ends(v, s, mn.end, ci)
    ensures Match(mv.end, mn.groups + mv.groups) in Ends(Label(name, v), s, pos, ci)
  {
    var e := mn.end;
    var rest := Match(mv.end, mv.groups);
    StarEmptyWay(Char(Space), s, e, ci);
    assert [] + mv.groups == mv.groups;
    SeqMemberComplete(Ws, v, s, e, ci, Match(e, []), mv);
    OptEmptyWay(Char(OneOf(":-")), s, e, ci);
    SeqMemberComplete(Colon, Seq(Ws, v), s, e, ci, Match(e, []), rest);
    SeqMemberComplete(Ws, Seq(Colon, Seq(Ws, v)), s, e, ci, Match(e, []), rest);
    SeqMemberComplete(name, Seq(Ws, Seq(Colon, Seq(Ws, v))), s, pos, ci, mn, rest);
  }

  /** A label that a digit follows right away, with that digit as the amount. */
  lemma LabelledAmountWay(name: Pat, s: string, pos: nat, ci: bool, mn: Match) returns (m: Match)
    requires pos <= |s| && mn in Ends(name, s, pos, ci) && mn.end < |s| && IsDigit(s[mn.end])
    ensures m in Ends(Label(name, Group(AmountPat)), s, pos, ci)
  {
    var mv := AmountGroupWay(s, mn.end, ci);
    LabelWay(name, Group(AmountPat), s, pos, ci, mn, mv);
    m := Match(mv.end, mn.groups + mv.groups);
  }

  /** A digit alone is a way of the captured amount. */
  lemma AmountGroupWay(s: string, e: nat, ci: bool) returns (mv: Match)
    requires e < |s| && IsDigit(s[e])
    ensures mv in Ends(Group(AmountPat), s, e, ci)
  {
    AmountPatWay(s, e, ci);
    GroupWay(AmountPat, s, e, ci, Match(e + 1, []));
    mv := Match(e + 1, [Span(e, e + 1)] + []);
  }

  /** An amount rule finds a label that a digit follows right away. */
  lemma AmountRuleWay(name: Pat, s: string, pos: nat, mn: Match)
    requires pos <= |s| && mn in Ends(name, s, pos, true) && mn.end < |s| && IsDigit(s[mn.end])
    ensures Search(AmountRule(name), s).Some?
  {
    var m := LabelledAmountWay(name, s, pos, true, mn);
    assert AmountRule(name) == Regex(Label(name, Group(AmountPat)), true);
    SearchFinds(AmountRule(name), s, pos, m);
  }

  // Labelled fields.

  /** Why extraction stops with an exception instead of an invoice. */
  datatype ExtractError =
    /** `IndexError: no such group`: a match has fewer groups than asked for. */
    | NoSuchGroup
    /** The `ValidationError` of a line item, with its messages. */
    | InvalidLineItem(messages: seq<string>)

  /** The first line, from the `k`-th on, on which `rx` finds a match, with the match. */
  function LineHit(rx: Regex, lines: seq<string>, k: nat): (r: Option<(nat, Found)>)
    requires k <= |lines|
    ensures r.Some? ==> k <= r.value.0 < |lines| && Search(rx, lines[r.value.0]) == Some(r.value.1)
    ensures r.Some? ==> forall j :: k <= j < r.value.0 ==> Search(rx, lines[j]).None?
    ensures r.None? <==> forall j :: k <= j < |lines| ==> Search(rx, lines[j]).None?
    decreases |lines| - k
  {
    if k == |lines| then None
    else match Search(rx, lines[k])
      case Some(f) => Some((k, f))
      case None => LineHit(rx, lines, k + 1)
  }

  /** `m.groups()[-1].strip()`, or the `IndexError` of a match without groups. */
  function LastGroup(line: string, f: Found): (r: Result<Option<string>, ExtractError>)
    requires f.start <= f.m.end <= |line| && SpansIn(f.m.groups, f.start, f.m.end)
    ensures r.Failure? <==> f.m.groups == []
    ensures r.Success? ==> r.value.Some? && Strip(r.value.value) == r.value.value
  {
    if f.m.groups == [] then Failure(NoSuchGroup)
    else
      var v := Strip(GroupText(line, f, |f.m.groups| - 1));
      StripStripped(v);
      Success(Some(v))
  }

  /** `_extract_single_field` once the rules before the `i`-th have matched no line:
      the first rule that matches some line decides, on the first line it matches. */
  function FieldFrom(rules: seq<Regex>, lines: seq<string>, i: nat): Result<Option<string>, ExtractError>
    requires i <= |rules|
    decreases |rules| - i
  {
    if i == |rules| then Success(None)
    else match LineHit(rules[i], lines, 0)
      case Some((k, f)) => LastGroup(lines[k], f)
      case None => FieldFrom(rules, lines, i + 1)
  }

  /** `_extract_single_field(text, key)` with `rules` the key's entry of `LABEL_PATTERNS`. */
  function FieldOf(rules: seq<Regex>, text: string): Result<Option<string>, ExtractError> {
    FieldFrom(rules, SplitLines(text), 0)
  }

  /** `_extract_single_field`: every rule in turn, and for each rule every line in turn. */
  method ExtractSingleField(text: string, rules: seq<Regex>) returns (r: Result<Option<string>, ExtractError>)
    ensures r == FieldOf(rules, text)
  {
    var lines := SplitLines(text);
    var i := 0;
    while i < |rules|
      invariant 0 <= i <= |rules|
      invariant FieldFrom(rules, lines, 0) == FieldFrom(rules, lines, i)
    {
      var k := 0;
      while k < |lines|
        invariant 0 <= k <= |lines|
        invariant LineHit(rules[i], lines, 0) == LineHit(rules[i], lines, k)
      {
        var m := Search(rules[i], lines[k]);
        if m.Some? {
          return LastGroup(lines[k], m.value);
        }
        k := k + 1;
      }
      i := i + 1;
    }
    return Success(None);
  }

  /** Nothing is found exactly when no rule matches any line. */
  lemma {:induction false} FieldNone(rules: seq<Regex>, lines: seq<string>, i: nat)
    requires i <= |rules|
    ensures FieldFrom(rules, lines, i) == Success(None)
            <==> forall j, k :: i <= j < |rules| && 0 <= k < |lines| ==> Search(rules[j], lines[k]).None?
    decreases |rules| - i
  {
    if i < |rules| {
      var h := LineHit(rules[i], lines, 0);
      if h.Some? {
        assert FieldFrom(rules, lines, i) == LastGroup(lines[h.value.0], h.value.1);
        assert Search(rules[i], lines[h.value.0]).Some?;
      } else {
        FieldNone(rules, lines, i + 1);
        assert FieldFrom(rules, lines, i) == FieldFrom(rules, lines, i + 1);
      }
    }
  }

  /** The earliest rule that matches some line decides, on the first line it matches. */
  lemma {:induction false} FieldFirstRule(rules: seq<Regex>, lines: seq<string>, i: nat, j: nat, k: nat)
    requires i <= j < |rules| && k < |lines|
    requires forall j', k' :: i <= j' < j && 0 <= k' < |lines| ==> Search(rules[j'], lines[k']).None?
    requires Search(rules[j], lines[k]).Some? && forall k' :: 0 <= k' < k ==> Search(rules[j], lines[k']).None?
    ensures FieldFrom(rules, lines, i) == LastGroup(lines[k], Search(rules[j], lines[k]).value)
    decreases j - i
  {
    if i < j {
      assert LineHit(rules[i], lines, 0).None?;
      FieldFirstRule(rules, lines, i + 1, j, k);
    } else {
      var h := LineHit(rules[j], lines, 0);
      assert h.Some? && h.value.0 == k;
    }
  }

  /** When every rule captures something, extraction never raises, and what it finds
      is already stripped. */
  lemma {:induction false} FieldCaptured(rules: seq<Regex>, lines: seq<string>, i: nat)
    requires i <= |rules|
    requires forall j :: 0 <= j < |rules| ==> GroupCount(rules[j].pat) >= 1
    ensures FieldFrom(rules, lines, i).Success?
    ensures FieldFrom(rules, lines, i).value.Some? ==> Strip(FieldFrom(rules, lines, i).value.value) == FieldFrom(rules, lines, i).value.value
    decreases |rules| - i
  {
    if i < |rules| {
      FieldCaptured(rules, lines, i + 1);
    }
  }

  // Dates.

  /** The date a match of a date rule denotes: a four-digit first group is the year,
      and the groups are year, month, day; otherwise they are day, month, year. Nothing
      when the match does not have three groups, a part is not an integer, or there is
      no such day. */
  function DateOfMatch(s: string, f: Found): (r: Option<Date>)
    requires f.start <= f.m.end <= |s| && SpansIn(f.m.groups, f.start, f.m.end)
    ensures r.Some? ==> ValidDate(r.value)
  {
    if |f.m.groups| != 3 then None
    else
      var g0, g1, g2 := GroupText(s, f, 0), GroupText(s, f, 1), GroupText(s, f, 2);
      var (ys, ms, ds) := if |g0| == 4 then (g0, g1, g2) else (g2, g1, g0);
      match (IntOf(ys), IntOf(ms), IntOf(ds))
      case (Some(y), Some(m), Some(d)) => MakeDate(y, m, d)
      case _ => None
  }

  /** `_parse_date_from_text` once the rules before the `i`-th gave no date: the first
      rule whose first match denotes a date decides. */
  function DateFrom(rules: seq<Regex>, text: string, i: nat): (r: Option<Date>)
    requires i <= |rules|
    ensures r.Some? ==> ValidDate(r.value)
    decreases |rules| - i
  {
    if i == |rules| then None
    else
      var m := Search(rules[i], text);
      var d := if m.Some? then DateOfMatch(text, m.value) else None;
      if d.Some? then d else DateFrom(rules, text, i + 1)
  }

  /** The date `_parse_date_from_text` reads, before it is put in ISO form. */
  function DateIn(text: string): (r: Option<Date>)
    ensures r.Some? ==> ValidDate(r.value)
  {
    if text == [] then None else DateFrom(DateRules, text, 0)
  }

  /** `_parse_date_from_text`: the ISO form of the date read, which `date.fromisoformat`
      reads back as that date. */
  method ParseDateFromText(text: string) returns (r: Option<string>)
    ensures r.None? <==> DateIn(text).None?
    ensures r.Some? ==> r.value == IsoFormat(DateIn(text).value) && FromIsoFormat(r.value) == DateIn(text)
  {
    if text == [] {
      return None;
    }
    r := FirstDate(DateRules, text);
  }

  /** The loop of `_parse_date_from_text` over the date rules. */
  method FirstDate(rules: seq<Regex>, text: string) returns (r: Option<string>)
    ensures r.None? <==> DateFrom(rules, text, 0).None?
    ensures r.Some? ==> r.value == IsoFormat(DateFrom(rules, text, 0).value)
                        && FromIsoFormat(r.value) == DateFrom(rules, text, 0)
  {
    var i := 0;
    while i < |rules|
      invariant i <= |rules|
      invariant DateFrom(rules, text, i) == DateFrom(rules, text, 0)
    {
      var m := Search(rules[i], text);
      if m.Some? {
        var dt := DateOfMatch(text, m.value);
        if dt.Some? {
          IsoRoundTrip(dt.value);
          return Some(IsoFormat(dt.value));
        }
      }
      i := i + 1;
    }
    return None;
  }

  /** The middle group of a date rule captures a match of the middle part. */
  lemma DateRuleMiddle(a: Pat, sep: Pat, b: Pat, sep': Pat, c: Pat, ci: bool, s: string, pos: nat, m: Match)
    returns (q: nat, mb: Match)
    requires GroupCount(a) == 0 && GroupCount(sep) == 0 && GroupCount(b) == 0
    requires GroupCount(sep') == 0 && GroupCount(c) == 0
    requires pos <= |s| && m in Ends(DateRule(a, sep, b, sep', c, ci).pat, s, pos, ci)
    ensures q <= |s| && mb in Ends(b, s, q, ci)
    ensures |m.groups| == 3 && m.groups[1] == Span(q, mb.end)
  {
    var tail := Seq(Group(c), WordBoundary);
    var mid := Seq(Group(b), Seq(sep', tail));
    var front := Seq(Group(a), Seq(sep, mid));
    assert DateRule(a, sep, b, sep', c, ci).pat == Seq(WordBoundary, front);
    var q0 := SkipMember(WordBoundary, front, s, pos, ci, m);
    var ga, mx := SeqSplit(Group(a), Seq(sep, mid), s, q0, ci, m);
    FirstGroupOnly(a, s, q0, ci, ga);
    var q1 := SkipMember(sep, mid, s, ga.end, ci, mx);
    q, mb := LeadingGroup(b, Seq(sep', tail), s, q1, ci, mx);
  }

  /** A group around a pattern without groups reports exactly one span. */
  lemma FirstGroupOnly(a: Pat, s: string, pos: nat, ci: bool, m: Match)
    requires pos <= |s| && GroupCount(a) == 0 && m in Ends(Group(a), s, pos, ci)
    ensures |m.groups| == 1
  {
    var ma := GroupMember(a, s, pos, ci, m);
    NoGroups(a, s, pos, ci, ma);
  }

  /** The first group of `(b)rest`, when `b` has no groups of its own, is a way of `b`. */
  lemma LeadingGroup(b: Pat, rest: Pat, s: string, pos: nat, ci: bool, m: Match) returns (q: nat, mb: Match)
    requires pos <= |s| && GroupCount(b) == 0 && m in Ends(Seq(Group(b), rest), s, pos, ci)
    ensures q <= |s| && mb in Ends(b, s, q, ci)
    ensures |m.groups| >= 1 && m.groups[0] == Span(q, mb.end)
  {
    var gb, my := SeqSplit(Group(b), rest, s, pos, ci, m);
    mb := GroupMember(b, s, pos, ci, gb);
    NoGroups(b, s, pos, ci, mb);
    assert gb.groups == [Span(pos, mb.end)];
    q := pos;
  }

  /** Literals, or alternatives of literals, that all begin with a letter. */
  predicate LetterWords(p: Pat) {
    match p
    case Lit(w) => w != [] && IsLetter(w[0])
    case Alt(a, b) => LetterWords(a) && LetterWords(b)
    case _ => false
  }

  /** Whatever such a pattern matches begins with a letter. */
  lemma {:induction false} LetterWordsMember(p: Pat, s: string, q: nat, ci: bool, m: Match)
    requires LetterWords(p) && q <= |s| && m in Ends(p, s, q, ci)
    ensures q < m.end && IsLetter(s[q])
  {
    match p
    case Lit(w) =>
      LitMember(w, s, q, ci, m);
      assert CharEq(s[q + 0], w[0], ci);
    case Alt(a, b) =>
      AltMember(a, b, s, q, ci, m);
      if ma :| ma in Ends(a, s, q, ci) && ma.end == m.end {
        LetterWordsMember(a, s, q, ci, ma);
      } else {
        var mb :| mb in Ends(b, s, q, ci) && mb.end == m.end;
        LetterWordsMember(b, s, q, ci, mb);
      }
  }

  lemma MonthNamesLetters()
    ensures LetterWords(MonthNames)
  {
    var later := Alt(Lit("Jul"), Alt(Lit("Aug"), Alt(Lit("Sep"), Alt(Lit("Oct"), Alt(Lit("Nov"), Lit("Dec"))))));
    assert LetterWords(later);
    assert LetterWords(Alt(Lit("Jan"), Alt(Lit("Feb"), Alt(Lit("Mar"), Alt(Lit("Apr"), Alt(Lit("May"), Alt(Lit("Jun"), later)))))));
  }

  /** A date rule whose middle part begins with a letter never gives a date. */
  lemma LetterMiddleNoDate(a: Pat, sep: Pat, b: Pat, sep': Pat, c: Pat, ci: bool, s: string, f: Found)
    requires GroupCount(a) == 0 && GroupCount(sep) == 0 && GroupCount(b) == 0
    requires GroupCount(sep') == 0 && GroupCount(c) == 0 && LetterWords(b)
    requires Search(DateRule(a, sep, b, sep', c, ci), s) == Some(f)
    ensures DateOfMatch(s, f) == None
  {
    var q, mb := DateRuleMiddle(a, sep, b, sep', c, ci, s, f.start, f.m);
    LetterWordsMember(b, s, q, ci, mb);
    var month := GroupText(s, f, 1);
    assert month == s[q..mb.end];
    assert month[0] == s[q];
    StripKeepsFirst(month);
    IntOfLetter(month);
  }

  /** The month-name rule never gives a date: its month is a name, which `int()`
      refuses. */
  lemma MonthRuleNoDate(s: string, f: Found)
    requires Search(MonthNameRule, s) == Some(f)
    ensures DateOfMatch(s, f) == None
  {
    var sep' := Seq(Star(Char(Range('a', 'z'))), Plus(Char(Space)));
    assert GroupCount(Between(D, 1, 2)) == 0 && GroupCount(Times(D, 4)) == 0;
    assert GroupCount(Plus(Char(Space))) == 0 && GroupCount(sep') == 0;
    MonthNamesLetters();
    LetterMiddleNoDate(Between(D, 1, 2), Plus(Char(Space)), MonthNames, sep', Times(D, 4), true, s, f);
  }

  /** Only the first two date rules can give a date. */
  lemma DateFromFirstTwo(text: string)
    ensures DateFrom(DateRules, text, 2) == None
  {
    assert DateRules[2] == MonthNameRule;
    var m := Search(MonthNameRule, text);
    if m.Some? {
      MonthRuleNoDate(text, m.value);
    }
  }

  // Currency.

  /** `re.compile(rf"\b{cur}\b")`: the code as a whole word, matching case. */
  function WordRegex(w: string): Regex {
    Regex(Seq(WordBoundary, Seq(Lit(w), WordBoundary)), false)
  }

  /** `w` occurs at `q` with no word character just before or just after it. */
  predicate WholeWordAt(w: string, s: string, q: nat) {
    q + |w| <= |s| && s[q..q + |w|] == w && AtWordBoundary(s, q) && AtWordBoundary(s, q + |w|)
  }

  predicate WordIn(w: string, s: string) {
    exists q :: 0 <= q <= |s| && WholeWordAt(w, s, q)
  }

  lemma WordRegexAt(w: string, s: string, q: nat)
    requires q <= |s|
    ensures Ends(WordRegex(w).pat, s, q, false) != [] <==> WholeWordAt(w, s, q)
  {
    SeqNonEmpty(WordBoundary, Seq(Lit(w), WordBoundary), s, q, false);
    if AtWordBoundary(s, q) {
      assert Ends(WordBoundary, s, q, false) == [Match(q, [])];
      WordThenBoundary(w, s, q);
    }
  }

  /** `w\b` matches at `q` exactly when `w` stands there and a word boundary follows it. */
  lemma WordThenBoundary(w: string, s: string, q: nat)
    requires q <= |s|
    ensures Ends(Seq(Lit(w), WordBoundary), s, q, false) != []
            <==> q + |w| <= |s| && s[q..q + |w|] == w && AtWordBoundary(s, q + |w|)
  {
    SeqNonEmpty(Lit(w), WordBoundary, s, q, false);
    LitSlice(w, s, q);
    if LitAt(w, s, q, false) {
      assert Ends(Lit(w), s, q, false) == [Match(q + |w|, [])];
    }
  }

  /** A case-sensitive literal matches exactly where the text holds it. */
  lemma LitSlice(w: string, s: string, q: nat)
    requires q <= |s|
    ensures LitAt(w, s, q, false) <==> q + |w| <= |s| && s[q..q + |w|] == w
  {
    if LitAt(w, s, q, false) {
      assert s[q..q + |w|] == w;
    } else if q + |w| <= |s| {
      var i :| 0 <= i < |w| && s[q + i] != w[i];
      assert s[q..q + |w|][i] != w[i];
    }
  }

  /** The search for a code succeeds exactly when the code occurs as a whole word. */
  lemma WordFound(w: string, s: string)
    ensures Search(WordRegex(w), s).Some? <==> WordIn(w, s)
  {
    var m := Search(WordRegex(w), s);
    if m.Some? {
      WordRegexAt(w, s, m.value.start);
    } else {
      forall q | 0 <= q <= |s|
        ensures !WholeWordAt(w, s, q)
      {
        WordRegexAt(w, s, q);
      }
    }
  }

  /** What `_guess_currency` may return: the labelled code, upper-cased, when it is an
      accepted one; otherwise some accepted code that occurs as a whole word, in an
      order Python's `set` leaves open, or nothing when none occurs. */
  predicate CurrencyGuess(text: string, r: Result<Option<string>, ExtractError>) {
    var field := FieldOf(CurrencyRules, text);
    if field.Failure? then r == Failure(field.error)
    else if field.value.Some? && field.value.value != [] && Upper(field.value.value) in AllowedCurrencies then
      r == Success(Some(Upper(field.value.value)))
    else
      && r.Success?
      && (r.value.None? <==> forall c :: c in AllowedCurrencies ==> !WordIn(c, text))
      && (r.value.Some? ==> r.value.value in AllowedCurrencies && WordIn(r.value.value, text))
  }

  /** `_guess_currency`: the accepted codes are tried in the set's iteration order. */
  method GuessCurrency(text: string) returns (r: Result<Option<string>, ExtractError>)
    ensures CurrencyGuess(text, r)
  {
    var val := ExtractSingleField(text, CurrencyRules);
    if val.Failure? {
      return Failure(val.error);
    }
    if val.value.Some? && val.value.value != [] && Upper(val.value.value) in AllowedCurrencies {
      return Success(Some(Upper(val.value.value)));
    }
    var rest := AllowedCurrencies;
    while rest != {}
      invariant rest <= AllowedCurrencies
      invariant forall c :: c in AllowedCurrencies - rest ==> !WordIn(c, text)
      decreases |rest|
    {
      var cur :| cur in rest;
      var m := Search(WordRegex(cur), text);
      WordFound(cur, text);
      if m.Some? {
        return Success(Some(cur));
      }
      rest := rest - {cur};
    }
    return Success(None);
  }

  /** A guess is always an accepted code, and the guess never raises. */
  lemma CurrencyGuessAccepted(text: string, r: Result<Option<string>, ExtractError>)
    requires CurrencyGuess(text, r)
    ensures r.Success?
    ensures r.value.Some? ==> r.value.value in AllowedCurrencies
  {
    CurrencyRulesGroups();
    FieldCaptured(CurrencyRules, SplitLines(text), 0);
  }

  // Totals.

  /** `m.group(g)`: the whole match for 0, the `g`-th group otherwise. */
  function MatchGroup(s: string, f: Found, g: nat): string
    requires f.start <= f.m.end <= |s| && SpansIn(f.m.groups, f.start, f.m.end)
    requires g <= |f.m.groups|
  {
    if g == 0 then MatchText(s, f) else GroupText(s, f, g - 1)
  }

  /** A match found in `s`, with its groups inside it. */
  predicate FoundIn(f: Found, s: string) {
    f.start <= f.m.end <= |s| && SpansIn(f.m.groups, f.start, f.m.end)
  }

  /** Search results that all lie inside `s`. */
  predicate HitsIn(hits: seq<Option<Found>>, s: string) {
    forall k :: 0 <= k < |hits| && hits[k].Some? ==> FoundIn(hits[k].value, s)
  }

  /** What searching the text for each rule gives, in rule order. */
  function Hits(rules: seq<Regex>, text: string): (r: seq<Option<Found>>)
    ensures |r| == |rules| && forall k :: 0 <= k < |rules| ==> r[k] == Search(rules[k], text)
    ensures HitsIn(r, text)
  {
    seq(|rules|, k requires 0 <= k < |rules| => Search(rules[k], text))
  }

  /** The loop over the search results from the `i`-th on: the first match whose group
      `g` reads as an amount decides, and a match without group `g` raises. */
  function AmountOf(hits: seq<Option<Found>>, text: string, g: nat, i: nat): Result<Option<real>, ExtractError>
    requires i <= |hits| && HitsIn(hits, text)
    decreases |hits| - i
  {
    if i == |hits| then Success(None)
    else match hits[i]
      case None => AmountOf(hits, text, g, i + 1)
      case Some(f) =>
        if g > |f.m.groups| then Failure(NoSuchGroup)
        else
          var v := ParseAmount(MatchGroup(text, f, g));
          if v.Some? then Success(v) else AmountOf(hits, text, g, i + 1)
  }

  /** The loop of `parse_raw_invoice` over a total's rules, once the rules before the
      `i`-th gave nothing: each rule is searched for in the whole text, and the first
      match whose group `g` reads as an amount decides. */
  function AmountFrom(rules: seq<Regex>, text: string, g: nat, i: nat): Result<Option<real>, ExtractError>
    requires i <= |rules|
  {
    AmountOf(Hits(rules, text), text, g, i)
  }

  /** One of the three total loops of `parse_raw_invoice`, reading group `g`. */
  method LabelledAmount(text: string, rules: seq<Regex>, g: nat) returns (r: Result<Option<real>, ExtractError>)
    ensures r == AmountFrom(rules, text, g, 0)
  {
    ghost var hits := Hits(rules, text);
    var amount: Option<real> := None;
    var i := 0;
    while i < |rules|
      invariant i <= |rules|
      invariant AmountOf(hits, text, g, 0) == AmountOf(hits, text, g, i)
      invariant amount == None
    {
      var m := Search(rules[i], text);
      assert hits[i] == m;
      if m.Some? {
        if g > |m.value.m.groups| {
          return Failure(NoSuchGroup);
        }
        amount := ParseAmount(MatchGroup(text, m.value, g));
        if amount.Some? {
          return Success(amount);
        }
      }
      i := i + 1;
    }
    return Success(amount);
  }

  /** In `s`, the first group of every rule that matches holds text that starts with an amount. */
  predicate CaptureAmounts(rules: seq<Regex>, s: string) {
    forall i :: 0 <= i < |rules| && Search(rules[i], s).Some? ==>
      |Search(rules[i], s).value.m.groups| >= 1 && StartsAt(GroupText(s, Search(rules[i], s).value, 0), 0)
  }

  /** Every match among the results captures, in its first group, text that starts with an amount. */
  predicate CaptureAll(hits: seq<Option<Found>>, s: string) {
    HitsIn(hits, s)
    && forall k :: 0 <= k < |hits| && hits[k].Some? ==>
         |hits[k].value.m.groups| >= 1 && StartsAt(GroupText(s, hits[k].value, 0), 0)
  }

  lemma CaptureHits(rules: seq<Regex>, s: string)
    requires CaptureAmounts(rules, s)
    ensures CaptureAll(Hits(rules, s), s)
  {
    var hits := Hits(rules, s);
    forall k | 0 <= k < |hits| && hits[k].Some?
      ensures |hits[k].value.m.groups| >= 1 && StartsAt(GroupText(s, hits[k].value, 0), 0)
    {
      assert hits[k] == Search(rules[k], s);
    }
  }

  /** A rule whose match captures an amount gives that amount; a rule that does not match
      passes on to the next. */
  lemma AmountStep(rules: seq<Regex>, text: string, i: nat)
    requires i < |rules| && CaptureAmounts(rules, text)
    ensures Search(rules[i], text).None? ==> AmountFrom(rules, text, 1, i) == AmountFrom(rules, text, 1, i + 1)
    ensures Search(rules[i], text).Some? ==>
              AmountFrom(rules, text, 1, i) == Success(ParseAmount(GroupText(text, Search(rules[i], text).value, 0)))
    ensures Search(rules[i], text).Some? ==> ParseAmount(GroupText(text, Search(rules[i], text).value, 0)).Some?
  {
    var hits := Hits(rules, text);
    assert hits[i] == Search(rules[i], text);
    if hits[i].Some? {
      HitAmount(text, hits[i].value);
    }
  }

  /** Over results that all capture an amount: reading group 1 never raises, and the
      result is empty exactly when nothing matched. */
  lemma {:induction false} HitsDecide(hits: seq<Option<Found>>, text: string, i: nat)
    requires i <= |hits| && CaptureAll(hits, text)
    ensures AmountOf(hits, text, 1, i).Success?
    ensures AmountOf(hits, text, 1, i).value.None? <==> forall j :: i <= j < |hits| ==> hits[j].None?
    decreases |hits| - i
  {
    if i < |hits| {
      if hits[i].Some? {
        HitAmount(text, hits[i].value);
      } else {
        HitsDecide(hits, text, i + 1);
      }
    }
  }

  /** The first match decides, when it captures an amount. */
  lemma HitsFirst(hits: seq<Option<Found>>, text: string, i: nat, j: nat, f: Found)
    requires i <= j < |hits| && HitsIn(hits, text) && hits[j] == Some(f)
    requires |f.m.groups| >= 1 && StartsAt(GroupText(text, f, 0), 0)
    requires forall k :: i <= k < j ==> hits[k].None?
    ensures AmountOf(hits, text, 1, i) == Success(ParseAmount(GroupText(text, f, 0)))
  {
    HitsSkip(hits, text, 1, i, j);
    HitAmount(text, f);
  }

  /** Results that are not matches are passed over. */
  lemma {:induction false} HitsSkip(hits: seq<Option<Found>>, text: string, g: nat, i: nat, j: nat)
    requires i <= j <= |hits| && HitsIn(hits, text)
    requires forall k :: i <= k < j ==> hits[k].None?
    ensures AmountOf(hits, text, g, i) == AmountOf(hits, text, g, j)
    decreases j - i
  {
    if i < j {
      HitsSkip(hits, text, g, i + 1, j);
    }
  }

  /** Group 1 of a match that captures an amount reads as a number. */
  lemma HitAmount(text: string, f: Found)
    requires FoundIn(f, text) && |f.m.groups| >= 1 && StartsAt(GroupText(text, f, 0), 0)
    ensures MatchGroup(text, f, 1) == GroupText(text, f, 0)
    ensures ParseAmount(GroupText(text, f, 0)).Some?
  {
    ParseAmountSome(GroupText(text, f, 0));
  }

  /** Over results with one group each, asking for group 2 raises at the first match. */
  lemma {:induction false} HitsSecond(hits: seq<Option<Found>>, text: string, i: nat)
    requires i <= |hits| && HitsIn(hits, text)
    requires forall k :: 0 <= k < |hits| && hits[k].Some? ==> |hits[k].value.m.groups| == 1
    ensures AmountOf(hits, text, 2, i)
            == if exists j :: i <= j < |hits| && hits[j].Some? then Failure(NoSuchGroup) else Success(None)
    decreases |hits| - i
  {
    if i < |hits| {
      HitsSecond(hits, text, i + 1);
    }
  }

  /** For such rules, reading group 1 never raises; an amount is found exactly when some
      rule matches, and the first rule that matches decides. */
  lemma FirstAmountDecides(rules: seq<Regex>, text: string, i: nat)
    requires i <= |rules| && CaptureAmounts(rules, text)
    ensures AmountFrom(rules, text, 1, i).Success?
    ensures AmountFrom(rules, text, 1, i).value.None? <==> forall j :: i <= j < |rules| ==> Search(rules[j], text).None?
  {
    CaptureHits(rules, text);
    HitsDecide(Hits(rules, text), text, i);
  }

  /** The first rule that matches decides. */
  lemma FirstAmountRule(rules: seq<Regex>, text: string, i: nat, j: nat, f: Found)
    requires i <= j < |rules| && Search(rules[j], text) == Some(f)
    requires |f.m.groups| >= 1 && StartsAt(GroupText(text, f, 0), 0)
    requires forall k :: i <= k < j ==> Search(rules[k], text).None?
    ensures AmountFrom(rules, text, 1, i) == Success(ParseAmount(GroupText(text, f, 0)))
  {
    HitsFirst(Hits(rules, text), text, i, j, f);
  }

  /** Rules with one group each raise as soon as one of them matches when asked for the
      second group, and find nothing otherwise. */
  lemma SecondGroupRaises(rules: seq<Regex>, text: string, i: nat)
    requires i <= |rules| && RulesCapture(rules, 1)
    ensures AmountFrom(rules, text, 2, i)
            == if exists j :: i <= j < |rules| && Search(rules[j], text).Some? then Failure(NoSuchGroup)
               else Success(None)
  {
    var hits := Hits(rules, text);
    forall k | 0 <= k < |hits| && hits[k].Some?
      ensures |hits[k].value.m.groups| == 1
    {
      assert hits[k] == Search(rules[k], text);
    }
    HitsSecond(hits, text, i);
  }

  lemma NetRulesCaptureAmounts(s: string)
    ensures CaptureAmounts(NetTotalRules, s)
  {
    forall i | 0 <= i < |NetTotalRules| && Search(NetTotalRules[i], s).Some?
      ensures |Search(NetTotalRules[i], s).value.m.groups| >= 1
              && StartsAt(GroupText(s, Search(NetTotalRules[i], s).value, 0), 0)
    {
      NetRuleGroup(i, s, Search(NetTotalRules[i], s).value);
    }
  }

  lemma GrossRulesCaptureAmounts(s: string)
    ensures CaptureAmounts(GrossTotalRules, s)
  {
    forall i | 0 <= i < |GrossTotalRules| && Search(GrossTotalRules[i], s).Some?
      ensures |Search(GrossTotalRules[i], s).value.m.groups| >= 1
              && StartsAt(GroupText(s, Search(GrossTotalRules[i], s).value, 0), 0)
    {
      GrossRuleGroup(i, s, Search(GrossTotalRules[i], s).value);
    }
  }

  // The line-item table.

  /** Two whitespace characters start at `k`. */
  predicate RunAt(s: string, k: nat) {
    k + 1 < |s| && IsSpace(s[k]) && IsSpace(s[k + 1])
  }

  /** The first `k` from `i` at which two whitespace characters start, or `|s|`. */
  function FirstRun(s: string, i: nat): (k: nat)
    requires i <= |s|
    ensures i <= k <= |s| && (k < |s| ==> RunAt(s, k))
    ensures forall j :: i <= j < k ==> !RunAt(s, j)
    decreases |s| - i
  {
    if i == |s| then |s| else if RunAt(s, i) then i else FirstRun(s, i + 1)
  }

  /** The end of the whitespace from `k`. */
  function SpaceEnd(s: string, k: nat): (e: nat)
    requires k <= |s|
    ensures k <= e <= |s| && (e < |s| ==> !IsSpace(s[e]))
    ensures forall j :: k <= j < e ==> IsSpace(s[j])
    decreases |s| - k
  {
    if k < |s| && IsSpace(s[k]) then SpaceEnd(s, k + 1) else k
  }

  /** `re.split(r"\s{2,}", s)`: the pieces between the runs of two or more whitespace
      characters, each run taken as long as it goes. */
  function SplitRuns(s: string): (r: seq<string>)
    ensures |r| >= 1
    decreases |s|
  {
    var k := FirstRun(s, 0);
    if k == |s| then [s] else [s[..k]] + SplitRuns(s[SpaceEnd(s, k)..])
  }

  /** A column of a table row: text without whitespace at its ends and without two
      whitespace characters in a row. */
  predicate Column(c: string) {
    c != [] && !IsSpace(c[0]) && !IsSpace(c[|c| - 1]) && forall j :: 0 <= j < |c| ==> !RunAt(c, j)
  }

  /** The columns written out with two spaces between them. */
  function JoinColumns(cs: seq<string>): string
    requires cs != []
  {
    if |cs| == 1 then cs[0] else cs[0] + "  " + JoinColumns(cs[1..])
  }

  lemma {:induction false} JoinColumnsStarts(cs: seq<string>)
    requires cs != [] && cs[0] != []
    ensures JoinColumns(cs) != [] && JoinColumns(cs)[0] == cs[0][0]
  {
    if |cs| > 1 {
      assert (cs[0] + "  " + JoinColumns(cs[1..]))[0] == cs[0][0];
    }
  }

  /** Splitting columns written out with two spaces between them gives the columns back. */
  lemma {:induction false} SplitJoinColumns(cs: seq<string>)
    requires cs != [] && forall i :: 0 <= i < |cs| ==> Column(cs[i])
    ensures SplitRuns(JoinColumns(cs)) == cs
    decreases |cs|
  {
    var c := cs[0];
    if |cs| == 1 {
      assert FirstRun(c, 0) == |c|;
    } else {
      var rest := JoinColumns(cs[1..]);
      var s := c + "  " + rest;
      assert forall i :: 0 <= i < |cs[1..]| ==> Column(cs[1..][i]);
      assert Column(cs[1..][0]);
      JoinColumnsStarts(cs[1..]);
      forall j | 0 <= j < |c|
        ensures !RunAt(s, j)
      {
        if j + 1 < |c| {
          assert !RunAt(c, j);
        }
      }
      assert RunAt(s, |c|);
      assert FirstRun(s, 0) == |c| by { FirstRunAt(s, 0, |c|); }
      assert s[|c| + 2] == rest[0];
      assert SpaceEnd(s, |c|) == |c| + 2 by {
        assert SpaceEnd(s, |c| + 2) == |c| + 2;
      }
      assert s[..|c|] == c;
      assert s[|c| + 2..] == rest;
      SplitJoinColumns(cs[1..]);
    }
  }

  /** `FirstRun` finds the first run when there is no earlier one. */
  lemma {:induction false} FirstRunAt(s: string, i: nat, k: nat)
    requires i <= k < |s| && RunAt(s, k) && forall j :: i <= j < k ==> !RunAt(s, j)
    ensures FirstRun(s, i) == k
    decreases k - i
  {
    if i < k {
      FirstRunAt(s, i + 1, k);
    }
  }

  /** `[l for l in lines if l.strip()]` */
  function NonBlank(lines: seq<string>): (r: seq<string>)
    ensures forall i :: 0 <= i < |r| ==> Strip(r[i]) != []
    ensures |r| <= |lines|
  {
    if lines == [] then []
    else (if Strip(lines[0]) != [] then [lines[0]] else []) + NonBlank(lines[1..])
  }

  /** A single line is kept exactly when it holds a non-whitespace character. */
  lemma NonBlankSingle(l: string)
    ensures NonBlank([l]) == if AllSpace(l) then [] else [l]
  {
    StripEmpty(l);
    assert [l][1..] == [];
  }

  /** The filter works line by line, so the kept lines keep their order. */
  lemma {:induction false} NonBlankAppend(a: seq<string>, b: seq<string>)
    ensures NonBlank(a + b) == NonBlank(a) + NonBlank(b)
    decreases |a|
  {
    if a == [] {
      assert a + b == b;
    } else {
      var head := if Strip(a[0]) != [] then [a[0]] else [];
      ConsAppend(a, b);
      NonBlankAppend(a[1..], b);
      Reassoc(head, NonBlank(a[1..]), NonBlank(b));
    }
  }

  /** The kept lines are exactly the input lines with a non-whitespace character. */
  lemma {:induction false} NonBlankKeeps(lines: seq<string>)
    ensures forall l :: l in NonBlank(lines) <==> l in lines && !AllSpace(l)
    decreases |lines|
  {
    if lines != [] {
      NonBlankKeeps(lines[1..]);
      NonBlankSingle(lines[0]);
      NonBlankAppend([lines[0]], lines[1..]);
      assert lines == [lines[0]] + lines[1..];
    }
  }

  /** The header row names a description and a quantity column, in any case. */
  predicate IsHeader(line: string) {
    var low := Lower(line);
    Contains(low, "description") && (Contains(low, "qty") || Contains(low, "quantity"))
  }

  /** The row that ends the table mentions a grand total, in any case. */
  predicate IsGrandTotal(line: string) {
    var low := Lower(line);
    Contains(low, "grand") && Contains(low, "total")
  }

  /** The index of the first header row from `i` on. */
  function HeaderFrom(lines: seq<string>, i: nat): (r: Option<nat>)
    requires i <= |lines|
    ensures r.Some? ==> i <= r.value < |lines| && IsHeader(lines[r.value])
    ensures r.Some? ==> forall j :: i <= j < r.value ==> !IsHeader(lines[j])
    ensures r.None? <==> forall j :: i <= j < |lines| ==> !IsHeader(lines[j])
    decreases |lines| - i
  {
    if i == |lines| then None else if IsHeader(lines[i]) then Some(i) else HeaderFrom(lines, i + 1)
  }

  /** The amount in column `i`, if the row has that many columns. */
  function ColumnAmount(parts: seq<string>, i: nat): Option<real> {
    if |parts| > i then ParseAmount(parts[i]) else None
  }

  /** One table row: description, quantity, unit price and line total, in that order;
      further columns are ignored. */
  function RowItem(line: string): Result<LineItem, seq<string>> {
    var parts := SplitRuns(Strip(line));
    NewLineItem(parts[0], ColumnAmount(parts, 1), ColumnAmount(parts, 2), ColumnAmount(parts, 3))
  }

  /** The items `read` gives for the rows from the `j`-th one up to the grand-total row,
      or the error of the first row it refuses. */
  function RowsFrom<T, E>(read: string -> Result<T, E>, lines: seq<string>, j: nat): Result<seq<T>, E>
    requires j <= |lines|
    decreases |lines| - j
  {
    if j == |lines| || IsGrandTotal(lines[j]) then Success([])
    else match read(lines[j])
      case Failure(e) => Failure(e)
      case Success(item) =>
        match RowsFrom(read, lines, j + 1)
        case Failure(e) => Failure(e)
        case Success(items) => Success([item] + items)
  }

  /** `_extract_line_items`: nothing without a header row; otherwise the rows after it. */
  function LineItemsOf(text: string): Result<seq<LineItem>, ExtractError> {
    TableItems(NonBlank(SplitLines(text)))
  }

  /** The table read from the non-blank lines of a document. */
  function TableItems(lines: seq<string>): Result<seq<LineItem>, ExtractError> {
    match HeaderFrom(lines, 0)
    case None => Success([])
    case Some(h) =>
      match RowsFrom(RowItem, lines, h + 1)
      case Success(items) => Success(items)
      case Failure(e) => Failure(InvalidLineItem(e))
  }

  /** Rows already read, in front of what the remaining rows give. */
  function Prepend<T, E>(items: seq<T>, rest: Result<seq<T>, E>): (r: Result<seq<T>, E>)
    ensures items == [] ==> r == rest
  {
    match rest
    case Success(more) => assert [] + more == more; Success(items + more)
    case Failure(e) => Failure(e)
  }

  /** `_extract_line_items`: the non-blank lines, the header row among them, then the
      rows after it. */
  method ExtractLineItems(text: string) returns (r: Result<seq<LineItem>, ExtractError>)
    ensures r == LineItemsOf(text)
  {
    var lines := NonBlank(SplitLines(text));
    r := ReadTable(lines);
  }

  /** The table after the header row, if there is one. */
  method ReadTable(lines: seq<string>) returns (r: Result<seq<LineItem>, ExtractError>)
    ensures r == TableItems(lines)
  {
    var header := FindHeader(lines);
    if header.None? {
      return Success([]);
    }
    var rows := ReadRows(lines, header.value + 1);
    if rows.Failure? {
      return Failure(InvalidLineItem(rows.error));
    }
    return Success(rows.value);
  }

  /** The loop of `_extract_line_items` that looks for the header row. */
  method FindHeader(lines: seq<string>) returns (header: Option<nat>)
    ensures header == HeaderFrom(lines, 0)
  {
    header := None;
    var i := 0;
    while i < |lines|
      invariant i <= |lines|
      invariant HeaderFrom(lines, 0) == HeaderFrom(lines, i)
    {
      if IsHeader(lines[i]) {
        header := Some(i);
        return;
      }
      i := i + 1;
    }
  }

  /** The loop of `_extract_line_items` over the rows after the header. */
  method ReadRows(lines: seq<string>, start: nat) returns (r: Result<seq<LineItem>, seq<string>>)
    requires start <= |lines|
    ensures r == RowsFrom(RowItem, lines, start)
  {
    var items: seq<LineItem> := [];
    var j := start;
    while j < |lines|
      invariant start <= j <= |lines|
      invariant RowsFrom(RowItem, lines, start) == Prepend(items, RowsFrom(RowItem, lines, j))
    {
      if IsGrandTotal(lines[j]) {
        break;
      }
      var item := RowItem(lines[j]);
      RowsStep(RowItem, lines, j, items);
      if item.Failure? {
        return Failure(item.error);
      }
      items := items + [item.value];
      j := j + 1;
    }
    RowsStop(RowItem, lines, j, items);
    return Success(items);
  }

  /** At the grand-total row or the end, the rows read so far are all there is. */
  lemma RowsStop<T, E>(read: string -> Result<T, E>, lines: seq<string>, j: nat, items: seq<T>)
    requires j <= |lines| && (j == |lines| || IsGrandTotal(lines[j]))
    ensures Prepend(items, RowsFrom(read, lines, j)) == Success(items)
  {
    assert items + [] == items;
  }

  /** Reading one more row. */
  lemma RowsStep<T, E>(read: string -> Result<T, E>, lines: seq<string>, j: nat, items: seq<T>)
    requires j < |lines| && !IsGrandTotal(lines[j])
    ensures read(lines[j]).Failure? ==> Prepend(items, RowsFrom(read, lines, j)) == Failure(read(lines[j]).error)
    ensures read(lines[j]).Success? ==>
              Prepend(items, RowsFrom(read, lines, j)) == Prepend(items + [read(lines[j]).value], RowsFrom(read, lines, j + 1))
  {
    if read(lines[j]).Success? {
      var item := read(lines[j]).value;
      match RowsFrom(read, lines, j + 1)
      case Success(more) =>
        assert items + ([item] + more) == items + [item] + more;
      case Failure(e) =>
    }
  }

  /** Where the table ends: the first grand-total row from `j` on, or the end. */
  function TableEnd(lines: seq<string>, j: nat): (e: nat)
    requires j <= |lines|
    ensures j <= e <= |lines| && (e < |lines| ==> IsGrandTotal(lines[e]))
    ensures forall k :: j <= k < e ==> !IsGrandTotal(lines[k])
    decreases |lines| - j
  {
    if j == |lines| || IsGrandTotal(lines[j]) then j else TableEnd(lines, j + 1)
  }

  /** The rows give one item per row up to the table's end, each what `read` gives for
      its row, unless `read` refuses one of those rows. */
  lemma {:induction false} RowsSpec<T, E>(read: string -> Result<T, E>, lines: seq<string>, j: nat)
    requires j <= |lines|
    ensures RowsFrom(read, lines, j).Failure? <==> exists k :: j <= k < TableEnd(lines, j) && read(lines[k]).Failure?
    ensures RowsFrom(read, lines, j).Success? ==>
              |RowsFrom(read, lines, j).value| == TableEnd(lines, j) - j
              && forall k :: 0 <= k < |RowsFrom(read, lines, j).value| ==> read(lines[j + k]) == Success(RowsFrom(read, lines, j).value[k])
    decreases |lines| - j
  {
    if j < |lines| && !IsGrandTotal(lines[j]) {
      RowsSpec(read, lines, j + 1);
      var rest := RowsFrom(read, lines, j + 1);
      if read(lines[j]).Success? && rest.Success? {
        var items := [read(lines[j]).value] + rest.value;
        assert RowsFrom(read, lines, j) == Success(items);
        forall k | 0 <= k < |items|
          ensures read(lines[j + k]) == Success(items[k])
        {
          if k > 0 {
            assert items[k] == rest.value[k - 1];
          }
        }
      }
    }
  }

  /** A line written as columns with two spaces between them is read column by column. */
  lemma RowOfColumns(cs: seq<string>)
    requires cs != [] && forall i :: 0 <= i < |cs| ==> Column(cs[i])
    ensures RowItem(JoinColumns(cs)) == NewLineItem(cs[0], ColumnAmount(cs, 1), ColumnAmount(cs, 2), ColumnAmount(cs, 3))
  {
    var line := JoinColumns(cs);
    JoinColumnsStarts(cs);
    JoinColumnsEnds(cs);
    StripStripped(line);
    SplitJoinColumns(cs);
  }

  lemma {:induction false} JoinColumnsEnds(cs: seq<string>)
    requires cs != [] && cs[|cs| - 1] != []
    ensures JoinColumns(cs) != [] && JoinColumns(cs)[|JoinColumns(cs)| - 1] == cs[|cs| - 1][|cs[|cs| - 1]| - 1]
    decreases |cs|
  {
    if |cs| > 1 {
      assert cs[1..][|cs[1..]| - 1] == cs[|cs| - 1];
      JoinColumnsEnds(cs[1..]);
    }
  }

  /** Without a header row there are no line items. */
  lemma LineItemsWithoutHeader(text: string)
    requires HeaderFrom(NonBlank(SplitLines(text)), 0).None?
    ensures LineItemsOf(text) == Success([])
  {
  }

  /** With a header row, reading the table raises exactly when one of the rows between
      the header and the grand-total row (or the end) does not validate. */
  lemma LineItemsFailure(text: string)
    requires HeaderFrom(NonBlank(SplitLines(text)), 0).Some?
    ensures var lines := NonBlank(SplitLines(text));
            var start := HeaderFrom(lines, 0).value + 1;
            LineItemsOf(text).Failure? <==> exists k :: start <= k < TableEnd(lines, start) && RowItem(lines[k]).Failure?
  {
    var lines := NonBlank(SplitLines(text));
    RowsSpec(RowItem, lines, HeaderFrom(lines, 0).value + 1);
  }

  /** Otherwise there is one item per row of the table, each read from its row. */
  lemma LineItemsRows(text: string, lines: seq<string>, h: nat, items: seq<LineItem>)
    requires lines == NonBlank(SplitLines(text)) && HeaderFrom(lines, 0) == Some(h)
    requires LineItemsOf(text) == Success(items)
    ensures ReadAs(RowItem, lines[h + 1..TableEnd(lines, h + 1)], items)
  {
    assert RowsFrom(RowItem, lines, h + 1) == Success(items);
    RowsItems(RowItem, lines, h + 1, items);
  }

  /** Each item is what `read` gives for the row at its place. */
  ghost predicate ReadAs<T, E>(read: string -> Result<T, E>, rows: seq<string>, items: seq<T>) {
    |rows| == |items| && forall k :: 0 <= k < |items| ==> read(rows[k]) == Success(items[k])
  }

  lemma RowsItems<T, E>(read: string -> Result<T, E>, lines: seq<string>, j: nat, items: seq<T>)
    requires j <= |lines| && RowsFrom(read, lines, j) == Success(items)
    ensures ReadAs(read, lines[j..TableEnd(lines, j)], items)
  {
    RowsSpec(read, lines, j);
    var rows := lines[j..TableEnd(lines, j)];
    forall k | 0 <= k < |items| ensures read(rows[k]) == Success(items[k]) {
      assert rows[k] == lines[j + k];
    }
  }

  // The invoice.

  /** Python's `x or default` for an extracted string: an empty string falls back too. */
  function OrElse(v: Option<string>, default: string): (r: string)
    ensures r == default || (v.Some? && r == v.value && r != [])
  {
    if v.Some? && v.value != [] then v.value else default
  }

  /** The fields `parse_raw_invoice` reads from the labels, in the order it reads them. */
  datatype Header = Header(number: string, date: Date, due: Option<Date>, seller: string, buyer: string)

  /** The header `parse_raw_invoice` builds from the five label fields: the number falls
      back to the file's stem; the invoice date is read from the label value, or from the
      whole text when that value is missing or empty, and is `today` when the date rules
      yield nothing there; the names fall back to placeholders; a due date is read only
      from a non-empty label value. */
  function HeaderWith(path: string, text: string, today: Date,
                      number: Result<Option<string>, ExtractError>, dateLabel: Result<Option<string>, ExtractError>,
                      dueLabel: Result<Option<string>, ExtractError>, seller: Result<Option<string>, ExtractError>,
                      buyer: Result<Option<string>, ExtractError>): (r: Result<Header, ExtractError>)
    requires ValidDate(today)
  {
    match number
    case Failure(e) => Failure(e)
    case Success(n) =>
      match dateLabel
      case Failure(e) => Failure(e)
      case Success(d) =>
        match dueLabel
        case Failure(e) => Failure(e)
        case Success(du) =>
          match seller
          case Failure(e) => Failure(e)
          case Success(se) =>
            match buyer
            case Failure(e) => Failure(e)
            case Success(bu) =>
              Success(Header(
                OrElse(n, Stem(path)),
                DateIn(OrElse(d, text)).GetOr(today),
                if du.Some? && du.value != [] then DateIn(du.value) else None,
                OrElse(se, "UNKNOWN_SELLER"),
                OrElse(bu, "UNKNOWN_BUYER")))
  }

  function HeaderOf(raw: RawInvoiceText, today: Date): (r: Result<Header, ExtractError>)
    requires ValidDate(today)
  {
    var text := raw.fullText;
    HeaderWith(raw.path, text, today, FieldOf(InvoiceNumberRules, text), FieldOf(InvoiceDateRules, text),
               FieldOf(DueDateRules, text), FieldOf(SellerNameRules, text), FieldOf(BuyerNameRules, text))
  }

  /** The header fields, read by the same calls in the same order as `parse_raw_invoice`
      reads them; the invoice date falls back to `today`. */
  method ReadHeader(raw: RawInvoiceText, today: Date) returns (r: Result<Header, ExtractError>)
    requires ValidDate(today)
    ensures r == HeaderOf(raw, today)
  {
    var text := raw.fullText;
    var number := ExtractSingleField(text, InvoiceNumberRules);
    if number.Failure? {
      return Failure(number.error);
    }
    var dateLabel := ExtractSingleField(text, InvoiceDateRules);
    if dateLabel.Failure? {
      return Failure(dateLabel.error);
    }
    var date := InvoiceDate(OrElse(dateLabel.value, text), today);
    var dueLabel := ExtractSingleField(text, DueDateRules);
    if dueLabel.Failure? {
      return Failure(dueLabel.error);
    }
    var due := DueDate(dueLabel.value);
    var seller := ExtractSingleField(text, SellerNameRules);
    if seller.Failure? {
      return Failure(seller.error);
    }
    var buyer := ExtractSingleField(text, BuyerNameRules);
    if buyer.Failure? {
      return Failure(buyer.error);
    }
    return Success(Header(OrElse(number.value, Stem(raw.path)), date, due,
                          OrElse(seller.value, "UNKNOWN_SELLER"), OrElse(buyer.value, "UNKNOWN_BUYER")));
  }

  /** The invoice date: the date read from the text, or `today` when there is none. */
  method InvoiceDate(raw: string, today: Date) returns (date: Date)
    requires ValidDate(today)
    ensures ValidDate(date)
    ensures date == DateIn(raw).GetOr(today)
  {
    var str := ParseDateFromText(raw);
    if str.None? {
      IsoRoundTrip(today);
      str := Some(IsoFormat(today));
    }
    date := FromIsoFormat(str.value).value;
  }

  /** The due date: read only from a non-empty label value. */
  method DueDate(found: Option<string>) returns (due: Option<Date>)
    ensures found.None? || found.value == [] ==> due.None?
    ensures found.Some? && found.value != [] ==> due == DateIn(found.value)
  {
    var str: Option<string> := None;
    if found.Some? && found.value != [] {
      str := ParseDateFromText(found.value);
    }
    due := if str.Some? then FromIsoFormat(str.value) else None;
  }

  /** The three totals, in the order `parse_raw_invoice` reads them. */
  datatype Totals = Totals(net: Option<real>, tax: Option<real>, gross: Option<real>)

  /** Net and gross read the first group of their rules, and tax group `taxGroup`. */
  function TotalsFrom(netRules: seq<Regex>, taxRules: seq<Regex>, grossRules: seq<Regex>, taxGroup: nat,
                      text: string): Result<Totals, ExtractError> {
    match AmountFrom(netRules, text, 1, 0)
    case Failure(e) => Failure(e)
    case Success(net) =>
      match AmountFrom(taxRules, text, taxGroup, 0)
      case Failure(e) => Failure(e)
      case Success(tax) =>
        match AmountFrom(grossRules, text, 1, 0)
        case Failure(e) => Failure(e)
        case Success(gross) => Success(Totals(net, tax, gross))
  }

  /** As written, the tax loop asks for the second group. */
  function TotalsOf(text: string): Result<Totals, ExtractError> {
    TotalsFrom(NetTotalRules, TaxAmountRules, GrossTotalRules, 2, text)
  }

  /** The tax loop as evidently intended: the amount is the rules' only group. */
  function IntendedTotals(text: string): Result<Totals, ExtractError> {
    TotalsFrom(NetTotalRules, TaxAmountRules, GrossTotalRules, 1, text)
  }

  /** The three loops of `parse_raw_invoice` over the total rules. */
  method ReadTotals(text: string) returns (r: Result<Totals, ExtractError>)
    ensures r == TotalsOf(text)
  {
    var net := LabelledAmount(text, NetTotalRules, 1);
    if net.Failure? {
      return Failure(net.error);
    }
    var tax := LabelledAmount(text, TaxAmountRules, 2);
    if tax.Failure? {
      return Failure(tax.error);
    }
    var gross := LabelledAmount(text, GrossTotalRules, 1);
    if gross.Failure? {
      return Failure(gross.error);
    }
    return Success(Totals(net.value, tax.value, gross.value));
  }

  /** The invoice from its parts, or the error of the first part that failed, in the
      order `parse_raw_invoice` reads them. The currency is `INR` when none was found; the
      tax ids, the payment terms and the external reference are never extracted. */
  function Assemble(header: Result<Header, ExtractError>, guess: Result<Option<string>, ExtractError>,
                    totals: Result<Totals, ExtractError>, items: Result<seq<LineItem>, ExtractError>): Result<Invoice, ExtractError>
  {
    match header
    case Failure(e) => Failure(e)
    case Success(h) =>
      match guess
      case Failure(e) => Failure(e)
      case Success(cur) =>
        match totals
        case Failure(e) => Failure(e)
        case Success(t) =>
          match items
          case Failure(e) => Failure(e)
          case Success(rows) =>
            Success(Invoice(h.number, h.date, h.due, h.seller, None, h.buyer, None, OrElse(cur, "INR"),
                            t.net, t.tax, t.gross, None, None, rows))
  }

  /** `parse_raw_invoice` once the currency has been guessed. */
  function InvoiceOf(raw: RawInvoiceText, today: Date, guess: Result<Option<string>, ExtractError>): Result<Invoice, ExtractError>
    requires ValidDate(today)
  {
    Assemble(HeaderOf(raw, today), guess, TotalsOf(raw.fullText), LineItemsOf(raw.fullText))
  }

  /** Some guess is always possible. */
  lemma SomeCurrencyGuess(text: string) returns (g: Result<Option<string>, ExtractError>)
    ensures CurrencyGuess(text, g)
  {
    var field := FieldOf(CurrencyRules, text);
    if field.Failure? {
      g := Failure(field.error);
    } else if field.value.Some? && field.value.value != [] && Upper(field.value.value) in AllowedCurrencies {
      g := Success(Some(Upper(field.value.value)));
    } else if c :| c in AllowedCurrencies && WordIn(c, text) {
      g := Success(Some(c));
    } else {
      g := Success(None);
    }
  }

  /** `parse_raw_invoice`: the invoice for one of the currencies the guess may give, or
      the error the first failing step raises. */
  method ParseRawInvoice(raw: RawInvoiceText, today: Date) returns (r: Result<Invoice, ExtractError>)
    requires ValidDate(today)
    ensures exists g :: CurrencyGuess(raw.fullText, g) && r == InvoiceOf(raw, today, g)
  {
    var header := ReadHeader(raw, today);
    if header.Failure? {
      ghost var g := SomeCurrencyGuess(raw.fullText);
      return Failure(header.error);
    }
    var guess := GuessCurrency(raw.fullText);
    if guess.Failure? {
      return Failure(guess.error);
    }
    var totals := ReadTotals(raw.fullText);
    if totals.Failure? {
      return Failure(totals.error);
    }
    var items := ExtractLineItems(raw.fullText);
    if items.Failure? {
      return Failure(items.error);
    }
    var h, t := header.value, totals.value;
    return Success(Invoice(h.number, h.date, h.due, h.seller, None, h.buyer, None, OrElse(guess.value, "INR"),
                           t.net, t.tax, t.gross, None, None, items.value));
  }

  // What the assembled invoice is known to hold.

  /** A field read without raising, whose value, if any, is stripped. */
  predicate Captured(r: Result<Option<string>, ExtractError>) {
    r.Success? && (r.value.Some? ==> Strip(r.value.value) == r.value.value)
  }

  /** Rules that all have a capture group give a stripped value or nothing. */
  lemma LabelFieldCaptured(rules: seq<Regex>, text: string)
    requires forall j :: 0 <= j < |rules| ==> GroupCount(rules[j].pat) >= 1
    ensures Captured(FieldOf(rules, text))
  {
    FieldCaptured(rules, SplitLines(text), 0);
  }

  lemma NumberCaptured(text: string)
    ensures Captured(FieldOf(InvoiceNumberRules, text))
  {
    InvoiceNumberGroups();
    LabelFieldCaptured(InvoiceNumberRules, text);
  }

  lemma DatesCaptured(text: string)
    ensures Captured(FieldOf(InvoiceDateRules, text)) && Captured(FieldOf(DueDateRules, text))
  {
    DateLabelGroups();
    LabelFieldCaptured(InvoiceDateRules, text);
    LabelFieldCaptured(DueDateRules, text);
  }

  lemma NamesCaptured(text: string)
    ensures Captured(FieldOf(SellerNameRules, text)) && Captured(FieldOf(BuyerNameRules, text))
  {
    NameLabelGroups();
    LabelFieldCaptured(SellerNameRules, text);
    LabelFieldCaptured(BuyerNameRules, text);
  }

  /** A value that the label rules give is stripped, so a non-empty one is not blank;
      the defaults are not blank either. */
  lemma OrElseNotBlank(v: Option<string>, default: string)
    requires v.Some? ==> Strip(v.value) == v.value
    requires default != [] && !IsSpace(default[0])
    ensures Strip(OrElse(v, default)) != []
  {
    if !(v.Some? && v.value != []) {
      StripKeepsFirst(default);
    }
  }

  /** A header with non-blank names, a number whenever the file has a name, and calendar
      dates. */
  predicate HeaderSound(path: string, h: Header) {
    && Strip(h.seller) != [] && Strip(h.buyer) != []
    && (path != [] ==> h.number != [])
    && ValidDate(h.date) && (h.due.Some? ==> ValidDate(h.due.value))
  }

  /** Fields read without raising give a sound header. */
  lemma HeaderWithFields(path: string, text: string, today: Date,
                         number: Result<Option<string>, ExtractError>, dateLabel: Result<Option<string>, ExtractError>,
                         dueLabel: Result<Option<string>, ExtractError>, seller: Result<Option<string>, ExtractError>,
                         buyer: Result<Option<string>, ExtractError>) returns (h: Header)
    requires ValidDate(today)
    requires Captured(number) && Captured(dateLabel) && Captured(dueLabel) && Captured(seller) && Captured(buyer)
    ensures HeaderWith(path, text, today, number, dateLabel, dueLabel, seller, buyer) == Success(h)
    ensures HeaderSound(path, h)
  {
    h := HeaderWith(path, text, today, number, dateLabel, dueLabel, seller, buyer).value;
    OrElseNotBlank(seller.value, "UNKNOWN_SELLER");
    OrElseNotBlank(buyer.value, "UNKNOWN_BUYER");
    if path != [] {
      StemNonEmpty(path);
    }
  }

  /** Every label rule has a capture group, so reading the header never raises, and the
      header is sound. */
  lemma HeaderFields(raw: RawInvoiceText, today: Date) returns (h: Header)
    requires ValidDate(today)
    ensures HeaderOf(raw, today) == Success(h) && HeaderSound(raw.path, h)
  {
    var text := raw.fullText;
    NumberCaptured(text);
    DatesCaptured(text);
    NamesCaptured(text);
    h := HeaderWithFields(raw.path, text, today, FieldOf(InvoiceNumberRules, text), FieldOf(InvoiceDateRules, text),
                          FieldOf(DueDateRules, text), FieldOf(SellerNameRules, text), FieldOf(BuyerNameRules, text));
  }

  /** For net and gross rules that capture amounts and tax rules with one group: reading
      the totals fails exactly when some tax rule matches; otherwise there is no tax
      amount, and a net or gross total is found exactly when one of its rules matches. */
  lemma TotalsFromRules(netRules: seq<Regex>, taxRules: seq<Regex>, grossRules: seq<Regex>, text: string)
    requires CaptureAmounts(netRules, text) && RulesCapture(taxRules, 1) && CaptureAmounts(grossRules, text)
    ensures TotalsFrom(netRules, taxRules, grossRules, 2, text).Failure?
            <==> exists j :: 0 <= j < |taxRules| && Search(taxRules[j], text).Some?
    ensures TotalsFrom(netRules, taxRules, grossRules, 2, text).Failure? ==> TotalsFrom(netRules, taxRules, grossRules, 2, text).error == NoSuchGroup
    ensures TotalsFrom(netRules, taxRules, grossRules, 2, text).Success? ==>
              var t := TotalsFrom(netRules, taxRules, grossRules, 2, text).value;
              && t.tax.None?
              && (t.net.None? <==> forall j :: 0 <= j < |netRules| ==> Search(netRules[j], text).None?)
              && (t.gross.None? <==> forall j :: 0 <= j < |grossRules| ==> Search(grossRules[j], text).None?)
  {
    FirstAmountDecides(netRules, text, 0);
    SecondGroupRaises(taxRules, text, 0);
    FirstAmountDecides(grossRules, text, 0);
  }

  /** The registry's rules: reading the totals raises exactly when a tax label matches. */
  lemma TotalsOutcome(text: string)
    ensures TotalsOf(text).Failure? <==> exists j :: 0 <= j < |TaxAmountRules| && Search(TaxAmountRules[j], text).Some?
    ensures TotalsOf(text).Failure? ==> TotalsOf(text).error == NoSuchGroup
    ensures TotalsOf(text).Success? ==>
              var t := TotalsOf(text).value;
              && t.tax.None?
              && (t.net.None? <==> forall j :: 0 <= j < |NetTotalRules| ==> Search(NetTotalRules[j], text).None?)
              && (t.gross.None? <==> forall j :: 0 <= j < |GrossTotalRules| ==> Search(GrossTotalRules[j], text).None?)
  {
    NetRulesCaptureAmounts(text);
    TaxRulesGroups();
    GrossRulesCaptureAmounts(text);
    TotalsFromRules(NetTotalRules, TaxAmountRules, GrossTotalRules, text);
  }

  /** Rules that all capture amounts: reading the totals never fails, and each total is
      found exactly when one of its rules matches. */
  lemma TotalsFromCaptured(netRules: seq<Regex>, taxRules: seq<Regex>, grossRules: seq<Regex>, text: string)
    requires CaptureAmounts(netRules, text) && CaptureAmounts(taxRules, text) && CaptureAmounts(grossRules, text)
    ensures TotalsFrom(netRules, taxRules, grossRules, 1, text).Success?
    ensures var t := TotalsFrom(netRules, taxRules, grossRules, 1, text).value;
            && (t.net.None? <==> forall j :: 0 <= j < |netRules| ==> Search(netRules[j], text).None?)
            && (t.tax.None? <==> forall j :: 0 <= j < |taxRules| ==> Search(taxRules[j], text).None?)
            && (t.gross.None? <==> forall j :: 0 <= j < |grossRules| ==> Search(grossRules[j], text).None?)
  {
    FirstAmountDecides(netRules, text, 0);
    FirstAmountDecides(taxRules, text, 0);
    FirstAmountDecides(grossRules, text, 0);
  }

  lemma TaxRulesCaptureAmounts(s: string)
    ensures CaptureAmounts(TaxAmountRules, s)
  {
    forall i | 0 <= i < |TaxAmountRules| && Search(TaxAmountRules[i], s).Some?
      ensures |Search(TaxAmountRules[i], s).value.m.groups| >= 1
              && StartsAt(GroupText(s, Search(TaxAmountRules[i], s).value, 0), 0)
    {
      TaxRuleGroup(i, s, Search(TaxAmountRules[i], s).value);
    }
  }

  /** Read as intended, the totals never fail, and the tax amount is found exactly when a
      tax label occurs. */
  lemma IntendedTotalsOutcome(text: string)
    ensures IntendedTotals(text).Success?
    ensures var t := IntendedTotals(text).value;
            && (t.net.None? <==> forall j :: 0 <= j < |NetTotalRules| ==> Search(NetTotalRules[j], text).None?)
            && (t.tax.None? <==> forall j :: 0 <= j < |TaxAmountRules| ==> Search(TaxAmountRules[j], text).None?)
            && (t.gross.None? <==> forall j :: 0 <= j < |GrossTotalRules| ==> Search(GrossTotalRules[j], text).None?)
  {
    NetRulesCaptureAmounts(text);
    TaxRulesCaptureAmounts(text);
    GrossRulesCaptureAmounts(text);
    TotalsFromCaptured(NetTotalRules, TaxAmountRules, GrossTotalRules, text);
  }

  /** A text that starts with `VAT` and a digit (say `VAT5`) makes the totals as written
      raise, while the intended reading finds its tax amount. */
  lemma VatLabelRaises(text: string)
    requires LitAt("VAT", text, 0, true) && 3 < |text| && IsDigit(text[3])
    ensures TotalsOf(text) == Failure(NoSuchGroup)
    ensures IntendedTotals(text).Success? && IntendedTotals(text).value.tax.Some?
  {
    LitWay("VAT", text, 0, true);
    AltLeftWay(Lit("VAT"), Words("Sales", "Tax"), text, 0, true, Match(3, []));
    AmountRuleWay(VatLabel, text, 0, Match(3, []));
    assert Search(TaxAmountRules[1], text).Some?;
    TotalsOutcome(text);
    IntendedTotalsOutcome(text);
  }

  /** Parts that did not fail make the invoice with their fields; the first that failed
      decides the error. */
  lemma AssembleFails(header: Result<Header, ExtractError>, guess: Result<Option<string>, ExtractError>,
                      totals: Result<Totals, ExtractError>, items: Result<seq<LineItem>, ExtractError>)
    ensures Assemble(header, guess, totals, items).Failure?
            <==> header.Failure? || guess.Failure? || totals.Failure? || items.Failure?
    ensures Assemble(header, guess, totals, items).Failure? ==>
              Assemble(header, guess, totals, items).error
              == if header.Failure? then header.error else if guess.Failure? then guess.error
                 else if totals.Failure? then totals.error else items.error
  {
  }

  /** Whatever the currency guess, `parse_raw_invoice` raises exactly when a tax rule
      matches the text or a row of the line-item table does not validate. */
  lemma InvoiceFailure(raw: RawInvoiceText, today: Date, g: Result<Option<string>, ExtractError>)
    requires ValidDate(today) && CurrencyGuess(raw.fullText, g)
    ensures InvoiceOf(raw, today, g).Failure?
            <==> (exists j :: 0 <= j < |TaxAmountRules| && Search(TaxAmountRules[j], raw.fullText).Some?)
                 || LineItemsOf(raw.fullText).Failure?
  {
    var h := HeaderFields(raw, today);
    CurrencyGuessAccepted(raw.fullText, g);
    TotalsOutcome(raw.fullText);
    AssembleFails(HeaderOf(raw, today), g, TotalsOf(raw.fullText), LineItemsOf(raw.fullText));
  }

  /** The invoice holds the parts it was made from. */
  lemma AssembleFields(header: Result<Header, ExtractError>, guess: Result<Option<string>, ExtractError>,
                       totals: Result<Totals, ExtractError>, items: Result<seq<LineItem>, ExtractError>, inv: Invoice)
    requires Assemble(header, guess, totals, items) == Success(inv)
    ensures header.Success? && guess.Success? && totals.Success? && items.Success?
    ensures inv.invoiceNumber == header.value.number && inv.invoiceDate == header.value.date
    ensures inv.dueDate == header.value.due
    ensures inv.sellerName == header.value.seller && inv.buyerName == header.value.buyer
    ensures inv.currency == OrElse(guess.value, "INR")
    ensures inv.netTotal == totals.value.net && inv.taxAmount == totals.value.tax && inv.grossTotal == totals.value.gross
    ensures inv.lineItems == items.value
    ensures inv.sellerTaxId.None? && inv.buyerTaxId.None? && inv.paymentTerms.None? && inv.externalReference.None?
  {
  }

  /** An invoice with non-blank names, a number whenever the file has a name, an accepted
      currency and calendar dates. */
  predicate InvoiceSound(path: string, inv: Invoice) {
    && Strip(inv.sellerName) != [] && Strip(inv.buyerName) != []
    && (path != [] ==> inv.invoiceNumber != [])
    && inv.currency in AllowedCurrencies
    && ValidDate(inv.invoiceDate) && (inv.dueDate.Some? ==> ValidDate(inv.dueDate.value))
  }

  /** A sound header and an accepted or missing currency make a sound invoice. */
  lemma AssembleSound(path: string, header: Result<Header, ExtractError>, guess: Result<Option<string>, ExtractError>,
                      totals: Result<Totals, ExtractError>, items: Result<seq<LineItem>, ExtractError>, inv: Invoice)
    requires header.Success? && HeaderSound(path, header.value)
    requires guess.Success? && (guess.value.Some? ==> guess.value.value in AllowedCurrencies)
    requires Assemble(header, guess, totals, items) == Success(inv)
    ensures InvoiceSound(path, inv)
  {
    assert "INR" in AllowedCurrencies;
  }

  /** Every invoice that is read is sound. */
  lemma InvoiceHeader(raw: RawInvoiceText, today: Date, g: Result<Option<string>, ExtractError>, inv: Invoice)
    requires ValidDate(today) && CurrencyGuess(raw.fullText, g)
    requires InvoiceOf(raw, today, g) == Success(inv)
    ensures InvoiceSound(raw.path, inv)
  {
    var h := HeaderFields(raw, today);
    CurrencyGuessAccepted(raw.fullText, g);
    AssembleSound(raw.path, HeaderOf(raw, today), g, TotalsOf(raw.fullText), LineItemsOf(raw.fullText), inv);
  }

  /** It has no tax amount, and a net or gross total exactly when one of its labels occurs. */
  lemma InvoiceTotals(raw: RawInvoiceText, today: Date, g: Result<Option<string>, ExtractError>, inv: Invoice)
    requires ValidDate(today) && InvoiceOf(raw, today, g) == Success(inv)
    ensures inv.taxAmount.None?
    ensures inv.netTotal.None? <==> forall j :: 0 <= j < |NetTotalRules| ==> Search(NetTotalRules[j], raw.fullText).None?
    ensures inv.grossTotal.None? <==> forall j :: 0 <= j < |GrossTotalRules| ==> Search(GrossTotalRules[j], raw.fullText).None?
  {
    AssembleFields(HeaderOf(raw, today), g, TotalsOf(raw.fullText), LineItemsOf(raw.fullText), inv);
    TotalsOutcome(raw.fullText);
  }

  /** Its items are the table's, and the fields the extractor never reads are empty. */
  lemma InvoiceRest(raw: RawInvoiceText, today: Date, g: Result<Option<string>, ExtractError>, inv: Invoice)
    requires ValidDate(today) && InvoiceOf(raw, today, g) == Success(inv)
    ensures LineItemsOf(raw.fullText) == Success(inv.lineItems)
    ensures inv.sellerTaxId.None? && inv.buyerTaxId.None? && inv.paymentTerms.None? && inv.externalReference.None?
  {
    AssembleFields(HeaderOf(raw, today), g, TotalsOf(raw.fullText), LineItemsOf(raw.fullText), inv);
  }
}
