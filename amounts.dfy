/** The first match of the library's two amount patterns, `AMOUNT_TOKEN`
    (`[-+]?\d{1,3}(?:[.,\s]\d{3})*(?:[.,]\d+)?`) and `AMOUNT_PATTERN`
    (`[-+]?\d{1,3}(?:,\d{3})*(?:\.\d+)?`), found by a direct scan. Every part
    after the leading digits is optional, so the first match `re` reports from a
    start position takes each part as far as it goes; the start is the leftmost
    position holding a digit, or a sign followed by a digit. */
module Amounts {
  import opened Wrappers
  import opened Text
  import opened Numbers

  /** The two patterns differ only in the characters they accept as separators. */
  datatype Style =
    | TokenStyle  // `AMOUNT_TOKEN`: groups after `.`, `,` or whitespace, decimals after `.` or `,`
    | LabelStyle  // `AMOUNT_PATTERN`: groups after `,`, decimals after `.`

  /** A character that may precede a group of three digits. */
  predicate GroupSep(st: Style, c: char) {
    if st == TokenStyle then c == '.' || c == ',' || IsSpace(c) else c == ','
  }

  /** A character that may introduce the decimal digits. */
  predicate DecimalSep(st: Style, c: char) {
    if st == TokenStyle then c == '.' || c == ',' else c == '.'
  }

  /** Whether an amount starts at `q`: a digit, or a sign followed by a digit. */
  predicate StartsAt(s: string, q: nat) {
    (q < |s| && IsDigit(s[q])) || (q + 1 < |s| && IsSign(s[q]) && IsDigit(s[q + 1]))
  }

  /** The end of the digits from `i`, taking at most `max` of them. */
  function DigitsEnd(s: string, i: nat, max: nat): (e: nat)
    requires i <= |s|
    ensures i <= e <= |s| && e - i <= max
    ensures forall k :: i <= k < e ==> IsDigit(s[k])
    ensures e - i < max ==> e == |s| || !IsDigit(s[e])
    decreases max
  {
    if max > 0 && i < |s| && IsDigit(s[i]) then DigitsEnd(s, i + 1, max - 1) else i
  }

  /** Whether a separator and three digits start at `i`. */
  predicate GroupAt(st: Style, s: string, i: nat) {
    i + 4 <= |s| && GroupSep(st, s[i]) && IsDigit(s[i + 1]) && IsDigit(s[i + 2]) && IsDigit(s[i + 3])
  }

  /** The end of the groups from `i`: as many as follow one another. */
  function GroupsEnd(st: Style, s: string, i: nat): (e: nat)
    requires i <= |s|
    ensures i <= e <= |s| && !GroupAt(st, s, e)
    decreases |s| - i
  {
    if GroupAt(st, s, i) then GroupsEnd(st, s, i + 4) else i
  }

  /** Whether a decimal separator and a digit start at `i`. */
  predicate FractionAt(st: Style, s: string, i: nat) {
    i + 1 < |s| && DecimalSep(st, s[i]) && IsDigit(s[i + 1])
  }

  /** The end of the optional decimal part from `i`: a separator and every digit after it. */
  function FractionEnd(st: Style, s: string, i: nat): (e: nat)
    requires i <= |s|
    ensures i <= e <= |s|
    ensures e == i <==> !FractionAt(st, s, i)
    ensures e > i ==> (forall k :: i < k < e ==> IsDigit(s[k])) && (e == |s| || !IsDigit(s[e]))
  {
    if FractionAt(st, s, i) then DigitsEnd(s, i + 1, |s| - (i + 1)) else i
  }

  /** Where the leading digits of an amount starting at `q` begin. */
  function DigitsStart(s: string, q: nat): (d: nat)
    requires StartsAt(s, q)
    ensures q <= d < |s| && IsDigit(s[d])
    ensures d == q <==> IsDigit(s[q])
  {
    if IsDigit(s[q]) then q else q + 1
  }

  /** The end of the first match of the amount pattern from `q`. */
  function TokenEnd(st: Style, s: string, q: nat): (e: nat)
    requires StartsAt(s, q)
    ensures q < e <= |s|
  {
    FractionEnd(st, s, GroupsEnd(st, s, DigitsEnd(s, DigitsStart(s, q), 3)))
  }

  /** Where a match occurs: `m.start()` and `m.end()`. */
  datatype Token = Token(start: nat, end: nat)

  /** The leftmost position from `from` at which an amount starts. */
  function FirstStart(s: string, from: nat): (r: Option<nat>)
    requires from <= |s|
    ensures r.Some? ==> from <= r.value < |s| && StartsAt(s, r.value)
    ensures r.Some? ==> forall q :: from <= q < r.value ==> !StartsAt(s, q)
    ensures r.None? ==> forall q :: from <= q <= |s| ==> !StartsAt(s, q)
    decreases |s| - from
  {
    if from == |s| then None
    else if StartsAt(s, from) then Some(from)
    else FirstStart(s, from + 1)
  }

  /** `pattern.search(s)` for an amount pattern. */
  function FindToken(st: Style, s: string): (r: Option<Token>)
    ensures r.Some? ==> StartsAt(s, r.value.start) && r.value.end == TokenEnd(st, s, r.value.start)
    ensures r.Some? ==> forall q :: 0 <= q < r.value.start ==> !StartsAt(s, q)
    ensures r.None? <==> forall q :: 0 <= q <= |s| ==> !StartsAt(s, q)
  {
    match FirstStart(s, 0)
    case Some(q) => Some(Token(q, TokenEnd(st, s, q)))
    case None => None
  }

  /** `m.group(0)` of the search, if it succeeds. */
  function TokenText(st: Style, s: string): (r: Option<string>)
    ensures r.Some? <==> FindToken(st, s).Some?
  {
    match FindToken(st, s)
    case Some(t) => Some(s[t.start..t.end])
    case None => None
  }

  /** With `AMOUNT_PATTERN`'s separators, the groups hold only commas and digits. */
  lemma {:induction false} GroupsDigits(s: string, i: nat)
    requires i <= |s|
    ensures AllDigits(Without(s[i..GroupsEnd(LabelStyle, s, i)], ','))
    decreases |s| - i
  {
    var g := GroupsEnd(LabelStyle, s, i);
    if GroupAt(LabelStyle, s, i) {
      GroupsDigits(s, i + 4);
      assert s[i..g] == s[i..i + 4] + s[i + 4..g];
      WithoutAppend(s[i..i + 4], s[i + 4..g], ',');
      assert s[i..i + 4] == [','] + s[i + 1..i + 4];
      WithoutAppend([','], s[i + 1..i + 4], ',');
      DigitsWithout(s[i + 1..i + 4]);
    } else {
      assert s[i..g] == [];
    }
  }

  /** Digits contain no comma, so removing commas leaves them alone. */
  lemma DigitsWithout(x: string)
    requires AllDigits(x)
    ensures Without(x, ',') == x
  {
    assert forall i :: 0 <= i < |x| ==> x[i] != ',';
    WithoutRemoves(x, ',');
  }

  /** A sign, digits, digits and commas, then nothing or a point and digits:
      without its commas, a valid `float()` argument. */
  lemma ShapeParses(sign: string, lead: string, groups: string, rest: string)
    requires sign == [] || sign == "-" || sign == "+"
    requires lead != [] && AllDigits(lead) && AllDigits(Without(groups, ','))
    requires rest == [] || (|rest| >= 2 && rest[0] == '.' && AllDigits(rest[1..]))
    ensures FloatOf(Without(sign + lead + groups + rest, ',')).Some?
  {
    var ip := lead + Without(groups, ',');
    ShapeWithout(sign, lead, groups, rest);
    DigitsAppend(lead, Without(groups, ','));
    var body := ip + Without(rest, ',');
    BodyParses(ip, rest);
    assert body[0] == lead[0];
    FloatOfSigned(sign, body);
  }

  /** Where the commas of such a shape were. */
  lemma ShapeWithout(sign: string, lead: string, groups: string, rest: string)
    requires sign == [] || sign == "-" || sign == "+"
    requires AllDigits(lead)
    ensures Without(sign + lead + groups + rest, ',') == sign + (lead + Without(groups, ',') + Without(rest, ','))
  {
    WithoutAppend(sign + lead + groups, rest, ',');
    WithoutAppend(sign + lead, groups, ',');
    WithoutAppend(sign, lead, ',');
    assert Without(sign, ',') == sign;
    DigitsWithout(lead);
    Reassoc(sign, lead + Without(groups, ','), Without(rest, ','));
    Reassoc(sign, lead, Without(groups, ','));
  }

  /** Digits followed by nothing or by a point and digits read as a number. */
  lemma BodyParses(ip: string, rest: string)
    requires ip != [] && AllDigits(ip)
    requires rest == [] || (|rest| >= 2 && rest[0] == '.' && AllDigits(rest[1..]))
    ensures UnsignedFloat(ip + Without(rest, ',')).Some?
  {
    if rest == [] {
      assert ip + Without(rest, ',') == ip;
      UnsignedWhole(ip);
    } else {
      var fp := rest[1..];
      RestWithout(rest);
      Reassoc(ip, ".", fp);
      UnsignedFraction(ip, fp);
    }
  }

  lemma RestWithout(rest: string)
    requires |rest| >= 2 && rest[0] == '.' && AllDigits(rest[1..])
    ensures Without(rest, ',') == "." + rest[1..]
  {
    assert rest == "." + rest[1..];
    WithoutAppend(".", rest[1..], ',');
    DigitsWithout(rest[1..]);
  }

  lemma SliceSplit<T>(s: seq<T>, a: nat, b: nat, c: nat, d: nat, e: nat)
    requires a <= b <= c <= d <= e <= |s|
    ensures s[a..e] == s[a..b] + s[b..c] + s[c..d] + s[d..e]
  {
    assert s[c..e] == s[c..d] + s[d..e];
    assert s[b..e] == s[b..c] + s[c..e];
    assert s[a..e] == s[a..b] + s[b..e];
  }

  /** A match of `AMOUNT_PATTERN` with its commas removed is always a valid
      `float()` argument: a sign, at least one digit, and at most one point. */
  lemma LabelTokenParses(s: string, q: nat)
    requires StartsAt(s, q)
    ensures FloatOf(Without(s[q..TokenEnd(LabelStyle, s, q)], ',')).Some?
  {
    var d := DigitsStart(s, q);
    var e1 := DigitsEnd(s, d, 3);
    var g := GroupsEnd(LabelStyle, s, e1);
    var e := FractionEnd(LabelStyle, s, g);
    GroupsDigits(s, e1);
    SliceSplit(s, q, d, e1, g, e);
    assert s[q..d] == [] || s[q..d] == "-" || s[q..d] == "+" by {
      if d > q {
        assert s[q..d] == [s[q]];
      }
    }
    assert s[d..e1] != [] && AllDigits(s[d..e1]);
    assert s[g..e] == [] || (|s[g..e]| >= 2 && s[g] == '.' && AllDigits(s[g..e][1..])) by {
      if e > g {
        assert s[g..e][1..] == s[g + 1..e];
      }
    }
    ShapeParses(s[q..d], s[d..e1], s[e1..g], s[g..e]);
  }

  lemma DigitsAppend(a: string, b: string)
    requires AllDigits(a) && AllDigits(b)
    ensures AllDigits(a + b)
  {
  }

  /** The digit scan stops at the first non-digit, or after `max` digits. */
  lemma {:induction false} DigitsEndAt(s: string, i: nat, max: nat, e: nat)
    requires i <= e <= |s| && e - i <= max
    requires forall k :: i <= k < e ==> IsDigit(s[k])
    requires e - i == max || e == |s| || !IsDigit(s[e])
    ensures DigitsEnd(s, i, max) == e
    decreases max
  {
    if e > i {
      DigitsEndAt(s, i + 1, max - 1, e);
    }
  }

  /** Where the first amount of a text starting with a digit lies, when its
      digits, groups and decimals end at the given places. */
  lemma TokenAtStart(st: Style, t: string, e1: nat, g: nat, e: nat)
    requires t != [] && IsDigit(t[0])
    requires 0 < e1 <= 3 && e1 <= |t| && forall k :: 0 <= k < e1 ==> IsDigit(t[k])
    requires e1 == 3 || e1 == |t| || !IsDigit(t[e1])
    requires e1 <= g <= |t| && GroupsEnd(st, t, e1) == g
    requires FractionEnd(st, t, g) == e
    ensures FindToken(st, t) == Some(Token(0, e))
  {
    DigitsEndAt(t, 0, 3, e1);
  }

  /** Four digits in a row at the start: the match is the first three. */
  lemma TokenLeadingDigits(st: Style, t: string)
    requires |t| >= 4 && IsDigit(t[0]) && IsDigit(t[1]) && IsDigit(t[2]) && IsDigit(t[3])
    ensures FindToken(st, t) == Some(Token(0, 3))
  {
    TokenAtStart(st, t, 3, 3, 3);
  }

  /** Up to three digits, a decimal separator and one or two digits: the whole text. */
  lemma TokenDecimal(st: Style, ip: string, sep: char, fp: string)
    requires 1 <= |ip| <= 3 && AllDigits(ip) && 1 <= |fp| <= 2 && AllDigits(fp)
    requires DecimalSep(st, sep)
    ensures FindToken(st, ip + [sep] + fp) == Some(Token(0, |ip| + 1 + |fp|))
  {
    var t := ip + [sep] + fp;
    assert t[|ip|] == sep && t[|ip| + 1..] == fp && t[..|ip|] == ip;
    DigitsEndAt(t, |ip| + 1, |t| - (|ip| + 1), |t|);
    TokenAtStart(st, t, |ip|, |ip|, |t|);
  }

  /** Up to three digits, then a separator and three digits, then fewer than three
      digits: the match ends after the group. */
  lemma TokenGroupThenDigits(st: Style, a: string, sep: char, b: string, c: string)
    requires 1 <= |a| <= 3 && AllDigits(a) && |b| == 3 && AllDigits(b) && |c| <= 2 && AllDigits(c)
    requires GroupSep(st, sep)
    ensures FindToken(st, a + [sep] + b + c) == Some(Token(0, |a| + 4))
  {
    var t := a + [sep] + b + c;
    var n := |a|;
    assert t[..n] == a && t[n] == sep && t[n + 1..n + 4] == b && t[n + 4..] == c;
    assert GroupAt(st, t, n);
    assert !GroupAt(st, t, n + 4);
    assert !FractionAt(st, t, n + 4);
    TokenAtStart(st, t, n, n + 4, n + 4);
  }

  /** Up to three digits, then two groups of a separator and three digits. */
  lemma TokenTwoGroups(st: Style, a: string, sep: char, b: string, c: string)
    requires 1 <= |a| <= 3 && AllDigits(a) && |b| == 3 && AllDigits(b) && |c| == 3 && AllDigits(c)
    requires GroupSep(st, sep)
    ensures FindToken(st, a + [sep] + b + [sep] + c) == Some(Token(0, |a| + 8))
  {
    var t := a + [sep] + b + [sep] + c;
    var n := |a|;
    assert t[..n] == a && t[n] == sep && t[n + 1..n + 4] == b && t[n + 4] == sep && t[n + 5..] == c;
    assert GroupAt(st, t, n) && GroupAt(st, t, n + 4) && !GroupAt(st, t, n + 8);
    assert !FractionAt(st, t, n + 8);
    TokenAtStart(st, t, n, n + 8, n + 8);
  }
}
