/** Text helpers of the extractor: reading a loosely written amount
    (`normalize_amount`) and cleaning the lines of a document (`clean_line`,
    `clean_text`, `extract_lines`). */
module LangUtils {
  import opened Wrappers
  import opened Text
  import opened Numbers
  import opened Amounts

  /** The characters `re.sub(r"[^\d.,\-]", "", s)` keeps. */
  predicate Kept(c: char) {
    IsDigit(c) || c == '.' || c == ',' || c == '-'
  }

  /** `re.sub(r"[^\d.,\-]", "", s)`: every other character removed. */
  function Keep(s: string): (r: string)
    ensures |r| <= |s|
    decreases |s|
  {
    if s == [] then [] else (if Kept(s[0]) then [s[0]] else []) + Keep(s[1..])
  }

  lemma {:induction false} KeepAppend(a: string, b: string)
    ensures Keep(a + b) == Keep(a) + Keep(b)
    decreases |a|
  {
    if a != [] {
      assert (a + b)[1..] == a[1..] + b;
      KeepAppend(a[1..], b);
    } else {
      assert a + b == b;
    }
  }

  /** What is kept is only kept characters, and text made of them is kept whole. */
  lemma {:induction false} KeepOnlyKept(s: string)
    ensures forall k :: 0 <= k < |Keep(s)| ==> Kept(Keep(s)[k])
    ensures (forall k :: 0 <= k < |s| ==> Kept(s[k])) ==> Keep(s) == s
    decreases |s|
  {
    if s != [] {
      KeepOnlyKept(s[1..]);
      assert s == [s[0]] + s[1..];
    }
  }

  /** Stripping first changes nothing: whitespace is not kept anyway. */
  lemma {:induction false} KeepStrip(s: string)
    ensures Keep(Strip(s)) == Keep(s)
    decreases |s|
  {
    if s != [] && IsSpace(s[0]) {
      var t := s[1..];
      KeepStrip(t);
      assert Strip(s) == Strip(t);
      assert !Kept(s[0]);
      assert Keep(s) == Keep(t);
    } else if s != [] && IsSpace(s[|s| - 1]) {
      var t, c := s[..|s| - 1], s[|s| - 1];
      KeepStrip(t);
      assert Strip(s) == Strip(t);
      assert s == t + [c];
      KeepAppend(t, [c]);
      assert !Kept(c) && [c][1..] == [];
      assert Keep([c]) == [];
    }
  }

  /** The separator rewrite: with both a comma and a point, points are dropped and
      commas become points; with commas only, they become points; otherwise the
      text is left as it is. No comma survives. */
  function Separators(s: string): (r: string)
    ensures ',' !in r
    ensures ',' !in s ==> r == s
  {
    if ',' in s && '.' in s then ReplaceChar(Without(s, '.'), ',', '.')
    else if ',' in s then ReplaceChar(s, ',', '.')
    else s
  }

  /** The rewrite of text with a comma and no point. */
  lemma SeparatorsCommaOnly(s: string)
    requires ',' in s && '.' !in s
    ensures Separators(s) == ReplaceChar(s, ',', '.')
  {
  }

  /** The rewrite of text with both a comma and a point. */
  lemma SeparatorsBoth(s: string)
    requires ',' in s && '.' in s
    ensures Separators(s) == ReplaceChar(Without(s, '.'), ',', '.')
  {
  }

  /** Commas become points in text of digits and commas. */
  lemma ReplaceCommas(a: string, b: string)
    requires AllDigits(a) && AllDigits(b)
    ensures ReplaceChar(a + "," + b, ',', '.') == a + "." + b
  {
  }

  /** Both rewrites that apply to a text with a comma are the same rewrite. */
  lemma SeparatorsUniform(s: string)
    requires ',' in s
    ensures Separators(s) == ReplaceChar(Without(s, '.'), ',', '.')
  {
    WithoutRemoves(s, '.');
  }

  /** `normalize_amount(raw)`: nothing for `None` or an empty string; otherwise the
      first `AMOUNT_TOKEN` match of the cleaned, rewritten text as a float, or
      nothing when there is no match or the match is not a float. */
  function NormalizeAmount(raw: Option<string>): (r: Option<real>)
    ensures raw.None? || raw.value == [] ==> r.None?
  {
    if raw.None? || raw.value == [] then None
    else
      match TokenText(TokenStyle, Separators(Keep(Strip(raw.value))))
      case Some(t) => FloatOf(t)
      case None => None
  }

  /** Only the kept characters decide the result. */
  lemma NormalizeKept(raw: string)
    ensures NormalizeAmount(Some(raw)) == NormalizeAmount(Some(Keep(raw)))
  {
    var k := Keep(raw);
    KeepStrip(raw);
    if k == [] {
      NothingKept(raw);
    } else {
      KeptFixed(raw);
      assert Keep(Strip(k)) == Keep(Strip(raw));
    }
  }

  /** Text with nothing kept gives no amount. */
  lemma NothingKept(raw: string)
    requires Keep(Strip(raw)) == []
    ensures NormalizeAmount(Some(raw)) == None
  {
    assert Separators([]) == [];
    assert FindToken(TokenStyle, []).None?;
  }

  /** The kept characters are kept again, with nothing to strip. */
  lemma KeptFixed(raw: string)
    requires Keep(raw) != []
    ensures Keep(Strip(Keep(raw))) == Keep(raw)
  {
    var k := Keep(raw);
    KeepOnlyKept(raw);
    assert !IsSpace(k[0]) && !IsSpace(k[|k| - 1]);
    StripStripped(k);
    KeepOnlyKept(k);
  }

  /** Removing a character that is not kept (a currency symbol, a letter, a
      space) never changes the result. */
  lemma NormalizeIgnores(a: string, c: char, b: string)
    requires !Kept(c)
    ensures NormalizeAmount(Some(a + [c] + b)) == NormalizeAmount(Some(a + b))
  {
    KeepAppend(a + [c], b);
    KeepAppend(a, [c]);
    KeepAppend(a, b);
    assert Keep([c]) == [];
    assert Keep(a + [c] + b) == Keep(a + b);
    NormalizeKept(a + [c] + b);
    NormalizeKept(a + b);
  }

  /** `clean_line(line)`: stripped, with each no-break space made a plain space.
      The result has no no-break space and no whitespace at either end. */
  function CleanLine(line: string): (r: string)
    ensures |r| <= |line|
    ensures '\U{a0}' !in r
    ensures r == [] || (!IsSpace(r[0]) && !IsSpace(r[|r| - 1]))
  {
    ReplaceChar(Strip(line), '\U{a0}', ' ')
  }

  /** Cleaning a clean line changes nothing. */
  lemma CleanLineIdempotent(line: string)
    ensures CleanLine(CleanLine(line)) == CleanLine(line)
  {
    var r := CleanLine(line);
    StripStripped(r);
  }

  /** A line cleans to nothing exactly when it is all whitespace. */
  lemma CleanLineEmpty(line: string)
    ensures CleanLine(line) == [] <==> AllSpace(line)
  {
    StripEmpty(line);
  }

  /** Cleaning a line introduces no line boundary. */
  lemma CleanLineNoBoundary(line: string)
    requires NoBoundary(line)
    ensures NoBoundary(CleanLine(line))
  {
    StripChars(line);
  }

  /** `[clean_line(x) for x in ls]`. */
  function CleanLines(ls: seq<string>): (r: seq<string>)
    ensures |r| == |ls| && forall i :: 0 <= i < |ls| ==> r[i] == CleanLine(ls[i])
  {
    seq(|ls|, i requires 0 <= i < |ls| => CleanLine(ls[i]))
  }

  /** `[l for l in ls if l]`: the non-empty lines, in their order. */
  function NonEmpty(ls: seq<string>): (r: seq<string>)
    ensures |r| <= |ls|
    decreases |ls|
  {
    if ls == [] then [] else NonEmpty(ls[..|ls| - 1]) + (if ls[|ls| - 1] != [] then [ls[|ls| - 1]] else [])
  }

  /** What `NonEmpty` keeps is non-empty and was there; with no empty line, it keeps all. */
  lemma {:induction false} NonEmptyLines(ls: seq<string>)
    ensures forall l :: l in NonEmpty(ls) ==> l != [] && l in ls
    ensures (forall i :: 0 <= i < |ls| ==> ls[i] != []) ==> NonEmpty(ls) == ls
    decreases |ls|
  {
    if ls != [] {
      var init, last := ls[..|ls| - 1], ls[|ls| - 1];
      NonEmptyLines(init);
      assert ls == init + [last];
      assert NonEmpty(ls) == NonEmpty(init) + (if last != [] then [last] else []);
      forall l | l in NonEmpty(ls) ensures l != [] && l in ls {
        if l in NonEmpty(init) {
          assert l in init;
        }
      }
    }
  }

  /** A single line is kept exactly when it is not empty. */
  lemma NonEmptySingle(l: string)
    ensures NonEmpty([l]) == if l == [] then [] else [l]
  {
    assert [l][..0] == [];
  }

  /** The filter works line by line, so the kept lines keep their order. */
  lemma {:induction false} NonEmptyAppend(a: seq<string>, b: seq<string>)
    ensures NonEmpty(a + b) == NonEmpty(a) + NonEmpty(b)
    decreases |b|
  {
    if b == [] {
      assert a + b == a;
    } else {
      var last := if b[|b| - 1] != [] then [b[|b| - 1]] else [];
      SnocAppend(a, b);
      NonEmptyAppend(a, b[..|b| - 1]);
      Reassoc(NonEmpty(a), NonEmpty(b[..|b| - 1]), last);
    }
  }

  /** The kept lines are exactly the non-empty input lines. */
  lemma {:induction false} NonEmptyKeeps(ls: seq<string>)
    ensures forall l :: l in NonEmpty(ls) <==> l in ls && l != []
    decreases |ls|
  {
    if ls != [] {
      var init, last := ls[..|ls| - 1], ls[|ls| - 1];
      NonEmptyKeeps(init);
      NonEmptySingle(last);
      InitLast(ls);
      NonEmptyAppend(init, [last]);
      forall l
        ensures l in NonEmpty(ls) <==> l in ls && l != []
      {
        InAppend(l, NonEmpty(init), NonEmpty([last]));
        InAppend(l, init, [last]);
      }
    }
  }

  /** `clean_text(text)`: the cleaned lines joined with "\n". */
  function CleanText(text: string): string {
    JoinLines(CleanLines(SplitLines(text)))
  }

  /** `extract_lines(text)`: the cleaned lines that are not empty. */
  function ExtractLines(text: string): (r: seq<string>)
    ensures forall l :: l in r <==> l in CleanLines(SplitLines(text)) && l != []
  {
    NonEmptyKeeps(CleanLines(SplitLines(text)));
    NonEmpty(CleanLines(SplitLines(text)))
  }

  /** The cleaned lines of a text hold no line boundary. */
  lemma CleanLinesNoBoundary(text: string)
    ensures forall i :: 0 <= i < |CleanLines(SplitLines(text))| ==> NoBoundary(CleanLines(SplitLines(text))[i])
  {
    var ls := SplitLines(text);
    forall i | 0 <= i < |ls|
      ensures NoBoundary(CleanLines(ls)[i])
    {
      assert ls[i] in ls;
      CleanLineNoBoundary(ls[i]);
    }
  }

  /** `clean_text` keeps one line per input line: splitting its output gives the
      cleaned input lines back, unless the last one cleaned to nothing. */
  lemma CleanTextLines(text: string)
    requires var ls := CleanLines(SplitLines(text)); ls == [] || ls[|ls| - 1] != []
    ensures SplitLines(CleanText(text)) == CleanLines(SplitLines(text))
  {
    CleanLinesNoBoundary(text);
    SplitJoinLines(CleanLines(SplitLines(text)));
  }

  /** `extract_lines` is `clean_text` split into lines with the empty ones dropped. */
  lemma ExtractLinesOfCleanText(text: string)
    ensures ExtractLines(text) == NonEmpty(SplitLines(CleanText(text)))
  {
    var ls := CleanLines(SplitLines(text));
    CleanLinesNoBoundary(text);
    if ls != [] && ls[|ls| - 1] == [] {
      SplitJoinTrailing(ls);
      assert NonEmpty(ls) == NonEmpty(ls[..|ls| - 1]) + [];
    } else {
      SplitJoinLines(ls);
    }
  }

  /** Text made only of kept characters reads as its rewritten separators do. */
  lemma NormalizeKeptText(raw: string)
    requires raw != [] && forall k :: 0 <= k < |raw| ==> Kept(raw[k])
    ensures NormalizeAmount(Some(raw)) == match TokenText(TokenStyle, Separators(raw))
                                          case Some(t) => FloatOf(t)
                                          case None => None
  {
    assert Kept(raw[0]) && Kept(raw[|raw| - 1]);
    StripStripped(raw);
    KeepOnlyKept(raw);
  }

  /** Digits with no sign read as a number of their own. */
  lemma FloatOfDecimal(ip: string, fp: string)
    requires ip != [] && AllDigits(ip) && AllDigits(fp)
    ensures FloatOf(ip + "." + fp) == Some(DecimalValue(ip, fp))
  {
    var t := ip + "." + fp;
    assert t[0] == ip[0];
    FloatOfUnsigned(t);
    UnsignedFraction(ip, fp);
  }

  lemma FloatOfWhole(ip: string)
    requires ip != [] && AllDigits(ip)
    ensures FloatOf(ip) == Some(DigitsValue(ip) as real)
  {
    FloatOfUnsigned(ip);
    UnsignedWhole(ip);
    DecimalValueWhole(ip);
  }

  /** Text with no digit has no amount: `normalize_amount("abc")` is `None`. */
  lemma NormalizeNoDigit(raw: string)
    requires forall k :: 0 <= k < |raw| ==> !IsDigit(raw[k])
    ensures NormalizeAmount(Some(raw)) == None
  {
    var k := Keep(Strip(raw));
    StripChars(raw);
    KeepChars(Strip(raw));
    var t := Separators(k);
    assert forall i :: 0 <= i < |k| ==> !IsDigit(k[i]);
    SeparatorsNoDigit(k);
    assert forall q :: 0 <= q <= |t| ==> !StartsAt(t, q);
  }

  /** What is kept was there. */
  lemma {:induction false} KeepChars(s: string)
    ensures forall k :: 0 <= k < |Keep(s)| ==> Keep(s)[k] in s
    decreases |s|
  {
    if s != [] {
      KeepChars(s[1..]);
      assert forall c :: c in s[1..] ==> c in s;
    }
  }

  /** The rewrite brings in no digit. */
  lemma SeparatorsNoDigit(s: string)
    requires forall i :: 0 <= i < |s| ==> !IsDigit(s[i])
    ensures forall i :: 0 <= i < |Separators(s)| ==> !IsDigit(Separators(s)[i])
  {
    WithoutChars(s, '.');
  }

  /** A kept text whose rewritten separators hold a token at the start reads as
      that token does. */
  lemma NormalizeRead(raw: string, t: string, e: nat)
    requires raw != [] && forall k :: 0 <= k < |raw| ==> Kept(raw[k])
    requires Separators(raw) == t && e <= |t|
    requires FindToken(TokenStyle, t) == Some(Token(0, e))
    ensures NormalizeAmount(Some(raw)) == FloatOf(t[..e])
  {
    NormalizeKeptText(raw);
    assert t[0..e] == t[..e];
  }

  /** Digits, separators and digits are kept text. */
  lemma KeptOneSeparator(a: string, x: char, b: string)
    requires AllDigits(a) && AllDigits(b) && (x == '.' || x == ',')
    ensures forall k :: 0 <= k < |a + [x] + b| ==> Kept((a + [x] + b)[k])
  {
  }

  /** Digits and two separators between them are kept text. */
  lemma KeptTwoSeparators(a: string, x: char, b: string, y: char, c: string)
    requires AllDigits(a) && AllDigits(b) && AllDigits(c)
    requires (x == '.' || x == ',') && (y == '.' || y == ',')
    ensures forall k :: 0 <= k < |a + [x] + b + [y] + c| ==> Kept((a + [x] + b + [y] + c)[k])
  {
    KeptOneSeparator(a, x, b);
    var u := a + [x] + b;
    assert forall k :: 0 <= k < |u| ==> Kept(u[k]);
    assert forall k :: |u| <= k < |u| + 1 + |c| ==> (u + [y] + c)[k] == ([y] + c)[k - |u|];
  }

  /** A lone comma between digits becomes a point. */
  lemma SeparatorsDecimalComma(ip: string, fp: string)
    requires AllDigits(ip) && AllDigits(fp)
    ensures Separators(ip + "," + fp) == ip + "." + fp
  {
    var raw := ip + "," + fp;
    assert raw[|ip|] == ',';
    assert '.' !in raw by {
      assert forall k :: 0 <= k < |raw| ==> raw[k] == ',' || IsDigit(raw[k]);
    }
    SeparatorsCommaOnly(raw);
    ReplaceCommas(ip, fp);
  }

  /** A decimal comma: up to three digits, a comma and one or two digits read as
      that decimal number (`"12,50"` reads as 12.5). */
  lemma NormalizeDecimalComma(ip: string, fp: string)
    requires 1 <= |ip| <= 3 && AllDigits(ip) && 1 <= |fp| <= 2 && AllDigits(fp)
    ensures NormalizeAmount(Some(ip + "," + fp)) == Some(DecimalValue(ip, fp))
  {
    DecimalCommaToken(ip, fp);
    FloatOfDecimal(ip, fp);
  }

  /** The token read from `ip,fp` is `ip.fp`. */
  lemma DecimalCommaToken(ip: string, fp: string)
    requires 1 <= |ip| <= 3 && AllDigits(ip) && 1 <= |fp| <= 2 && AllDigits(fp)
    ensures NormalizeAmount(Some(ip + "," + fp)) == FloatOf(ip + "." + fp)
  {
    var t := ip + "." + fp;
    KeptOneSeparator(ip, ',', fp);
    SeparatorsDecimalComma(ip, fp);
    TokenDecimal(TokenStyle, ip, '.', fp);
    NormalizeRead(ip + "," + fp, t, |t|);
    assert t[..|t|] == t;
  }

  /** Four digits in a row at the start of text with no comma: only the first three
      are read (`"1234.56"` reads as 123). */
  lemma NormalizeLeadingDigits(raw: string)
    requires |raw| >= 4 && IsDigit(raw[0]) && IsDigit(raw[1]) && IsDigit(raw[2]) && IsDigit(raw[3])
    requires ',' !in raw && forall k :: 0 <= k < |raw| ==> Kept(raw[k])
    ensures NormalizeAmount(Some(raw)) == Some(DigitsValue(raw[..3]) as real)
  {
    TokenLeadingDigits(TokenStyle, raw);
    NormalizeRead(raw, raw, 3);
    FloatOfWhole(raw[..3]);
  }

  /** Points alone are left as they are. */
  lemma SeparatorsTwoGroups(a: string, b: string, c: string)
    requires AllDigits(a) && AllDigits(b) && AllDigits(c)
    ensures Separators(a + "." + b + "." + c) == a + "." + b + "." + c
  {
    var raw := a + "." + b + "." + c;
    assert ',' !in raw by {
      assert raw == a + ['.'] + b + ['.'] + c;
      assert forall k :: 0 <= k < |raw| ==> raw[k] == '.' || IsDigit(raw[k]);
    }
  }

  /** Two point-separated thousands groups make one match with two points, which is
      not a float (`"1.234.567"` reads as nothing). */
  lemma NormalizeTwoGroups(a: string, b: string, c: string)
    requires 1 <= |a| <= 3 && AllDigits(a) && |b| == 3 && AllDigits(b) && |c| == 3 && AllDigits(c)
    ensures NormalizeAmount(Some(a + "." + b + "." + c)) == None
  {
    var raw := a + "." + b + "." + c;
    assert raw == a + ['.'] + b + ['.'] + c;
    KeptTwoSeparators(a, '.', b, '.', c);
    SeparatorsTwoGroups(a, b, c);
    TokenTwoGroups(TokenStyle, a, '.', b, c);
    NormalizeRead(raw, raw, |raw|);
    assert raw[..|raw|] == raw;
    TwoGroupsFloat(a, b, c);
  }

  lemma TwoGroupsFloat(a: string, b: string, c: string)
    requires |b| == 3
    ensures FloatOf(a + "." + b + "." + c) == None
  {
    var t := a + "." + b + "." + c;
    assert t[|a|] == '.' && t[|a| + 4] == '.';
    FloatOfTwoDots(t, |a|, |a| + 4);
  }

  /** With a comma and a point in the text, the rewrite is the one of the text
      without its points. */
  lemma SeparatorsBothAt(raw: string, i: nat, j: nat, w: string)
    requires i < |raw| && j < |raw| && raw[i] == ',' && raw[j] == '.'
    requires Without(raw, '.') == w
    ensures Separators(raw) == ReplaceChar(w, ',', '.')
  {
    SeparatorsBoth(raw);
  }

  lemma WithoutCommaThenPoint(a: string, b: string, c: string)
    requires AllDigits(a) && AllDigits(b) && AllDigits(c)
    ensures Without(a + "," + b + "." + c, '.') == a + "," + (b + c)
  {
    var p := a + "," + b;
    assert '.' !in a && '.' !in b && '.' !in c;
    WithoutDrop(p, c, '.');
    assert a + "," + b + "." + c == p + ['.'] + c;
  }

  /** With a comma and a point, the point goes and the comma becomes one. */
  lemma SeparatorsCommaThenPoint(a: string, b: string, c: string)
    requires AllDigits(a) && AllDigits(b) && AllDigits(c)
    ensures Separators(a + "," + b + "." + c) == a + "." + b + c
  {
    var raw := a + "," + b + "." + c;
    assert raw[|a|] == ',' && raw[|a| + 1 + |b|] == '.';
    WithoutCommaThenPoint(a, b, c);
    SeparatorsBothAt(raw, |a|, |a| + 1 + |b|, a + "," + (b + c));
    ReplaceCommas(a, b + c);
    assert a + "." + (b + c) == a + "." + b + c;
  }

  /** A thousands comma before a decimal point: the point is dropped and the comma
      becomes the point, so the thousands group is read as the decimals and the
      decimals are lost (`"1,234.56"` reads as 1.234). */
  lemma NormalizeCommaThenPoint(a: string, b: string, c: string)
    requires 1 <= |a| <= 3 && AllDigits(a) && |b| == 3 && AllDigits(b) && 1 <= |c| <= 2 && AllDigits(c)
    ensures NormalizeAmount(Some(a + "," + b + "." + c)) == Some(DecimalValue(a, b))
  {
    CommaThenPointToken(a, b, c);
    FloatOfDecimal(a, b);
  }

  /** The token read from `a,b.c` is `a.b`. */
  lemma CommaThenPointToken(a: string, b: string, c: string)
    requires 1 <= |a| <= 3 && AllDigits(a) && |b| == 3 && AllDigits(b) && 1 <= |c| <= 2 && AllDigits(c)
    ensures NormalizeAmount(Some(a + "," + b + "." + c)) == FloatOf(a + "." + b)
  {
    var raw := a + "," + b + "." + c;
    var t := a + ['.'] + b + c;
    KeptTwoSeparators(a, ',', b, '.', c);
    SeparatorsCommaThenPoint(a, b, c);
    TokenGroupThenDigits(TokenStyle, a, '.', b, c);
    NormalizeRead(raw, t, |a| + 4);
    TakeGroup(a, '.', b, c);
  }

  lemma TakeGroup<T>(a: seq<T>, x: T, b: seq<T>, c: seq<T>)
    requires |b| == 3
    ensures (a + [x] + b + c)[..|a| + 4] == a + [x] + b
  {
    assert (a + [x] + b + c) == (a + [x] + b) + c;
  }

  lemma WithoutPointThenComma(a: string, b: string, c: string)
    requires AllDigits(a) && AllDigits(b) && AllDigits(c)
    ensures Without(a + "." + b + "," + c, '.') == a + b + "," + c
  {
    var q := b + "," + c;
    assert '.' !in a && '.' !in b && '.' !in c;
    WithoutDrop(a, q, '.');
    assert a + "." + b + "," + c == a + ['.'] + q;
  }

  /** With a point and a comma, the point goes and the comma becomes one. */
  lemma SeparatorsPointThenComma(a: string, b: string, c: string)
    requires AllDigits(a) && AllDigits(b) && AllDigits(c)
    ensures Separators(a + "." + b + "," + c) == a + b + "." + c
  {
    var raw := a + "." + b + "," + c;
    assert raw[|a| + 1 + |b|] == ',' && raw[|a|] == '.';
    WithoutPointThenComma(a, b, c);
    SeparatorsBothAt(raw, |a| + 1 + |b|, |a|, a + b + "," + c);
    ReplaceCommas(a + b, c);
  }

  /** A thousands point before a decimal comma: the digits run together and only
      the first three are read (`"1.234,56"` reads as 123). */
  lemma NormalizePointThenComma(a: string, b: string, c: string)
    requires 1 <= |a| <= 3 && AllDigits(a) && |b| == 3 && AllDigits(b) && c != [] && AllDigits(c)
    ensures NormalizeAmount(Some(a + "." + b + "," + c)) == Some(DigitsValue((a + b)[..3]) as real)
  {
    PointThenCommaToken(a, b, c);
    FloatOfWhole((a + b)[..3]);
  }

  /** The token read from `a.b,c` is the first three digits of `ab`. */
  lemma PointThenCommaToken(a: string, b: string, c: string)
    requires 1 <= |a| <= 3 && AllDigits(a) && |b| == 3 && AllDigits(b) && c != [] && AllDigits(c)
    ensures NormalizeAmount(Some(a + "." + b + "," + c)) == FloatOf((a + b)[..3])
  {
    var raw := a + "." + b + "," + c;
    var t := a + b + "." + c;
    KeptTwoSeparators(a, '.', b, ',', c);
    SeparatorsPointThenComma(a, b, c);
    assert t[0] == a[0] && t[1] == (a + b)[1] && t[2] == (a + b)[2] && t[3] == (a + b)[3];
    TokenLeadingDigits(TokenStyle, t);
    NormalizeRead(raw, t, 3);
    assert t[..3] == (a + b)[..3];
  }
}
