/** Decimal digit strings and the two Python conversions the core applies to
    captured text: `int(str)` and `float(str)`. */
module Numbers {
  import opened Wrappers
  import opened Text

  function DigitValue(c: char): nat
    requires IsDigit(c)
  {
    c as int - '0' as int
  }

  function DigitChar(v: nat): (c: char)
    requires v < 10
    ensures IsDigit(c) && DigitValue(c) == v
  {
    ('0' as int + v) as char
  }

  predicate AllDigits(s: string) {
    forall i :: 0 <= i < |s| ==> IsDigit(s[i])
  }

  function Pow10(n: nat): (r: nat)
    ensures r > 0
  {
    if n == 0 then 1 else 10 * Pow10(n - 1)
  }

  /** The number a string of decimal digits denotes, most significant digit first. */
  function DigitsValue(s: string): nat
    requires AllDigits(s)
    decreases |s|
  {
    if s == [] then 0 else 10 * DigitsValue(s[..|s| - 1]) + DigitValue(s[|s| - 1])
  }

  lemma {:induction false} DigitsValueBound(s: string)
    requires AllDigits(s)
    ensures DigitsValue(s) < Pow10(|s|)
    decreases |s|
  {
    if s != [] {
      DigitsValueBound(s[..|s| - 1]);
    }
  }

  /** `"%0{width}d" % n`: the decimal digits of `n`, zero-padded on the left to `width`. */
  function Digits(n: nat, width: nat): (r: string)
    ensures AllDigits(r) && |r| >= 1 && |r| >= width
    ensures DigitsValue(r) == n
    ensures width >= 1 && n < Pow10(width) ==> |r| == width
    decreases n + width
  {
    var init := if n >= 10 || width > 1 then Digits(n / 10, if width > 0 then width - 1 else 0) else [];
    var r := init + [DigitChar(n % 10)];
    assert r[..|r| - 1] == init;
    r
  }

  /** A sign character that `int()` and `float()` accept in front of the digits. */
  predicate IsSign(c: char) { c == '-' || c == '+' }

  /** The text without a leading sign, and whether the value is negated. */
  function Unsigned(t: string): (string, bool) {
    if t != [] && IsSign(t[0]) then (t[1..], t[0] == '-') else (t, false)
  }

  /** `int(t)` for a string: surrounding whitespace, an optional sign, then at
      least one decimal digit. */
  function IntOf(t: string): (r: Option<int>)
    ensures r.Some? ==> var u := Strip(t); u != [] && (IsDigit(u[0]) || IsSign(u[0]))
  {
    var (body, neg) := Unsigned(Strip(t));
    if body != [] && AllDigits(body) then
      Some(if neg then -(DigitsValue(body) as int) else DigitsValue(body) as int)
    else None
  }

  /** A digit string, whitespace around it or not, reads as its value. */
  lemma IntOfDigits(t: string)
    requires t != [] && AllDigits(t)
    ensures IntOf(t) == Some(DigitsValue(t) as int)
  {
    assert !IsSpace(t[0]) && !IsSpace(t[|t| - 1]);
    StripStripped(t);
  }

  /** Text that starts with a letter once stripped is never an integer. */
  lemma IntOfLetter(t: string)
    requires Strip(t) != [] && IsLetter(Strip(t)[0])
    ensures IntOf(t) == None
  {
  }

  /** Index of the first `c` in `s`, or `|s|`. */
  function IndexOf(s: string, c: char): (k: nat)
    ensures k <= |s| && (k < |s| ==> s[k] == c)
    ensures forall j :: 0 <= j < k ==> s[j] != c
  {
    if s == [] || s[0] == c then 0 else 1 + IndexOf(s[1..], c)
  }

  /** The value of `ip.fp` as a real. */
  function DecimalValue(ip: string, fp: string): real
    requires AllDigits(ip) && AllDigits(fp)
  {
    DigitsValue(ip) as real + DigitsValue(fp) as real / Pow10(|fp|) as real
  }

  /** A number with no decimals is its whole part. */
  lemma DecimalValueWhole(ip: string)
    requires AllDigits(ip)
    ensures DecimalValue(ip, []) == DigitsValue(ip) as real
  {
    assert DigitsValue([]) == 0 && Pow10(0) == 1;
  }

  /** `float(t)` on strings over signs, digits and `.`, which are the only ones
      the core passes to it: an optional sign, then digits with at most one
      decimal point, and at least one digit. */
  function FloatOf(t: string): Option<real> {
    var (body, neg) := Unsigned(t);
    match UnsignedFloat(body)
    case Some(v) => Some(if neg then -v else v)
    case None => None
  }

  /** Digits with at most one decimal point, and at least one digit. */
  function UnsignedFloat(body: string): Option<real> {
    var k := IndexOf(body, '.');
    var ip := body[..k];
    var fp := if k < |body| then body[k + 1..] else [];
    if AllDigits(ip) && AllDigits(fp) && |ip| + |fp| > 0 then Some(DecimalValue(ip, fp)) else None
  }

  /** A string holding two decimal points is not a float. */
  lemma FloatOfTwoDots(t: string, i: nat, j: nat)
    requires i < j < |t| && t[i] == '.' && t[j] == '.'
    ensures FloatOf(t) == None
  {
    var (body, neg) := Unsigned(t);
    var off := |t| - |body|;
    var k := IndexOf(body, '.');
    assert off <= i && i - off >= k;
    assert body[j - off] == '.';
    var fp := body[k + 1..];
    assert fp[j - off - k - 1] == '.';
  }

  /** A leading `-` negates the value, and a leading `+` or no sign keeps it. */
  lemma FloatOfSigned(sign: string, body: string)
    requires sign == [] || (|sign| == 1 && IsSign(sign[0]))
    requires body == [] || !IsSign(body[0])
    ensures FloatOf(sign + body)
            == match UnsignedFloat(body)
               case Some(v) => Some(if sign == "-" then -v else v)
               case None => None
  {
    var t := sign + body;
    if sign != [] {
      assert t[0] == sign[0] && t[1..] == body;
      assert Unsigned(t) == (body, sign == "-");
    } else {
      assert t == body;
      assert Unsigned(t) == (body, false);
    }
  }

  /** Text starting with a digit has no sign to take off. */
  lemma FloatOfUnsigned(t: string)
    requires t != [] && IsDigit(t[0])
    ensures FloatOf(t) == UnsignedFloat(t)
  {
    assert Unsigned(t) == (t, false);
  }

  /** Digits, a point and digits read as their value. */
  lemma UnsignedFraction(ip: string, fp: string)
    requires AllDigits(ip) && AllDigits(fp) && ip != []
    ensures UnsignedFloat(ip + "." + fp) == Some(DecimalValue(ip, fp))
  {
    var body := ip + "." + fp;
    IndexOfAfterDigits(ip, "." + fp);
    assert body == ip + ("." + fp);
    assert body[..|ip|] == ip;
    assert body[|ip| + 1..] == fp;
  }

  /** Digits alone read as their value. */
  lemma UnsignedWhole(ip: string)
    requires AllDigits(ip) && ip != []
    ensures UnsignedFloat(ip) == Some(DecimalValue(ip, []))
  {
    IndexOfAfterDigits(ip, []);
    assert ip + [] == ip;
    assert ip[..|ip|] == ip;
  }

  lemma {:induction false} IndexOfAfterDigits(ip: string, rest: string)
    requires AllDigits(ip)
    requires rest == [] || rest[0] == '.'
    ensures IndexOf(ip + rest, '.') == |ip|
  {
    if ip != [] {
      assert (ip + rest)[1..] == ip[1..] + rest;
      IndexOfAfterDigits(ip[1..], rest);
    } else {
      assert ip + rest == rest;
    }
  }
}
