/** Character classes and the Python `str` operations the core relies on
    (`strip`, `lower`, `upper`, `in`, `splitlines`, `"\n".join`). */
module Text {

  /** Python's `str.isspace()`, which is also what `\s` matches in a `str` pattern. */
  predicate IsSpace(c: char) {
    c == ' ' || ('\t' <= c <= '\r') || ('\U{1c}' <= c <= '\U{1f}') || c == '\U{85}' || c == '\U{a0}'
    || c == '\U{1680}' || ('\U{2000}' <= c <= '\U{200a}') || c == '\U{2028}' || c == '\U{2029}'
    || c == '\U{202f}' || c == '\U{205f}' || c == '\U{3000}'
  }

  /** The characters at which `str.splitlines()` ends a line. */
  predicate IsLineBoundary(c: char) {
    ('\n' <= c <= '\r') || ('\U{1c}' <= c <= '\U{1e}') || c == '\U{85}' || c == '\U{2028}' || c == '\U{2029}'
  }

  predicate IsDigit(c: char) { '0' <= c <= '9' }

  predicate IsUpperLetter(c: char) { 'A' <= c <= 'Z' }

  predicate IsLowerLetter(c: char) { 'a' <= c <= 'z' }

  predicate IsLetter(c: char) { IsUpperLetter(c) || IsLowerLetter(c) }

  /** A character that `\b` counts as part of a word. */
  predicate IsWordChar(c: char) { IsLetter(c) || IsDigit(c) || c == '_' }

  function LowerChar(c: char): char {
    if IsUpperLetter(c) then (c as int + 32) as char else c
  }

  function UpperChar(c: char): char {
    if IsLowerLetter(c) then (c as int - 32) as char else c
  }

  /** `str.lower()`. */
  function Lower(s: string): (r: string)
    ensures |r| == |s| && forall i :: 0 <= i < |s| ==> r[i] == LowerChar(s[i])
  {
    seq(|s|, i requires 0 <= i < |s| => LowerChar(s[i]))
  }

  /** `str.upper()`. */
  function Upper(s: string): (r: string)
    ensures |r| == |s| && forall i :: 0 <= i < |s| ==> r[i] == UpperChar(s[i])
  {
    seq(|s|, i requires 0 <= i < |s| => UpperChar(s[i]))
  }

  predicate AllSpace(s: string) {
    forall i :: 0 <= i < |s| ==> IsSpace(s[i])
  }

  /** `str.strip()`: leading whitespace is removed, then trailing whitespace. The
      result has no whitespace at either end. */
  function Strip(s: string): (r: string)
    ensures |r| <= |s|
    ensures r == [] || (!IsSpace(r[0]) && !IsSpace(r[|r| - 1]))
    decreases |s|
  {
    if s != [] && IsSpace(s[0]) then Strip(s[1..])
    else if s != [] && IsSpace(s[|s| - 1]) then Strip(s[..|s| - 1])
    else s
  }

  /** Stripping leaves nothing exactly when the text is all whitespace. */
  lemma {:induction false} StripEmpty(s: string)
    ensures Strip(s) == [] <==> AllSpace(s)
    decreases |s|
  {
    if s != [] && IsSpace(s[0]) {
      StripEmpty(s[1..]);
      assert forall i :: 1 <= i < |s| ==> s[i] == s[1..][i - 1];
    } else if s != [] && IsSpace(s[|s| - 1]) {
      StripEmpty(s[..|s| - 1]);
      assert forall i :: 0 <= i < |s| - 1 ==> s[i] == s[..|s| - 1][i];
    }
  }

  /** What `strip` leaves is a slice of the text with only whitespace before
      and after it: the edge whitespace is all that is removed. */
  lemma {:induction false} StripSlice(s: string)
    ensures exists i, j :: 0 <= i <= j <= |s| && Strip(s) == s[i..j] && AllSpace(s[..i]) && AllSpace(s[j..])
    decreases |s|
  {
    if s != [] && IsSpace(s[0]) {
      var u := s[1..];
      assert Strip(s) == Strip(u);
      StripSlice(u);
      var i, j :| 0 <= i <= j <= |u| && Strip(u) == u[i..j] && AllSpace(u[..i]) && AllSpace(u[j..]);
      SliceAfterFirst(s, i, j);
    } else if s != [] && IsSpace(s[|s| - 1]) {
      var u := s[..|s| - 1];
      assert Strip(s) == Strip(u);
      StripSlice(u);
      var i, j :| 0 <= i <= j <= |u| && Strip(u) == u[i..j] && AllSpace(u[..i]) && AllSpace(u[j..]);
      SliceBeforeLast(s, i, j);
    } else {
      assert s[0..|s|] == s && s[..0] == [] && s[|s|..] == [];
    }
  }

  /** A slice of the text after a leading whitespace character, as a slice of the text. */
  lemma SliceAfterFirst(s: string, i: nat, j: nat)
    requires s != [] && IsSpace(s[0]) && i <= j <= |s| - 1
    requires AllSpace(s[1..][..i]) && AllSpace(s[1..][j..])
    ensures s[1..][i..j] == s[i + 1..j + 1] && AllSpace(s[..i + 1]) && AllSpace(s[j + 1..])
  {
    assert s[1..][j..] == s[j + 1..];
    assert s[..i + 1] == [s[0]] + s[1..][..i];
  }

  /** A slice of the text before a trailing whitespace character, as a slice of the text. */
  lemma SliceBeforeLast(s: string, i: nat, j: nat)
    requires s != [] && IsSpace(s[|s| - 1]) && i <= j <= |s| - 1
    requires AllSpace(s[..|s| - 1][..i]) && AllSpace(s[..|s| - 1][j..])
    ensures s[..|s| - 1][i..j] == s[i..j] && AllSpace(s[..i]) && AllSpace(s[j..])
  {
    assert s[..|s| - 1][..i] == s[..i];
    assert forall k :: 0 <= k < |s| - 1 - j ==> s[j..][k] == s[..|s| - 1][j..][k];
  }

  /** A string that is already stripped is left unchanged by `strip`. */
  lemma StripStripped(s: string)
    requires s == [] || (!IsSpace(s[0]) && !IsSpace(s[|s| - 1]))
    ensures Strip(s) == s
  {
  }

  /** Stripping text that does not start with whitespace keeps its first character. */
  lemma {:induction false} StripKeepsFirst(s: string)
    requires s != [] && !IsSpace(s[0])
    ensures Strip(s) != [] && Strip(s)[0] == s[0]
    decreases |s|
  {
    if IsSpace(s[|s| - 1]) {
      var u := s[..|s| - 1];
      assert u[0] == s[0];
      StripKeepsFirst(u);
    }
  }

  predicate IsPrefix(w: string, s: string) {
    |w| <= |s| && s[..|w|] == w
  }

  /** `w in s` for strings. */
  predicate Contains(s: string, w: string)
    decreases |s|
  {
    IsPrefix(w, s) || (s != [] && Contains(s[1..], w))
  }

  /** Every occurrence of the character `a` replaced by `b` (`str.replace` on one character). */
  function ReplaceChar(s: string, a: char, b: char): (r: string)
    ensures |r| == |s|
    ensures forall i :: 0 <= i < |s| ==> r[i] == (if s[i] == a then b else s[i])
  {
    seq(|s|, i requires 0 <= i < |s| => if s[i] == a then b else s[i])
  }

  /** `s.replace(c, "")`: every occurrence of `c` removed. */
  function Without(s: string, c: char): (r: string)
    ensures |r| <= |s|
    decreases |s|
  {
    if s == [] then [] else (if s[0] == c then [] else [s[0]]) + Without(s[1..], c)
  }

  /** Removing a character leaves none of it, and leaves text without it unchanged. */
  lemma {:induction false} WithoutRemoves(s: string, c: char)
    ensures c !in Without(s, c)
    ensures c !in s ==> Without(s, c) == s
    decreases |s|
  {
    if s != [] {
      WithoutRemoves(s[1..], c);
      assert s == [s[0]] + s[1..];
    }
  }

  /** What is left after removing a character was there. */
  lemma {:induction false} WithoutChars(s: string, c: char)
    ensures forall k :: 0 <= k < |Without(s, c)| ==> Without(s, c)[k] in s
    decreases |s|
  {
    if s != [] {
      WithoutChars(s[1..], c);
      assert forall d :: d in s[1..] ==> d in s;
    }
  }

  /** Text without the character is left as it is. */
  lemma WithoutDigits(s: string, c: char)
    requires c !in s
    ensures Without(s, c) == s
  {
    WithoutRemoves(s, c);
  }

  /** Removing the one occurrence of a character joins the text around it. */
  lemma WithoutDrop(p: string, q: string, c: char)
    requires c !in p && c !in q
    ensures Without(p + [c] + q, c) == p + q
  {
    var x := p + [c];
    assert Without(x + q, c) == Without(x, c) + Without(q, c) by {
      WithoutAppend(x, q, c);
    }
    assert Without(x, c) == p by {
      WithoutAppend(p, [c], c);
      WithoutRemoves(p, c);
      WithoutOne(c);
      assert p + [] == p;
    }
    assert Without(q, c) == q by {
      WithoutRemoves(q, c);
    }
  }

  lemma WithoutOne(c: char)
    ensures Without([c], c) == []
  {
    assert [c][1..] == [];
  }

  /** Removing a character distributes over concatenation. */
  lemma {:induction false} WithoutAppend(a: string, b: string, c: char)
    ensures Without(a + b, c) == Without(a, c) + Without(b, c)
    decreases |a|
  {
    if a != [] {
      assert (a + b)[1..] == a[1..] + b;
      WithoutAppend(a[1..], b, c);
    } else {
      assert a + b == b;
    }
  }

  /** Index of the first line boundary of `s`, or `|s|` when there is none. */
  function FirstBoundary(s: string): (k: nat)
    ensures k <= |s|
    ensures forall j :: 0 <= j < k ==> !IsLineBoundary(s[j])
    ensures k < |s| ==> IsLineBoundary(s[k])
  {
    if s == [] || IsLineBoundary(s[0]) then 0 else 1 + FirstBoundary(s[1..])
  }

  predicate NoBoundary(s: string) {
    forall j :: 0 <= j < |s| ==> !IsLineBoundary(s[j])
  }

  /** `str.splitlines()`: "\r\n" ends one line; a final boundary opens no empty line. */
  function SplitLines(s: string): (r: seq<string>)
    ensures forall l :: l in r ==> NoBoundary(l)
    ensures s == [] <==> r == []
    decreases |s|
  {
    if s == [] then []
    else
      var k := FirstBoundary(s);
      if k == |s| then [s]
      else
        var skip := if s[k] == '\r' && k + 1 < |s| && s[k + 1] == '\n' then 2 else 1;
        [s[..k]] + SplitLines(s[k + skip..])
  }

  /** `"\n".join(ls)`. */
  function JoinLines(ls: seq<string>): string {
    if ls == [] then []
    else if |ls| == 1 then ls[0]
    else ls[0] + "\n" + JoinLines(ls[1..])
  }

  /** Joining lines with "\n" and splitting again gives the lines back, as long as
      they hold no boundary themselves and the last one is not empty. */
  lemma {:induction false} SplitJoinLines(ls: seq<string>)
    requires forall i :: 0 <= i < |ls| ==> NoBoundary(ls[i])
    requires ls == [] || ls[|ls| - 1] != []
    ensures SplitLines(JoinLines(ls)) == ls
  {
    if |ls| == 1 {
      assert FirstBoundary(ls[0]) == |ls[0]|;
    } else if |ls| > 1 {
      SplitJoinFirst(ls);
      SplitJoinLines(ls[1..]);
    }
  }

  /** The first joined line is split off first. */
  lemma SplitJoinFirst(ls: seq<string>)
    requires forall i :: 0 <= i < |ls| ==> NoBoundary(ls[i])
    requires |ls| >= 2
    ensures SplitLines(JoinLines(ls)) == [ls[0]] + SplitLines(JoinLines(ls[1..]))
  {
    assert JoinLines(ls) == ls[0] + "\n" + JoinLines(ls[1..]);
    SplitAfterLine(ls[0], JoinLines(ls[1..]));
  }

  /** A line ended by "\n" is the first line of the text. */
  lemma SplitAfterLine(l: string, rest: string)
    requires NoBoundary(l)
    ensures SplitLines(l + "\n" + rest) == [l] + SplitLines(rest)
  {
    var s := l + "\n" + rest;
    FirstBoundaryOfLine(l, "\n" + rest);
    assert s == l + ("\n" + rest);
    assert s[..|l|] == l;
    assert s[|l| + 1..] == rest;
    assert s[|l|] == '\n';
  }

  /** A final empty line is not given back: `"a\n".splitlines()` is `["a"]`. */
  lemma {:induction false} SplitJoinTrailing(ls: seq<string>)
    requires forall i :: 0 <= i < |ls| ==> NoBoundary(ls[i])
    requires ls != [] && ls[|ls| - 1] == []
    ensures SplitLines(JoinLines(ls)) == ls[..|ls| - 1]
  {
    if |ls| == 1 {
      assert JoinLines(ls) == [];
    } else {
      var t := ls[1..];
      forall i | 0 <= i < |t| ensures NoBoundary(t[i]) {
        assert t[i] == ls[i + 1];
      }
      SplitJoinTrailing(t);
      SplitJoinStep(ls);
    }
  }

  lemma SplitJoinStep(ls: seq<string>)
    requires forall i :: 0 <= i < |ls| ==> NoBoundary(ls[i])
    requires |ls| >= 2 && SplitLines(JoinLines(ls[1..])) == ls[1..][..|ls| - 2]
    ensures SplitLines(JoinLines(ls)) == ls[..|ls| - 1]
  {
    SplitJoinFirst(ls);
    ConsInit(ls);
  }

  lemma ConsInit<T>(xs: seq<T>)
    requires |xs| >= 2
    ensures xs[..|xs| - 1] == [xs[0]] + xs[1..][..|xs| - 2]
  {
  }

  lemma {:induction false} FirstBoundaryOfLine(l: string, rest: string)
    requires NoBoundary(l)
    requires rest != [] && IsLineBoundary(rest[0])
    ensures FirstBoundary(l + rest) == |l|
  {
    if l != [] {
      assert (l + rest)[1..] == l[1..] + rest;
      FirstBoundaryOfLine(l[1..], rest);
    } else {
      assert l + rest == rest;
    }
  }

  /** `strip` only removes characters: what is left was there before. */
  lemma {:induction false} StripChars(s: string)
    ensures forall k :: 0 <= k < |Strip(s)| ==> Strip(s)[k] in s
    decreases |s|
  {
    if s != [] && IsSpace(s[0]) {
      StripChars(s[1..]);
      assert forall c :: c in s[1..] ==> c in s;
    } else if s != [] && IsSpace(s[|s| - 1]) {
      StripChars(s[..|s| - 1]);
      assert forall c :: c in s[..|s| - 1] ==> c in s;
    }
  }

  /** Splitting off the head of a non-empty sequence first in a concatenation. */
  lemma ConsAppend<T>(a: seq<T>, b: seq<T>)
    requires a != []
    ensures (a + b)[0] == a[0] && (a + b)[1..] == a[1..] + b
  {
  }

  /** Splitting off the last element of a non-empty sequence last in a concatenation. */
  lemma SnocAppend<T>(a: seq<T>, b: seq<T>)
    requires b != []
    ensures (a + b)[|a + b| - 1] == b[|b| - 1] && (a + b)[..|a + b| - 1] == a + b[..|b| - 1]
  {
  }

  /** A non-empty sequence is its front followed by its last element. */
  lemma InitLast<T>(s: seq<T>)
    requires s != []
    ensures s == s[..|s| - 1] + [s[|s| - 1]]
  {
  }

  /** Membership in a concatenation is membership in one of its parts. */
  lemma InAppend<T>(x: T, a: seq<T>, b: seq<T>)
    ensures x in a + b <==> x in a || x in b
  {
  }

  /** Concatenation is associative. */
  lemma Reassoc<T>(h: seq<T>, x: seq<T>, y: seq<T>)
    ensures h + (x + y) == (h + x) + y
  {
  }
}
