/** A backtracking matcher for the few regular-expression constructs the pattern
    registry uses. `Ends(p, s, pos, ci)` lists every way `p` can match `s` from
    `pos`, in the order Python's `re` tries them, so its first element is the
    match `re` reports. Captures inside an alternation or a repetition are not
    recorded; no pattern of the registry has one there. */
module Pattern {
  import opened Wrappers
  import opened Text

  /** One-character classes: `\d`, `\s`, `.`, `[lo-hi]`, `[abc]` and their unions. */
  datatype Class =
    | Digit
    | Space
    | NotNewline
    | Range(lo: char, hi: char)
    | OneOf(cs: string)
    | Union(a: Class, b: Class)

  /** Whether `c` is in class `k`; with `ci` (the `re.I` flag) letters match either case. */
  predicate ClassHas(k: Class, c: char, ci: bool) {
    match k
    case Digit => IsDigit(c)
    case Space => IsSpace(c)
    case NotNewline => c != '\n'
    case Range(lo, hi) => lo <= c <= hi || (ci && (lo <= LowerChar(c) <= hi || lo <= UpperChar(c) <= hi))
    case OneOf(cs) => c in cs || (ci && (LowerChar(c) in cs || UpperChar(c) in cs))
    case Union(a, b) => ClassHas(a, c, ci) || ClassHas(b, c, ci)
  }

  predicate CharEq(a: char, b: char, ci: bool) {
    a == b || (ci && LowerChar(a) == LowerChar(b))
  }

  datatype Pat =
    | Empty
    | Char(k: Class)
    | Lit(w: string)
    | Seq(a: Pat, b: Pat)
    | Alt(a: Pat, b: Pat)
    | Star(a: Pat)
    | LazyStar(a: Pat)
    | Group(a: Pat)
    | WordBoundary
    | LineEndAhead

  /** A compiled pattern: its syntax and whether it was compiled with `re.I`. */
  datatype Regex = Regex(pat: Pat, ignoreCase: bool)

  datatype Span = Span(start: nat, end: nat)

  /** One way of matching: where it ends and the spans of its capture groups, in order. */
  datatype Match = Match(end: nat, groups: seq<Span>)

  /** The number of capture groups a match of `p` reports (`len(m.groups())`). */
  function GroupCount(p: Pat): nat {
    match p
    case Seq(a, b) => GroupCount(a) + GroupCount(b)
    case Group(a) => 1 + GroupCount(a)
    case _ => 0
  }

  predicate SpansIn(gs: seq<Span>, lo: nat, hi: nat) {
    forall g :: g in gs ==> lo <= g.start <= g.end <= hi
  }

  /** The properties every match of `p` from `pos` has. */
  predicate WellFormed(ms: seq<Match>, s: string, pos: nat, count: nat) {
    forall m :: m in ms ==> pos <= m.end <= |s| && |m.groups| == count && SpansIn(m.groups, pos, m.end)
  }

  predicate LitAt(w: string, s: string, pos: nat, ci: bool) {
    pos + |w| <= |s| && forall i :: 0 <= i < |w| ==> CharEq(s[pos + i], w[i], ci)
  }

  /** `\b`: a word character on exactly one side of `pos`. */
  predicate AtWordBoundary(s: string, pos: nat)
    requires pos <= |s|
  {
    (pos > 0 && IsWordChar(s[pos - 1])) != (pos < |s| && IsWordChar(s[pos]))
  }

  function Ends(p: Pat, s: string, pos: nat, ci: bool): (r: seq<Match>)
    requires pos <= |s|
    ensures WellFormed(r, s, pos, GroupCount(p))
    ensures p.Star? || p.LazyStar? || p.Empty? ==> r != []
    decreases |s| - pos, p, 1
  {
    match p
    case Seq(_, _) => SeqEnds(p, s, pos, ci)
    case Alt(_, _) => AltEnds(p, s, pos, ci)
    case Star(_) => StarEnds(p, s, pos, ci)
    case LazyStar(_) => LazyEnds(p, s, pos, ci)
    case Group(_) => GroupEnds(p, s, pos, ci)
    case _ => AtomEnds(p, s, pos, ci)
  }

  /** The patterns that match at most one way and contain no other pattern. */
  function AtomEnds(p: Pat, s: string, pos: nat, ci: bool): (r: seq<Match>)
    requires pos <= |s|
    requires !p.Seq? && !p.Alt? && !p.Star? && !p.LazyStar? && !p.Group?
    ensures WellFormed(r, s, pos, 0)
  {
    match p
    case Empty => Single(s, pos, pos)
    case Char(k) => if pos < |s| && ClassHas(k, s[pos], ci) then Single(s, pos, pos + 1) else []
    case Lit(w) => if LitAt(w, s, pos, ci) then Single(s, pos, pos + |w|) else []
    case WordBoundary => if AtWordBoundary(s, pos) then Single(s, pos, pos) else []
    case LineEndAhead => if pos == |s| || s[pos] == '\n' then Single(s, pos, pos) else []
  }

  function SeqEnds(p: Pat, s: string, pos: nat, ci: bool): (r: seq<Match>)
    requires pos <= |s| && p.Seq?
    ensures WellFormed(r, s, pos, GroupCount(p))
    decreases |s| - pos, p, 0
  {
    SeqThen(p.b, s, pos, ci, Ends(p.a, s, pos, ci), GroupCount(p.a))
  }

  /** `a|b`: every way of `a` before every way of `b`. */
  function AltEnds(p: Pat, s: string, pos: nat, ci: bool): (r: seq<Match>)
    requires pos <= |s| && p.Alt?
    ensures WellFormed(r, s, pos, 0)
    decreases |s| - pos, p, 0
  {
    Join(Forget(Ends(p.a, s, pos, ci), s, pos), Forget(Ends(p.b, s, pos, ci), s, pos), s, pos, 0)
  }

  function StarEnds(p: Pat, s: string, pos: nat, ci: bool): (r: seq<Match>)
    requires pos <= |s| && p.Star?
    ensures WellFormed(r, s, pos, 0) && r != []
    decreases |s| - pos, p, 0
  {
    Join(StarThen(p.a, s, pos, ci, Advancing(Ends(p.a, s, pos, ci), pos)), Single(s, pos, pos), s, pos, 0)
  }

  function LazyEnds(p: Pat, s: string, pos: nat, ci: bool): (r: seq<Match>)
    requires pos <= |s| && p.LazyStar?
    ensures WellFormed(r, s, pos, 0) && r != []
    decreases |s| - pos, p, 0
  {
    Join(Single(s, pos, pos), LazyThen(p.a, s, pos, ci, Advancing(Ends(p.a, s, pos, ci), pos)), s, pos, 0)
  }

  function GroupEnds(p: Pat, s: string, pos: nat, ci: bool): (r: seq<Match>)
    requires pos <= |s| && p.Group?
    ensures WellFormed(r, s, pos, GroupCount(p))
    decreases |s| - pos, p, 0
  {
    Capture(Ends(p.a, s, pos, ci), s, pos, GroupCount(p.a))
  }

  /** The one match that ends at `end` and captures nothing. */
  function Single(s: string, pos: nat, end: nat): (r: seq<Match>)
    requires pos <= end <= |s|
    ensures r == [Match(end, [])] && WellFormed(r, s, pos, 0)
  {
    [Match(end, [])]
  }

  /** The matches of one alternative followed by those of the next. */
  function Join(xs: seq<Match>, ys: seq<Match>, s: string, pos: nat, count: nat): (r: seq<Match>)
    requires WellFormed(xs, s, pos, count) && WellFormed(ys, s, pos, count)
    ensures r == xs + ys && WellFormed(r, s, pos, count)
  {
    xs + ys
  }

  /** For each match of the first part, in order, every match of `b` from its end. */
  function SeqThen(b: Pat, s: string, pos: nat, ci: bool, ms: seq<Match>, count: nat): (r: seq<Match>)
    requires pos <= |s|
    requires WellFormed(ms, s, pos, count)
    ensures WellFormed(r, s, pos, count + GroupCount(b))
    decreases |s| - pos, b, |ms| + 1
  {
    if ms == [] then []
    else
      assert ms[0] in ms;
      Join(Prepend(ms[0].groups, Ends(b, s, ms[0].end, ci), s, pos, ms[0].end, GroupCount(b)),
        SeqThen(b, s, pos, ci, ms[1..], count), s, pos, count + GroupCount(b))
  }

  /** Greedy `*`: more iterations are tried before fewer. */
  function StarThen(a: Pat, s: string, pos: nat, ci: bool, ms: seq<Match>): (r: seq<Match>)
    requires pos <= |s|
    requires forall m :: m in ms ==> pos < m.end <= |s|
    ensures WellFormed(r, s, pos, 0)
    decreases |s| - pos, a, |ms| + 1
  {
    if ms == [] then []
    else
      assert ms[0] in ms;
      Join(Widen(Ends(Star(a), s, ms[0].end, ci), s, pos, ms[0].end), StarThen(a, s, pos, ci, ms[1..]), s, pos, 0)
  }

  /** Lazy `*?`: fewer iterations are tried before more. */
  function LazyThen(a: Pat, s: string, pos: nat, ci: bool, ms: seq<Match>): (r: seq<Match>)
    requires pos <= |s|
    requires forall m :: m in ms ==> pos < m.end <= |s|
    ensures WellFormed(r, s, pos, 0)
    decreases |s| - pos, a, |ms| + 1
  {
    if ms == [] then []
    else
      assert ms[0] in ms;
      Join(Widen(Ends(LazyStar(a), s, ms[0].end, ci), s, pos, ms[0].end), LazyThen(a, s, pos, ci, ms[1..]), s, pos, 0)
  }

  /** Matches from `mid` seen as matches from an earlier `pos`. */
  function Widen(ms: seq<Match>, s: string, pos: nat, mid: nat): (r: seq<Match>)
    requires pos <= mid && WellFormed(ms, s, mid, 0)
    ensures r == ms && WellFormed(r, s, pos, 0)
  {
    ms
  }

  /** The matches that consume at least one character (a repetition stops on an empty one). */
  function Advancing(ms: seq<Match>, pos: nat): (r: seq<Match>)
    ensures forall m :: m in r ==> m in ms && pos < m.end
    ensures forall m :: m in ms && pos < m.end ==> m in r
  {
    if ms == [] then []
    else (if pos < ms[0].end then [ms[0]] else []) + Advancing(ms[1..], pos)
  }

  function Forget(ms: seq<Match>, s: string, pos: nat): (r: seq<Match>)
    requires forall m :: m in ms ==> pos <= m.end <= |s|
    ensures |r| == |ms| && forall i :: 0 <= i < |ms| ==> r[i] == Match(ms[i].end, [])
    ensures WellFormed(r, s, pos, 0)
  {
    seq(|ms|, i requires 0 <= i < |ms| => Match(ms[i].end, []))
  }

  function Prepend(gs: seq<Span>, ms: seq<Match>, s: string, pos: nat, mid: nat, count: nat): (r: seq<Match>)
    requires pos <= mid
    requires SpansIn(gs, pos, mid)
    requires WellFormed(ms, s, mid, count)
    ensures |r| == |ms| && forall i :: 0 <= i < |ms| ==> r[i] == Match(ms[i].end, gs + ms[i].groups)
    ensures WellFormed(r, s, pos, |gs| + count)
  {
    var r := seq(|ms|, i requires 0 <= i < |ms| => Match(ms[i].end, gs + ms[i].groups));
    assert forall i :: 0 <= i < |ms| ==> ms[i] in ms;
    r
  }

  function Capture(ms: seq<Match>, s: string, pos: nat, count: nat): (r: seq<Match>)
    requires WellFormed(ms, s, pos, count)
    ensures |r| == |ms| && forall i :: 0 <= i < |ms| ==> r[i] == Match(ms[i].end, [Span(pos, ms[i].end)] + ms[i].groups)
    ensures WellFormed(r, s, pos, 1 + count)
  {
    var r := seq(|ms|, i requires 0 <= i < |ms| => Match(ms[i].end, [Span(pos, ms[i].end)] + ms[i].groups));
    assert forall i :: 0 <= i < |ms| ==> ms[i] in ms;
    r
  }

  /** A successful `search`: where the match starts and the match itself. */
  datatype Found = Found(start: nat, m: Match)

  /** `re.search` from position `from`: the leftmost position at which `p` matches. */
  function SearchFrom(p: Pat, s: string, ci: bool, from: nat): (r: Option<Found>)
    requires from <= |s|
    ensures r.Some? ==>
              && from <= r.value.start <= |s|
              && Ends(p, s, r.value.start, ci) != [] && r.value.m == Ends(p, s, r.value.start, ci)[0]
              && forall q :: from <= q < r.value.start ==> Ends(p, s, q, ci) == []
    ensures r.None? ==> forall q :: from <= q <= |s| ==> Ends(p, s, q, ci) == []
    decreases |s| - from
  {
    var ms := Ends(p, s, from, ci);
    if ms != [] then Some(Found(from, ms[0]))
    else if from == |s| then None
    else SearchFrom(p, s, ci, from + 1)
  }

  function Search(rx: Regex, s: string): (r: Option<Found>)
    ensures r.Some? ==>
              && r.value.start <= r.value.m.end <= |s| && |r.value.m.groups| == GroupCount(rx.pat)
              && SpansIn(r.value.m.groups, r.value.start, r.value.m.end)
    ensures r.Some? ==> r.value.m in Ends(rx.pat, s, r.value.start, rx.ignoreCase)
    ensures r.Some? ==> forall q :: 0 <= q < r.value.start ==> Ends(rx.pat, s, q, rx.ignoreCase) == []
    ensures r.None? ==> forall q :: 0 <= q <= |s| ==> Ends(rx.pat, s, q, rx.ignoreCase) == []
  {
    var r := SearchFrom(rx.pat, s, rx.ignoreCase, 0);
    assert r.Some? ==> r.value.m in Ends(rx.pat, s, r.value.start, rx.ignoreCase);
    r
  }

  /** `m.group(i + 1)` of a successful search. */
  function GroupText(s: string, f: Found, i: nat): string
    requires i < |f.m.groups|
    requires f.m.end <= |s| && SpansIn(f.m.groups, f.start, f.m.end)
  {
    assert f.m.groups[i] in f.m.groups;
    s[f.m.groups[i].start..f.m.groups[i].end]
  }

  /** `m.group(0)`: the whole matched text. */
  function MatchText(s: string, f: Found): string
    requires f.start <= f.m.end <= |s|
  {
    s[f.start..f.m.end]
  }

  // Builders for the quantifiers the registry uses.

  /** `p?` */
  function Opt(p: Pat): (r: Pat)
    ensures GroupCount(r) == 0
  {
    Alt(p, Empty)
  }

  /** `p+` */
  function Plus(p: Pat): (r: Pat)
    ensures GroupCount(r) == GroupCount(p)
  {
    Seq(p, Star(p))
  }

  /** `p{n}` */
  function Times(p: Pat, n: nat): (r: Pat)
    ensures GroupCount(p) == 0 ==> GroupCount(r) == 0
  {
    if n == 0 then Empty else Seq(p, Times(p, n - 1))
  }

  /** Up to `n` more copies of `p`, as many as possible first. */
  function UpTo(p: Pat, n: nat): (r: Pat)
    ensures GroupCount(r) == 0
  {
    if n == 0 then Empty else Alt(Seq(p, UpTo(p, n - 1)), Empty)
  }

  /** `p{lo,hi}` */
  function Between(p: Pat, lo: nat, hi: nat): (r: Pat)
    requires lo <= hi
    ensures GroupCount(p) == 0 ==> GroupCount(r) == 0
  {
    Seq(Times(p, lo), UpTo(p, hi - lo))
  }

  /** Alternatives tried in order: `p0|p1|...`. */
  function Any(ps: seq<Pat>): (r: Pat)
    ensures |ps| >= 2 ==> r == Alt(ps[0], Any(ps[1..])) && GroupCount(r) == 0
  {
    if ps == [] then Empty
    else if |ps| == 1 then ps[0]
    else Alt(ps[0], Any(ps[1..]))
  }

  // Facts about the matcher used by the proofs about particular patterns.

  /** The first way of matching `a` followed by `b`, when `b` matches after `a`'s first way. */
  lemma SeqFirst(a: Pat, b: Pat, s: string, pos: nat, ci: bool)
    requires pos <= |s|
    requires Ends(a, s, pos, ci) != []
    requires Ends(b, s, Ends(a, s, pos, ci)[0].end, ci) != []
    ensures Ends(Seq(a, b), s, pos, ci) != []
    ensures Ends(Seq(a, b), s, pos, ci)[0]
            == Match(Ends(b, s, Ends(a, s, pos, ci)[0].end, ci)[0].end,
                     Ends(a, s, pos, ci)[0].groups + Ends(b, s, Ends(a, s, pos, ci)[0].end, ci)[0].groups)
  {
    var ms := Ends(a, s, pos, ci);
    assert ms[0] in ms;
    assert Ends(Seq(a, b), s, pos, ci) == SeqThen(b, s, pos, ci, ms, GroupCount(a));
  }

  lemma InPrepend(gs: seq<Span>, ms: seq<Match>, s: string, pos: nat, mid: nat, count: nat, m: Match)
    requires pos <= mid && SpansIn(gs, pos, mid) && WellFormed(ms, s, mid, count)
    requires m in ms
    ensures Match(m.end, gs + m.groups) in Prepend(gs, ms, s, pos, mid, count)
  {
    var i :| 0 <= i < |ms| && ms[i] == m;
    assert Prepend(gs, ms, s, pos, mid, count)[i] == Match(m.end, gs + m.groups);
  }

  lemma FromPrepend(gs: seq<Span>, ms: seq<Match>, s: string, pos: nat, mid: nat, count: nat, m: Match)
    requires pos <= mid && SpansIn(gs, pos, mid) && WellFormed(ms, s, mid, count)
    requires m in Prepend(gs, ms, s, pos, mid, count)
    ensures exists mb :: mb in ms && m == Match(mb.end, gs + mb.groups)
  {
    var r := Prepend(gs, ms, s, pos, mid, count);
    var i :| 0 <= i < |r| && r[i] == m;
    assert ms[i] in ms;
  }

  /** Every way of matching `a` then `b` is a way of `a` followed by a way of `b`, and back. */
  lemma {:induction false} SeqThenSound(b: Pat, s: string, pos: nat, ci: bool, ms: seq<Match>, count: nat, m: Match)
    requires pos <= |s|
    requires WellFormed(ms, s, pos, count)
    requires m in SeqThen(b, s, pos, ci, ms, count)
    ensures exists ma, mb :: ma in ms && ma.end <= |s| && mb in Ends(b, s, ma.end, ci) && m == Match(mb.end, ma.groups + mb.groups)
    decreases |ms|
  {
    assert ms[0] in ms;
    var head := Ends(b, s, ms[0].end, ci);
    var pre := Prepend(ms[0].groups, head, s, pos, ms[0].end, GroupCount(b));
    assert SeqThen(b, s, pos, ci, ms, count) == pre + SeqThen(b, s, pos, ci, ms[1..], count);
    if m in pre {
      FromPrepend(ms[0].groups, head, s, pos, ms[0].end, GroupCount(b), m);
    } else {
      SeqThenSound(b, s, pos, ci, ms[1..], count, m);
      var ma, mb :| ma in ms[1..] && ma.end <= |s| && mb in Ends(b, s, ma.end, ci) && m == Match(mb.end, ma.groups + mb.groups);
      assert ma in ms;
    }
  }

  lemma {:induction false} SeqThenComplete(b: Pat, s: string, pos: nat, ci: bool, ms: seq<Match>, count: nat, ma: Match, mb: Match)
    requires pos <= |s|
    requires WellFormed(ms, s, pos, count)
    requires ma in ms && ma.end <= |s| && mb in Ends(b, s, ma.end, ci)
    ensures Match(mb.end, ma.groups + mb.groups) in SeqThen(b, s, pos, ci, ms, count)
    decreases |ms|
  {
    assert ms[0] in ms;
    var head := Ends(b, s, ms[0].end, ci);
    var pre := Prepend(ms[0].groups, head, s, pos, ms[0].end, GroupCount(b));
    assert SeqThen(b, s, pos, ci, ms, count) == pre + SeqThen(b, s, pos, ci, ms[1..], count);
    if ma == ms[0] {
      InPrepend(ms[0].groups, head, s, pos, ms[0].end, GroupCount(b), mb);
    } else {
      assert ma in ms[1..];
      SeqThenComplete(b, s, pos, ci, ms[1..], count, ma, mb);
    }
  }

  lemma SeqMemberSound(a: Pat, b: Pat, s: string, pos: nat, ci: bool, m: Match)
    requires pos <= |s|
    requires m in Ends(Seq(a, b), s, pos, ci)
    ensures exists ma, mb :: ma in Ends(a, s, pos, ci) && ma.end <= |s| && mb in Ends(b, s, ma.end, ci)
                             && m == Match(mb.end, ma.groups + mb.groups)
  {
    var ms := Ends(a, s, pos, ci);
    assert Ends(Seq(a, b), s, pos, ci) == SeqThen(b, s, pos, ci, ms, GroupCount(a));
    SeqThenSound(b, s, pos, ci, ms, GroupCount(a), m);
  }

  lemma SeqMemberComplete(a: Pat, b: Pat, s: string, pos: nat, ci: bool, ma: Match, mb: Match)
    requires pos <= |s|
    requires ma in Ends(a, s, pos, ci) && ma.end <= |s| && mb in Ends(b, s, ma.end, ci)
    ensures Match(mb.end, ma.groups + mb.groups) in Ends(Seq(a, b), s, pos, ci)
  {
    var ms := Ends(a, s, pos, ci);
    assert Ends(Seq(a, b), s, pos, ci) == SeqThen(b, s, pos, ci, ms, GroupCount(a));
    SeqThenComplete(b, s, pos, ci, ms, GroupCount(a), ma, mb);
  }

  /** The ways of matching `a` then `b` are exactly a way of `a` followed by a way of `b`. */
  lemma SeqMembers(a: Pat, b: Pat, s: string, pos: nat, ci: bool, m: Match)
    requires pos <= |s|
    ensures m in Ends(Seq(a, b), s, pos, ci) <==>
            exists ma, mb :: ma in Ends(a, s, pos, ci) && ma.end <= |s| && mb in Ends(b, s, ma.end, ci)
                             && m == Match(mb.end, ma.groups + mb.groups)
  {
    if m in Ends(Seq(a, b), s, pos, ci) {
      SeqMemberSound(a, b, s, pos, ci, m);
    }
    if exists ma, mb :: ma in Ends(a, s, pos, ci) && ma.end <= |s| && mb in Ends(b, s, ma.end, ci) && m == Match(mb.end, ma.groups + mb.groups) {
      var ma, mb :| ma in Ends(a, s, pos, ci) && ma.end <= |s| && mb in Ends(b, s, ma.end, ci) && m == Match(mb.end, ma.groups + mb.groups);
      SeqMemberComplete(a, b, s, pos, ci, ma, mb);
    }
  }

  /** `a` then `b` matches somewhere exactly when some way of `a` is followed by a way of `b`. */
  lemma SeqNonEmpty(a: Pat, b: Pat, s: string, pos: nat, ci: bool)
    requires pos <= |s|
    ensures Ends(Seq(a, b), s, pos, ci) != [] <==>
            exists ma :: ma in Ends(a, s, pos, ci) && ma.end <= |s| && Ends(b, s, ma.end, ci) != []
  {
    var r := Ends(Seq(a, b), s, pos, ci);
    if r != [] {
      assert r[0] in r;
      SeqMemberSound(a, b, s, pos, ci, r[0]);
    }
    if exists ma :: ma in Ends(a, s, pos, ci) && ma.end <= |s| && Ends(b, s, ma.end, ci) != [] {
      var ma :| ma in Ends(a, s, pos, ci) && ma.end <= |s| && Ends(b, s, ma.end, ci) != [];
      var mb := Ends(b, s, ma.end, ci)[0];
      assert mb in Ends(b, s, ma.end, ci);
      SeqMemberComplete(a, b, s, pos, ci, ma, mb);
    }
  }

  /** A greedy repetition always matches; its first way repeats as often as it can. */
  lemma StarFirst(a: Pat, s: string, pos: nat, ci: bool)
    requires pos <= |s|
    ensures Ends(Star(a), s, pos, ci) != []
    ensures var adv := Advancing(Ends(a, s, pos, ci), pos);
            Ends(Star(a), s, pos, ci)[0].end
            == if adv == [] then pos else Ends(Star(a), s, adv[0].end, ci)[0].end
  {
    var adv := Advancing(Ends(a, s, pos, ci), pos);
    var st := StarThen(a, s, pos, ci, adv);
    assert Ends(Star(a), s, pos, ci) == st + [Match(pos, [])];
    if adv != [] {
      assert adv[0] in adv;
      var first := Ends(Star(a), s, adv[0].end, ci);
      assert st == first + StarThen(a, s, pos, ci, adv[1..]);
    }
  }

  lemma AltEnds'(a: Pat, b: Pat, s: string, pos: nat, ci: bool)
    requires pos <= |s|
    ensures Ends(Alt(a, b), s, pos, ci) == Forget(Ends(a, s, pos, ci), s, pos) + Forget(Ends(b, s, pos, ci), s, pos)
  {
  }

  /** A pattern without captures reports none. */
  lemma NoGroups(p: Pat, s: string, pos: nat, ci: bool, m: Match)
    requires pos <= |s| && GroupCount(p) == 0 && m in Ends(p, s, pos, ci)
    ensures m.groups == [] && pos <= m.end <= |s|
  {
  }

  /** A literal matches only where its text is, and ends right after it. */
  lemma LitMember(w: string, s: string, pos: nat, ci: bool, m: Match)
    requires pos <= |s| && m in Ends(Lit(w), s, pos, ci)
    ensures LitAt(w, s, pos, ci) && m.end == pos + |w|
  {
  }

  /** A class matches one character of the class. */
  lemma CharMember(k: Class, s: string, pos: nat, ci: bool, m: Match)
    requires pos <= |s| && m in Ends(Char(k), s, pos, ci)
    ensures pos < |s| && ClassHas(k, s[pos], ci) && m.end == pos + 1
  {
  }

  /** Each way of `a|b` is a way of `a` or a way of `b`, with nothing captured. */
  lemma AltMember(a: Pat, b: Pat, s: string, pos: nat, ci: bool, m: Match)
    requires pos <= |s| && m in Ends(Alt(a, b), s, pos, ci)
    ensures m.groups == []
    ensures (exists ma :: ma in Ends(a, s, pos, ci) && ma.end == m.end)
            || (exists mb :: mb in Ends(b, s, pos, ci) && mb.end == m.end)
  {
    var xs := Ends(a, s, pos, ci);
    var ys := Ends(b, s, pos, ci);
    var fx := Forget(xs, s, pos);
    var fy := Forget(ys, s, pos);
    assert Ends(Alt(a, b), s, pos, ci) == fx + fy;
    if m in fx {
      var i :| 0 <= i < |fx| && fx[i] == m;
      assert xs[i] in xs;
    } else {
      assert m in fy;
      var i :| 0 <= i < |fy| && fy[i] == m;
      assert ys[i] in ys;
    }
  }

  /** A group captures the span of one way of its pattern, before that way's own captures. */
  lemma GroupMember(a: Pat, s: string, pos: nat, ci: bool, m: Match) returns (ma: Match)
    requires pos <= |s| && m in Ends(Group(a), s, pos, ci)
    ensures ma in Ends(a, s, pos, ci) && m == Match(ma.end, [Span(pos, ma.end)] + ma.groups)
  {
    var ms := Ends(a, s, pos, ci);
    var cs := Capture(ms, s, pos, GroupCount(a));
    assert Ends(Group(a), s, pos, ci) == cs;
    var i :| 0 <= i < |cs| && cs[i] == m;
    ma := ms[i];
  }

  /** After a part that captures nothing, a way of `a` then `b` is a way of `b` from
      some later position. */
  lemma SkipMember(a: Pat, b: Pat, s: string, pos: nat, ci: bool, m: Match) returns (q: nat)
    requires pos <= |s| && GroupCount(a) == 0 && m in Ends(Seq(a, b), s, pos, ci)
    ensures pos <= q <= |s| && m in Ends(b, s, q, ci)
  {
    var ma, mb := SeqSplit(a, b, s, pos, ci, m);
    NoGroups(a, s, pos, ci, ma);
    assert ma.groups + mb.groups == mb.groups;
    q := ma.end;
  }

  /** A way of `a` then `b`, split where `a` ends. */
  lemma SeqSplit(a: Pat, b: Pat, s: string, pos: nat, ci: bool, m: Match) returns (ma: Match, mb: Match)
    requires pos <= |s| && m in Ends(Seq(a, b), s, pos, ci)
    ensures ma in Ends(a, s, pos, ci) && pos <= ma.end <= |s| && mb in Ends(b, s, ma.end, ci)
    ensures m == Match(mb.end, ma.groups + mb.groups)
  {
    SeqMemberSound(a, b, s, pos, ci, m);
    ma, mb :| ma in Ends(a, s, pos, ci) && ma.end <= |s| && mb in Ends(b, s, ma.end, ci)
              && m == Match(mb.end, ma.groups + mb.groups);
  }

  // Ways of matching built from their parts.

  /** The empty pattern matches where it is. */
  lemma EmptyWay(s: string, pos: nat, ci: bool)
    requires pos <= |s|
    ensures Match(pos, []) in Ends(Empty, s, pos, ci)
  {
  }

  /** A literal matches where its text is. */
  lemma LitWay(w: string, s: string, pos: nat, ci: bool)
    requires LitAt(w, s, pos, ci)
    ensures Match(pos + |w|, []) in Ends(Lit(w), s, pos, ci)
  {
  }

  /** A class matches a character of the class. */
  lemma CharWay(k: Class, s: string, pos: nat, ci: bool)
    requires pos < |s| && ClassHas(k, s[pos], ci)
    ensures Match(pos + 1, []) in Ends(Char(k), s, pos, ci)
  {
  }

  /** A way of the left alternative is a way of the alternation, with its captures dropped. */
  lemma AltLeftWay(a: Pat, b: Pat, s: string, pos: nat, ci: bool, m: Match)
    requires pos <= |s| && m in Ends(a, s, pos, ci)
    ensures Match(m.end, []) in Ends(Alt(a, b), s, pos, ci)
  {
    AltEnds'(a, b, s, pos, ci);
    var ms := Ends(a, s, pos, ci);
    var i :| 0 <= i < |ms| && ms[i] == m;
    assert Forget(ms, s, pos)[i] == Match(m.end, []);
  }

  /** So is a way of the right alternative. */
  lemma AltRightWay(a: Pat, b: Pat, s: string, pos: nat, ci: bool, m: Match)
    requires pos <= |s| && m in Ends(b, s, pos, ci)
    ensures Match(m.end, []) in Ends(Alt(a, b), s, pos, ci)
  {
    AltEnds'(a, b, s, pos, ci);
    var ms := Ends(b, s, pos, ci);
    var i :| 0 <= i < |ms| && ms[i] == m;
    var fa := Forget(Ends(a, s, pos, ci), s, pos);
    assert Forget(ms, s, pos)[i] == Match(m.end, []);
    assert (fa + Forget(ms, s, pos))[|fa| + i] == Match(m.end, []);
  }

  /** An optional part may match nothing. */
  lemma OptEmptyWay(p: Pat, s: string, pos: nat, ci: bool)
    requires pos <= |s|
    ensures Match(pos, []) in Ends(Opt(p), s, pos, ci)
  {
    EmptyWay(s, pos, ci);
    AltRightWay(p, Empty, s, pos, ci, Match(pos, []));
  }

  /** A repetition may match nothing. */
  lemma StarEmptyWay(a: Pat, s: string, pos: nat, ci: bool)
    requires pos <= |s|
    ensures Match(pos, []) in Ends(Star(a), s, pos, ci)
  {
    var st := StarThen(a, s, pos, ci, Advancing(Ends(a, s, pos, ci), pos));
    assert Ends(Star(a), s, pos, ci) == st + [Match(pos, [])];
    assert (st + [Match(pos, [])])[|st|] == Match(pos, []);
  }

  /** A group captures the span of the way of its inside. */
  lemma GroupWay(a: Pat, s: string, pos: nat, ci: bool, m: Match)
    requires pos <= |s| && m in Ends(a, s, pos, ci)
    ensures Match(m.end, [Span(pos, m.end)] + m.groups) in Ends(Group(a), s, pos, ci)
  {
    var ms := Ends(a, s, pos, ci);
    assert Ends(Group(a), s, pos, ci) == Capture(ms, s, pos, GroupCount(a));
    CaptureMember(ms, s, pos, GroupCount(a), m);
  }

  lemma CaptureMember(ms: seq<Match>, s: string, pos: nat, count: nat, m: Match)
    requires WellFormed(ms, s, pos, count) && m in ms
    ensures Match(m.end, [Span(pos, m.end)] + m.groups) in Capture(ms, s, pos, count)
  {
    var i :| 0 <= i < |ms| && ms[i] == m;
    assert Capture(ms, s, pos, count)[i] == Match(m.end, [Span(pos, m.end)] + m.groups);
  }

  /** A pattern that matches somewhere is found by `search`. */
  lemma SearchFinds(rx: Regex, s: string, q: nat, m: Match)
    requires q <= |s| && m in Ends(rx.pat, s, q, rx.ignoreCase)
    ensures Search(rx, s).Some?
  {
  }
}
