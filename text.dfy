/**
 * Character classes and string operations with the meaning they have in
 * JavaScript: `\s`, `\w`, `.`, `String.prototype.includes`, `trim`,
 * `split`, `Number.prototype.toString` and `parseInt` (decimal only).
 * Letter case is mapped on ASCII letters only.
 */
module Text {
  import opened Wrappers

  // ---------------------------------------------------------------------
  // Character classes
  // ---------------------------------------------------------------------

  /** `\s`: the WhiteSpace and LineTerminator code points; also the set `trim` removes. */
  predicate IsSpace(c: char) {
    c == ' ' || ('\t' <= c <= '\r') || ('\U{00A0}' <= c && c in WideSpaces)
  }

  /** The whitespace code points above the ASCII range. */
  const WideSpaces: set<char> := {
    '\U{00A0}', '\U{1680}', '\U{2000}', '\U{2001}', '\U{2002}', '\U{2003}', '\U{2004}', '\U{2005}',
    '\U{2006}', '\U{2007}', '\U{2008}', '\U{2009}', '\U{200A}', '\U{2028}', '\U{2029}', '\U{202F}',
    '\U{205F}', '\U{3000}', '\U{FEFF}'
  }

  /** The characters a regular-expression `.` does not match. */
  predicate IsLineTerminator(c: char) {
    c == '\n' || c == '\r' || ('\U{2028}' <= c <= '\U{2029}')
  }

  predicate NotLineTerminator(c: char) { !IsLineTerminator(c) }

  predicate IsDigit(c: char) { '0' <= c <= '9' }
  predicate IsUpper(c: char) { 'A' <= c <= 'Z' }
  predicate IsLower(c: char) { 'a' <= c <= 'z' }
  predicate IsLetter(c: char) { IsUpper(c) || IsLower(c) }

  /** `\w` (outside Unicode mode it is ASCII only). */
  predicate IsWordChar(c: char) { IsLetter(c) || IsDigit(c) || c == '_' }

  /** `toUpperCase` on one character, ASCII letters only. */
  function Upper(c: char): (u: char)
    ensures !IsLower(u)
    ensures IsLetter(c) <==> IsLetter(u)
    ensures IsWordChar(c) <==> IsWordChar(u)
    ensures IsSpace(c) <==> IsSpace(u)
  {
    if IsLower(c) then (c as int - 32) as char else c
  }

  /** `toLowerCase` on one character, ASCII letters only. */
  function Lower(c: char): (l: char)
    ensures !IsUpper(l)
  {
    if IsUpper(c) then (c as int + 32) as char else c
  }

  lemma LowerOfUpper(c: char)
    ensures Lower(Upper(c)) == Lower(c)
  {
  }

  function LowerStr(s: string): (r: string)
    ensures |r| == |s|
    ensures forall i :: 0 <= i < |s| ==> r[i] == Lower(s[i])
  {
    seq(|s|, i requires 0 <= i < |s| => Lower(s[i]))
  }

  predicate AllSpace(s: string) { forall k :: 0 <= k < |s| ==> IsSpace(s[k]) }
  predicate AllDigits(s: string) { forall k :: 0 <= k < |s| ==> IsDigit(s[k]) }
  predicate AllWordChars(s: string) { forall k :: 0 <= k < |s| ==> IsWordChar(s[k]) }
  predicate NoSpace(s: string) { forall k :: 0 <= k < |s| ==> !IsSpace(s[k]) }
  predicate NoLineTerminator(s: string) { forall k :: 0 <= k < |s| ==> !IsLineTerminator(s[k]) }

  /** The end of the longest run of characters satisfying `p` that starts at `i`. */
  function SpanWhile(p: char -> bool, s: string, i: nat): (j: nat)
    requires i <= |s|
    ensures i <= j <= |s|
    decreases |s| - i
  {
    if i < |s| && p(s[i]) then SpanWhile(p, s, i + 1) else i
  }

  /** Every character of the run satisfies `p`, and the one after it does not. */
  lemma {:induction false} SpanWhileRun(p: char -> bool, s: string, i: nat)
    requires i <= |s|
    ensures forall k :: i <= k < SpanWhile(p, s, i) ==> p(s[k])
    ensures SpanWhile(p, s, i) == |s| || !p(s[SpanWhile(p, s, i)])
    decreases |s| - i
  {
    if i < |s| && p(s[i]) {
      SpanWhileRun(p, s, i + 1);
    }
  }

  /** A run that is known to stop at `j` ends at `j`. */
  lemma {:induction false} SpanWhileExact(p: char -> bool, s: string, i: nat, j: nat)
    requires i <= j <= |s|
    requires forall k :: i <= k < j ==> p(s[k])
    requires j == |s| || !p(s[j])
    ensures SpanWhile(p, s, i) == j
    decreases j - i
  {
    if i < j {
      SpanWhileExact(p, s, i + 1, j);
    }
  }

  // ---------------------------------------------------------------------
  // Substrings
  // ---------------------------------------------------------------------

  /** `t` occurs in `s` at index `i`. */
  predicate SubAt(s: string, i: int, t: string) {
    0 <= i && i + |t| <= |s| && s[i..i + |t|] == t
  }

  /** `s.includes(t)`. */
  predicate Contains(s: string, t: string) {
    exists i :: 0 <= i <= |s| - |t| && SubAt(s, i, t)
  }

  /** `s.startsWith(t)`. */
  predicate StartsWith(s: string, t: string) { SubAt(s, 0, t) }

  /** The first index at or after `i` where `t` occurs (`indexOf(t, i)`). */
  function FindFrom(s: string, t: string, i: nat): (r: Option<nat>)
    requires i <= |s|
    ensures r.Some? ==> i <= r.value && SubAt(s, r.value, t)
    ensures r.Some? ==> forall m :: i <= m < r.value ==> !SubAt(s, m, t)
    ensures r.None? ==> forall m :: i <= m ==> !SubAt(s, m, t)
    decreases |s| - i
  {
    if SubAt(s, i, t) then Some(i)
    else if i == |s| then None
    else FindFrom(s, t, i + 1)
  }

  /** `indexOf` finds an occurrence when nothing comes before it. */
  lemma {:induction false} FindFromExact(s: string, t: string, i: nat, q: nat)
    requires i <= q && SubAt(s, q, t)
    requires forall m :: i <= m < q ==> !SubAt(s, m, t)
    ensures FindFrom(s, t, i) == Some(q)
    decreases q - i
  {
    if i < q {
      FindFromExact(s, t, i + 1, q);
    }
  }

  lemma ContainsIffFound(s: string, t: string)
    ensures Contains(s, t) <==> FindFrom(s, t, 0).Some?
  {
    if FindFrom(s, t, 0).Some? {
      assert SubAt(s, FindFrom(s, t, 0).value, t);
    }
  }

  lemma SubAtAppend(s: string, u: string, i: int, t: string)
    requires SubAt(s, i, t)
    ensures SubAt(s + u, i, t) && SubAt(u + s, |u| + i, t)
  {
    assert (s + u)[i..i + |t|] == s[i..i + |t|];
    assert (u + s)[|u| + i..|u| + i + |t|] == s[i..i + |t|];
  }

  /** Text found in a string is still found after anything is added on either side. */
  lemma ContainsAppend(s: string, u: string, t: string)
    requires Contains(s, t)
    ensures Contains(s + u, t) && Contains(u + s, t)
  {
    var i :| 0 <= i <= |s| - |t| && SubAt(s, i, t);
    SubAtAppend(s, u, i, t);
  }

  lemma ContainsSelf(t: string)
    ensures Contains(t, t)
  {
    assert SubAt(t, 0, t);
  }

  /** Text found in a slice is found in the whole string. */
  lemma ContainsOfSlice(s: string, a: nat, b: nat, t: string)
    requires a <= b <= |s|
    requires Contains(s[a..b], t)
    ensures Contains(s, t)
  {
    var u := s[a..b];
    var i :| 0 <= i <= |u| - |t| && SubAt(u, i, t);
    assert forall k :: 0 <= k < |t| ==> t[k] == u[i + k];
    forall k | 0 <= k < |t| ensures s[a + i + k] == t[k] {
      assert u[i + k] == s[a + i + k];
    }
    assert s[a + i..a + i + |t|] == t;
    assert SubAt(s, a + i, t);
  }

  // ---------------------------------------------------------------------
  // Fixed-length regular expressions
  // ---------------------------------------------------------------------

  /**
   * One position of a regular expression without quantifiers. `AnyCase`
   * and `RangeAnyCase` are what the `i` flag makes of a literal and of a
   * range of upper-case letters (both sides compared after `Upper`).
   */
  datatype CharClass =
    | Exactly(c: char)
    | AnyCase(c: char)
    | OneOf(cs: string)
    | RangeAnyCase(lo: char, hi: char)
    | Range(lo: char, hi: char)

  predicate ClassHas(k: CharClass, c: char) {
    match k
    case Exactly(x) => c == x
    case AnyCase(x) => Upper(c) == Upper(x)
    case OneOf(cs) => c in cs
    case RangeAnyCase(lo, hi) => lo <= Upper(c) <= hi
    case Range(lo, hi) => lo <= c <= hi
  }

  type Pattern = seq<CharClass>

  /** The pattern matches the characters of `s` from index `i` on. */
  predicate MatchAt(s: string, i: int, p: Pattern) {
    0 <= i && i + |p| <= |s| && forall k :: 0 <= k < |p| ==> ClassHas(p[k], s[i + k])
  }

  /** `p.test(s)`: the pattern matches somewhere in `s`. */
  predicate Found(s: string, p: Pattern) {
    exists i :: 0 <= i <= |s| - |p| && MatchAt(s, i, p)
  }

  /** A literal, matched with the `i` flag. */
  function Caseless(w: string): (p: Pattern)
    ensures |p| == |w| && forall k :: 0 <= k < |w| ==> p[k] == AnyCase(w[k])
  {
    seq(|w|, k requires 0 <= k < |w| => AnyCase(w[k]))
  }

  /** A literal, matched exactly. */
  function Literal(w: string): (p: Pattern)
    ensures |p| == |w| && forall k :: 0 <= k < |w| ==> p[k] == Exactly(w[k])
  {
    seq(|w|, k requires 0 <= k < |w| => Exactly(w[k]))
  }

  lemma MatchAtLiteral(s: string, i: int, w: string)
    ensures MatchAt(s, i, Literal(w)) <==> SubAt(s, i, w)
  {
    if SubAt(s, i, w) {
      forall k | 0 <= k < |w| ensures ClassHas(Literal(w)[k], s[i + k]) {
        assert s[i + k] == s[i..i + |w|][k];
      }
    }
    if MatchAt(s, i, Literal(w)) {
      assert s[i..i + |w|] == w;
    }
  }

  /** Two patterns matched one after the other match as one. */
  lemma MatchAtConcat(s: string, i: int, p: Pattern, q: Pattern)
    requires MatchAt(s, i, p) && MatchAt(s, i + |p|, q)
    ensures MatchAt(s, i, p + q)
  {
    forall k | 0 <= k < |p + q| ensures ClassHas((p + q)[k], s[i + k]) {
      if k >= |p| {
        assert ClassHas(q[k - |p|], s[i + |p| + (k - |p|)]);
      }
    }
  }

  /** A literal matches the very text it spells. */
  lemma LiteralMatchesItself(w: string)
    ensures MatchAt(w, 0, Literal(w))
  {
    MatchAtLiteral(w, 0, w);
    assert w[0..|w|] == w;
  }

  /** Whole-string matches of two patterns join into a match of the joined pattern. */
  lemma MatchAtJoin(a: string, b: string, p: Pattern, q: Pattern)
    requires MatchAt(a, 0, p) && |p| == |a| && MatchAt(b, 0, q)
    ensures MatchAt(a + b, 0, p + q)
  {
    forall k | 0 <= k < |p + q| ensures ClassHas((p + q)[k], (a + b)[k]) {
      if k >= |p| {
        assert ClassHas(q[k - |p|], b[k - |a|]);
      }
    }
  }

  /** A match found in a string is still found after anything is added on either side. */
  lemma FoundAppend(s: string, u: string, p: Pattern)
    requires Found(s, p)
    ensures Found(s + u, p) && Found(u + s, p)
  {
    var i :| 0 <= i <= |s| - |p| && MatchAt(s, i, p);
    forall k | 0 <= k < |p| ensures ClassHas(p[k], (s + u)[i + k]) && ClassHas(p[k], (u + s)[|u| + i + k]) {
      assert (s + u)[i + k] == s[i + k] == (u + s)[|u| + i + k];
    }
    assert MatchAt(s + u, i, p);
    assert MatchAt(u + s, |u| + i, p);
  }

  /** The two strings differ at most in the case of their letters. */
  predicate SameUpToCase(a: string, b: string) {
    |a| == |b| && forall k :: 0 <= k < |a| ==> Upper(a[k]) == Upper(b[k])
  }

  /** Every position of the pattern compares characters after `Upper` (an `i`-flag pattern). */
  predicate IgnoresCase(p: Pattern) {
    forall k :: 0 <= k < |p| ==> p[k].AnyCase? || p[k].RangeAnyCase?
  }

  /** A pattern matched with the `i` flag cannot tell two strings apart that differ only in case. */
  lemma FoundIgnoresCase(s: string, t: string, p: Pattern)
    requires IgnoresCase(p) && SameUpToCase(s, t)
    ensures Found(s, p) <==> Found(t, p)
  {
    forall i | 0 <= i <= |s| - |p| ensures MatchAt(s, i, p) <==> MatchAt(t, i, p) {
      forall k | 0 <= k < |p| ensures ClassHas(p[k], s[i + k]) <==> ClassHas(p[k], t[i + k]) {
        assert Upper(s[i + k]) == Upper(t[i + k]);
      }
    }
    if Found(s, p) {
      var i :| 0 <= i <= |s| - |p| && MatchAt(s, i, p);
      assert MatchAt(t, i, p);
    }
    if Found(t, p) {
      var i :| 0 <= i <= |t| - |p| && MatchAt(t, i, p);
      assert MatchAt(s, i, p);
    }
  }

  // ---------------------------------------------------------------------
  // trim
  // ---------------------------------------------------------------------

  function TrimStart(s: string): string {
    if |s| > 0 && IsSpace(s[0]) then TrimStart(s[1..]) else s
  }

  /** What `TrimStart` removes is whitespace, and what it keeps does not start with any. */
  lemma {:induction false} TrimStartFacts(s: string)
    ensures var r := TrimStart(s); |r| <= |s| && r == s[|s| - |r|..]
    ensures var r := TrimStart(s); (r == [] || !IsSpace(r[0])) && AllSpace(s[..|s| - |r|])
    decreases |s|
  {
    if |s| > 0 && IsSpace(s[0]) {
      var r := TrimStart(s[1..]);
      TrimStartFacts(s[1..]);
      assert TrimStart(s) == r;
      var d := |s| - |r|;
      forall k | 0 <= k < d ensures IsSpace(s[..d][k]) {
        if k > 0 {
          assert s[..d][k] == s[1..][..d - 1][k - 1];
        }
      }
    }
  }

  function TrimEnd(s: string): string {
    if |s| > 0 && IsSpace(s[|s| - 1]) then TrimEnd(s[..|s| - 1]) else s
  }

  /** What `TrimEnd` removes is whitespace, and what it keeps does not end with any. */
  lemma {:induction false} TrimEndFacts(s: string)
    ensures var r := TrimEnd(s); |r| <= |s| && r == s[..|r|]
    ensures var r := TrimEnd(s); (r == [] || !IsSpace(r[|r| - 1])) && AllSpace(s[|r|..])
    decreases |s|
  {
    if |s| > 0 && IsSpace(s[|s| - 1]) {
      var r := TrimEnd(s[..|s| - 1]);
      TrimEndFacts(s[..|s| - 1]);
      assert TrimEnd(s) == r;
      forall k | 0 <= k < |s| - |r| ensures IsSpace(s[|r|..][k]) {
        if k < |s| - 1 - |r| {
          assert s[|r|..][k] == s[..|s| - 1][|r|..][k];
        }
      }
    }
  }

  /** `s.trim()`: the whitespace at both ends removed, nothing else. */
  function Trim(s: string): (r: string)
    ensures r == [] || (!IsSpace(r[0]) && !IsSpace(r[|r| - 1]))
    ensures |r| <= |s|
  {
    TrimEndFacts(s);
    TrimStartFacts(TrimEnd(s));
    TrimStart(TrimEnd(s))
  }

  /** Trimming keeps a property every character of the string has. */
  lemma TrimKeepsNoLineTerminator(s: string)
    requires NoLineTerminator(s)
    ensures NoLineTerminator(Trim(s))
  {
    var r := Trim(s);
    var a := TrimOffset(s);
    forall k | 0 <= k < |r| ensures !IsLineTerminator(r[k]) {
      assert r[k] == s[a + k];
    }
  }

  /** Text absent from a string is absent from its trimmed form. */
  lemma TrimKeepsAbsence(s: string, t: string)
    requires !Contains(s, t)
    ensures !Contains(Trim(s), t)
  {
    var r := Trim(s);
    var a := TrimOffset(s);
    if Contains(r, t) {
      ContainsOfSlice(s, a, a + |r|, t);
    }
  }

  /**
   * `trim` removes only whitespace: the trimmed text is the slice of the
   * input starting at `a`, and what lies on either side of it is whitespace.
   */
  lemma TrimOffset(s: string) returns (a: nat)
    ensures a + |Trim(s)| <= |s| && Trim(s) == s[a..a + |Trim(s)|]
    ensures AllSpace(s[..a]) && AllSpace(s[a + |Trim(s)|..])
  {
    var e := TrimEnd(s);
    var r := TrimStart(e);
    TrimEndFacts(s);
    TrimStartFacts(e);
    assert Trim(s) == r;
    a := |e| - |r|;
    assert r == s[a..|e|];
    assert s[..a] == e[..a];
  }

  /** Trimming a text of whitespace only leaves nothing. */
  lemma TrimOfAllSpace(s: string)
    requires AllSpace(s)
    ensures Trim(s) == []
  {
    TrimEndOfAllSpace(s);
  }

  lemma {:induction false} TrimEndOfAllSpace(s: string)
    requires AllSpace(s)
    ensures TrimEnd(s) == []
    decreases |s|
  {
    if |s| > 0 {
      var t := s[..|s| - 1];
      forall k | 0 <= k < |t| ensures IsSpace(t[k]) {
        assert t[k] == s[k];
      }
      TrimEndOfAllSpace(t);
    }
  }

  /** Trimming removes exactly the whitespace around a tidy text. */
  lemma SpacesAroundTrim(lead: string, t: string, trail: string)
    requires AllSpace(lead) && AllSpace(trail)
    requires t != [] && !IsSpace(t[0]) && !IsSpace(t[|t| - 1])
    ensures Trim(lead + t + trail) == t
  {
    var s := lead + t + trail;
    assert TrimEnd(s) == lead + t by {
      TrimEndSpaces(lead + t, trail);
    }
    TrimStartSpaces(lead, t);
  }

  lemma {:induction false} TrimEndSpaces(u: string, trail: string)
    requires AllSpace(trail) && u != [] && !IsSpace(u[|u| - 1])
    ensures TrimEnd(u + trail) == u
    decreases |trail|
  {
    if trail == [] {
      assert u + trail == u;
    } else {
      var s := u + trail;
      assert s[..|s| - 1] == u + trail[..|trail| - 1];
      TrimEndSpaces(u, trail[..|trail| - 1]);
    }
  }

  lemma {:induction false} TrimStartSpaces(lead: string, u: string)
    requires AllSpace(lead) && u != [] && !IsSpace(u[0])
    ensures TrimStart(lead + u) == u
    decreases |lead|
  {
    if lead == [] {
      assert lead + u == u;
    } else {
      var s := lead + u;
      assert s[1..] == lead[1..] + u;
      TrimStartSpaces(lead[1..], u);
    }
  }

  lemma TrimOfNoEdgeSpace(s: string)
    requires s == [] || (!IsSpace(s[0]) && !IsSpace(s[|s| - 1]))
    ensures Trim(s) == s
  {
  }

  // ---------------------------------------------------------------------
  // split on one character
  // ---------------------------------------------------------------------

  /** `s.split(sep)` for a one-character separator. */
  function Split(s: string, sep: char): (r: seq<string>)
    ensures |r| >= 1
    decreases |s|
  {
    if |s| == 0 then [""]
    else if s[0] == sep then [""] + Split(s[1..], sep)
    else
      var rest := Split(s[1..], sep);
      [[s[0]] + rest[0]] + rest[1..]
  }

  /** No piece of a split holds the separator. */
  lemma {:induction false} SplitPiecesLackSeparator(s: string, sep: char)
    ensures forall k :: 0 <= k < |Split(s, sep)| ==> sep !in Split(s, sep)[k]
    decreases |s|
  {
    if |s| > 0 {
      SplitPiecesLackSeparator(s[1..], sep);
      if s[0] != sep {
        var rest := Split(s[1..], sep);
        assert sep !in rest[0];
        assert Split(s, sep)[1..] == rest[1..];
      }
    }
  }

  /** `parts.join(sep)`. */
  function Join(parts: seq<string>, sep: char): string
    requires |parts| >= 1
  {
    if |parts| == 1 then parts[0] else parts[0] + [sep] + Join(parts[1..], sep)
  }

  /** Number of occurrences of `c` in `s`. */
  function CountChar(s: string, c: char): nat {
    if |s| == 0 then 0 else (if s[0] == c then 1 else 0) + CountChar(s[1..], c)
  }

  /** Joining the pieces again gives back the string, and there is one piece more than separators. */
  lemma {:induction false} SplitJoin(s: string, sep: char)
    ensures Join(Split(s, sep), sep) == s
    ensures |Split(s, sep)| == CountChar(s, sep) + 1
  {
    JoinOfSplit(s, sep);
    SplitPieceCount(s, sep);
  }

  lemma {:induction false} JoinOfSplit(s: string, sep: char)
    ensures Join(Split(s, sep), sep) == s
    decreases |s|
  {
    if |s| == 0 {
    } else if s[0] == sep {
      JoinOfSplit(s[1..], sep);
      assert s == [sep] + s[1..];
    } else {
      JoinOfSplit(s[1..], sep);
      var rest := Split(s[1..], sep);
      if |rest| == 1 {
        assert s == [s[0]] + rest[0];
      } else {
        assert ([s[0]] + rest[0]) + [sep] + Join(rest[1..], sep) == [s[0]] + (rest[0] + [sep] + Join(rest[1..], sep));
        assert s == [s[0]] + s[1..];
      }
    }
  }

  lemma {:induction false} SplitPieceCount(s: string, sep: char)
    ensures |Split(s, sep)| == CountChar(s, sep) + 1
    decreases |s|
  {
    if |s| > 0 {
      SplitPieceCount(s[1..], sep);
    }
  }

  /** A prefix without the separator is the first piece; the rest is split on its own. */
  lemma {:induction false} SplitAfterField(a: string, sep: char, b: string)
    requires sep !in a
    ensures Split(a + [sep] + b, sep) == [a] + Split(b, sep)
    decreases |a|
  {
    if |a| == 0 {
      assert a + [sep] + b == [sep] + b;
      assert (a + [sep] + b)[1..] == b;
    } else {
      assert (a + [sep] + b)[1..] == a[1..] + [sep] + b;
      SplitAfterField(a[1..], sep, b);
      assert [a[0]] + a[1..] == a;
    }
  }

  /** Splitting two texts joined by the separator gives the pieces of each, in order. */
  lemma {:induction false} SplitConcat(a: string, sep: char, b: string)
    ensures Split(a + [sep] + b, sep) == Split(a, sep) + Split(b, sep)
    decreases |a|
  {
    if |a| == 0 {
      assert a + [sep] + b == [sep] + b;
      assert (a + [sep] + b)[1..] == b;
    } else {
      var s := a + [sep] + b;
      assert s[0] == a[0] && s[1..] == a[1..] + [sep] + b;
      SplitConcat(a[1..], sep, b);
      if a[0] != sep {
        PrependToFirstPiece(a[0], Split(a[1..], sep), Split(b, sep));
      }
    }
  }

  /** Adding a character to the first piece commutes with appending more pieces. */
  lemma PrependToFirstPiece(c: char, xs: seq<string>, ys: seq<string>)
    requires |xs| >= 1
    ensures [[c] + (xs + ys)[0]] + (xs + ys)[1..] == ([[c] + xs[0]] + xs[1..]) + ys
  {
    assert (xs + ys)[1..] == xs[1..] + ys;
  }

  lemma {:induction false} SplitNoSeparator(a: string, sep: char)
    requires sep !in a
    ensures Split(a, sep) == [a]
    decreases |a|
  {
    if |a| > 0 {
      SplitNoSeparator(a[1..], sep);
      assert [a[0]] + a[1..] == a;
    }
  }

  // ---------------------------------------------------------------------
  // filter and map
  // ---------------------------------------------------------------------

  /** `xs.filter(keep)`: the elements that pass, in their order. */
  function Filter<T>(keep: T -> bool, xs: seq<T>): (r: seq<T>)
    ensures |r| <= |xs|
    ensures forall k :: 0 <= k < |r| ==> keep(r[k]) && r[k] in xs
    decreases |xs|
  {
    if |xs| == 0 then []
    else if keep(xs[0]) then [xs[0]] + Filter(keep, xs[1..])
    else Filter(keep, xs[1..])
  }

  lemma {:induction false} FilterAppend<T>(keep: T -> bool, a: seq<T>, b: seq<T>)
    ensures Filter(keep, a + b) == Filter(keep, a) + Filter(keep, b)
    decreases |a|
  {
    if |a| > 0 {
      assert (a + b)[0] == a[0] && (a + b)[1..] == a[1..] + b;
      FilterAppend(keep, a[1..], b);
      if keep(a[0]) {
        assert [a[0]] + (Filter(keep, a[1..]) + Filter(keep, b)) == ([a[0]] + Filter(keep, a[1..])) + Filter(keep, b);
      }
    } else {
      assert a + b == b;
    }
  }

  /** `xs.map(f)`. */
  function Map<T, U>(f: T -> U, xs: seq<T>): (r: seq<U>)
    ensures |r| == |xs| && forall k :: 0 <= k < |xs| ==> r[k] == f(xs[k])
  {
    seq(|xs|, k requires 0 <= k < |xs| => f(xs[k]))
  }

  lemma MapAppend<T, U>(f: T -> U, a: seq<T>, b: seq<T>)
    ensures Map(f, a + b) == Map(f, a) + Map(f, b)
  {
  }

  // ---------------------------------------------------------------------
  // Decimal numbers
  // ---------------------------------------------------------------------

  function DigitChar(d: nat): (c: char)
    requires d < 10
    ensures IsDigit(c)
  {
    ('0' as int + d) as char
  }

  function DigitValue(c: char): (d: nat)
    requires IsDigit(c)
    ensures d < 10
  {
    assert c as int >= '0' as int;
    c as int - '0' as int
  }

  /** `n.toString()` for a non-negative integer: decimal, no leading zero. */
  function NatToString(n: nat): (r: string)
    ensures |r| >= 1 && AllDigits(r)
    ensures |r| > 1 ==> r[0] != '0'
    ensures n < 10 <==> |r| == 1
    decreases n
  {
    if n < 10 then [DigitChar(n)] else NatToString(n / 10) + [DigitChar(n % 10)]
  }

  /** The value of a string of decimal digits. */
  function DigitsValue(s: string): nat
    requires AllDigits(s)
    decreases |s|
  {
    if |s| == 0 then 0 else DigitsValue(s[..|s| - 1]) * 10 + DigitValue(s[|s| - 1])
  }

  lemma {:induction false} DigitsValueOfNat(n: nat)
    ensures DigitsValue(NatToString(n)) == n
    decreases n
  {
    if n >= 10 {
      DigitsValueOfNat(n / 10);
      var s := NatToString(n);
      assert s[..|s| - 1] == NatToString(n / 10);
    }
  }

  /** Leading zeros do not change the value of a digit string. */
  lemma {:induction false} DigitsValueLeadingZero(s: string)
    requires AllDigits(s)
    ensures AllDigits("0" + s) && DigitsValue("0" + s) == DigitsValue(s)
    decreases |s|
  {
    if |s| > 0 {
      DigitsValueLeadingZero(s[..|s| - 1]);
      assert ("0" + s)[..|"0" + s| - 1] == "0" + s[..|s| - 1];
    }
  }

  /** `s.padStart(width, fill)`. */
  function PadStart(s: string, width: nat, fill: char): (r: string)
    ensures |r| == if |s| >= width then |s| else width
    ensures r[|r| - |s|..] == s
    ensures forall k :: 0 <= k < |r| - |s| ==> r[k] == fill
  {
    if |s| >= width then s else seq(width - |s|, _ => fill) + s
  }

  /**
   * `parseInt(s)` in base 10: leading whitespace, an optional sign, then the
   * longest run of decimal digits; None stands for NaN.
   */
  function ParseInt(s: string): (r: Option<int>)
  {
    var a := SpanWhile(IsSpace, s, 0);
    var neg := a < |s| && s[a] == '-';
    var b := if a < |s| && (s[a] == '-' || s[a] == '+') then a + 1 else a;
    var e := SpanWhile(IsDigit, s, b);
    if e == b then None
    else
      SpanWhileRun(IsDigit, s, b);
      var v: int := DigitsValue(s[b..e]);
      Some(if neg then -v else v)
  }

  /** `parseInt` gives back a printed number, whatever non-digit text follows it. */
  lemma ParseIntOfNat(n: nat, rest: string)
    requires rest == [] || !IsDigit(rest[0])
    ensures ParseInt(NatToString(n) + rest) == Some(n)
  {
    var d := NatToString(n);
    var s := d + rest;
    assert s[0] == d[0];
    SpanWhileExact(IsSpace, s, 0, 0);
    SpanWhileExact(IsDigit, s, 0, |d|);
    assert s[0..|d|] == d;
    DigitsValueOfNat(n);
  }
}
