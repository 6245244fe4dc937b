/**
 * The speech-to-text page (Speech2Text/public/js/script.js): how a
 * recognised transcript is capitalised and punctuated, the counts and the
 * timer it shows, and the recorder's state with its bounded history.
 */
module Transcript {
  import opened Wrappers
  import opened Text

  // ---------------------------------------------------------------------
  // capitalizeSentences: `/(^\w|\.\s+\w)/gm`, then the first character
  // ---------------------------------------------------------------------

  /** `^` with the `m` flag: the start of the text or of a line. */
  predicate LineStart(s: string, k: nat)
    requires k <= |s|
  {
    k == 0 || IsLineTerminator(s[k - 1])
  }

  /** Where the whitespace run that ends at `k` begins. */
  function SpaceRunStart(s: string, k: nat): (j: nat)
    requires k <= |s|
    ensures j <= k
    decreases k
  {
    if k > 0 && IsSpace(s[k - 1]) then SpaceRunStart(s, k - 1) else k
  }

  lemma {:induction false} SpaceRunStartRun(s: string, k: nat)
    requires k <= |s|
    ensures forall m :: SpaceRunStart(s, k) <= m < k ==> IsSpace(s[m])
    decreases k
  {
    if k > 0 && IsSpace(s[k - 1]) {
      SpaceRunStartRun(s, k - 1);
    }
  }

  /** A dot and one or more whitespace characters come right before `k`. */
  predicate AfterDot(s: string, k: nat)
    requires k <= |s|
  {
    var j := SpaceRunStart(s, k);
    0 < j < k && s[j - 1] == '.'
  }

  /** The characters the regular expression upper-cases: word characters at a line start or after a dot and whitespace. */
  predicate SentenceStart(s: string, k: nat)
    requires k < |s|
  {
    IsWordChar(s[k]) && (LineStart(s, k) || AfterDot(s, k))
  }

  /** The reference result: every sentence start upper-cased, every other character kept. */
  function SentencesCapitalized(s: string): (r: string)
    ensures |r| == |s|
  {
    seq(|s|, k requires 0 <= k < |s| => if SentenceStart(s, k) then Upper(s[k]) else s[k])
  }

  /**
   * The global replacement, scanning from `p`. Upper-casing the dot and
   * the whitespace of a `\.\s+\w` match leaves them unchanged, so only its
   * last character is mapped.
   */
  function CapitalizeFrom(s: string, p: nat): (r: string)
    requires p <= |s|
    ensures |r| == |s| - p
    decreases |s| - p
  {
    if p == |s| then []
    else if LineStart(s, p) && IsWordChar(s[p]) then [Upper(s[p])] + CapitalizeFrom(s, p + 1)
    else if s[p] == '.' then
      var e := SpanWhile(IsSpace, s, p + 1);
      if p + 1 < e < |s| && IsWordChar(s[e]) then s[p..e] + [Upper(s[e])] + CapitalizeFrom(s, e + 1)
      else [s[p]] + CapitalizeFrom(s, p + 1)
    else [s[p]] + CapitalizeFrom(s, p + 1)
  }

  /** The scan at `p` is not inside a dot match that ends after `p`. */
  predicate ScanBoundary(s: string, p: nat)
    requires p <= |s|
  {
    forall k :: p <= k < |s| && DotWordAt(s, k) ==> SpaceRunStart(s, k) > p
  }

  /** A word character that a dot and whitespace come right before. */
  predicate DotWordAt(s: string, k: nat)
    requires k < |s|
  {
    AfterDot(s, k) && IsWordChar(s[k])
  }

  /** A dot at `p` followed by whitespace up to a word character at `k`, seen from `k`. */
  lemma DotRunSeenFromEnd(s: string, p: nat, k: nat)
    requires p < k < |s| && s[p] == '.'
    requires forall m :: p < m < k ==> IsSpace(s[m])
    ensures SpaceRunStart(s, k) == p + 1
    decreases k - p
  {
    if k > p + 1 {
      DotRunSeenFromEnd(s, p, k - 1);
    }
  }

  lemma {:induction false} CapitalizeFromSpec(s: string, p: nat)
    requires p <= |s| && ScanBoundary(s, p)
    ensures CapitalizeFrom(s, p) == SentencesCapitalized(s)[p..]
    decreases |s| - p, 2
  {
    if p < |s| {
      var e := SpanWhile(IsSpace, s, p + 1);
      if s[p] == '.' && p + 1 < e < |s| && IsWordChar(s[e]) {
        DotMatchCase(s, p, e);
      } else {
        SingleCase(s, p);
      }
    } else {
      assert SentencesCapitalized(s)[p..] == [];
    }
  }

  /** The scan from `p` when a dot match runs from `p` to `e`. */
  lemma {:induction false} DotMatchCase(s: string, p: nat, e: nat)
    requires p + 1 < e < |s| && s[p] == '.' && IsWordChar(s[e]) && e == SpanWhile(IsSpace, s, p + 1)
    ensures CapitalizeFrom(s, p) == SentencesCapitalized(s)[p..]
    decreases |s| - p, 1
  {
    ScanAfterDotMatch(s, p, e);
    DotMatchStep(s, p, e);
  }

  /** The scan after a dot match is at a boundary, so the rest of it is correct. */
  lemma {:induction false} ScanAfterDotMatch(s: string, p: nat, e: nat)
    requires p + 1 < e < |s| && s[p] == '.' && IsWordChar(s[e]) && e == SpanWhile(IsSpace, s, p + 1)
    ensures CapitalizeFrom(s, e + 1) == SentencesCapitalized(s)[e + 1..]
    decreases |s| - p, 0
  {
    SpanWhileRun(IsSpace, s, p + 1);
    DotMatchBoundary(s, p, e);
    CapitalizeFromSpec(s, e + 1);
  }

  /** The scan from `p` when the character at `p` is scanned on its own. */
  lemma {:induction false} SingleCase(s: string, p: nat)
    requires p < |s| && ScanBoundary(s, p)
    requires s[p] == '.' ==> var e := SpanWhile(IsSpace, s, p + 1); !(p + 1 < e < |s| && IsWordChar(s[e]))
    ensures CapitalizeFrom(s, p) == SentencesCapitalized(s)[p..]
    decreases |s| - p, 0
  {
    assert CapitalizeFrom(s, p + 1) == SentencesCapitalized(s)[p + 1..] by {
      StepBoundary(s, p);
      CapitalizeFromSpec(s, p + 1);
    }
    SingleStep(s, p);
  }

  /** One character scanned on its own, followed by the rest of the scan. */
  lemma SingleStep(s: string, p: nat)
    requires p < |s| && ScanBoundary(s, p)
    requires s[p] == '.' ==> var e := SpanWhile(IsSpace, s, p + 1); !(p + 1 < e < |s| && IsWordChar(s[e]))
    requires CapitalizeFrom(s, p + 1) == SentencesCapitalized(s)[p + 1..]
    ensures CapitalizeFrom(s, p) == SentencesCapitalized(s)[p..]
  {
    var c := SentencesCapitalized(s);
    assert c[p..] == [c[p]] + c[p + 1..];
    if LineStart(s, p) && IsWordChar(s[p]) {
      assert c[p] == Upper(s[p]);
    } else {
      assert c[p] == s[p] by {
        assert !DotWordAt(s, p) by {
          assert SpaceRunStart(s, p) <= p;
        }
      }
    }
  }

  /** A dot match from `p` to the word character at `e`, followed by the rest of the scan. */
  lemma DotMatchStep(s: string, p: nat, e: nat)
    requires p + 1 < e < |s| && s[p] == '.' && IsWordChar(s[e]) && e == SpanWhile(IsSpace, s, p + 1)
    requires CapitalizeFrom(s, e + 1) == SentencesCapitalized(s)[e + 1..]
    ensures CapitalizeFrom(s, p) == SentencesCapitalized(s)[p..]
  {
    var c := SentencesCapitalized(s);
    DotRunKept(s, p, e);
    DotMatchEndUpper(s, p, e);
    SliceAround(c, p, e);
    CapitalizeFromDotMatch(s, p, e);
  }

  /** The scan maps a dot match in one go. */
  lemma CapitalizeFromDotMatch(s: string, p: nat, e: nat)
    requires p + 1 < e < |s| && s[p] == '.' && IsWordChar(s[e]) && e == SpanWhile(IsSpace, s, p + 1)
    ensures CapitalizeFrom(s, p) == s[p..e] + [Upper(s[e])] + CapitalizeFrom(s, e + 1)
  {
    assert !(LineStart(s, p) && IsWordChar(s[p]));
  }

  /** A suffix cut into the part before `e`, the element at `e` and the rest. */
  lemma SliceAround<T>(c: seq<T>, p: nat, e: nat)
    requires p <= e < |c|
    ensures c[p..] == c[p..e] + [c[e]] + c[e + 1..]
  {
  }

  /** The dot and the whitespace of a dot match are kept as they are. */
  lemma DotRunKept(s: string, p: nat, e: nat)
    requires p + 1 < e < |s| && s[p] == '.' && e == SpanWhile(IsSpace, s, p + 1)
    ensures SentencesCapitalized(s)[p..e] == s[p..e]
  {
    var c := SentencesCapitalized(s);
    SpanWhileRun(IsSpace, s, p + 1);
    forall k | p <= k < e ensures c[k] == s[k] {
      assert !IsWordChar(s[k]);
    }
  }

  /** The word character that ends a dot match is upper-cased. */
  lemma DotMatchEndUpper(s: string, p: nat, e: nat)
    requires p + 1 < e < |s| && s[p] == '.' && IsWordChar(s[e]) && e == SpanWhile(IsSpace, s, p + 1)
    ensures SentencesCapitalized(s)[e] == Upper(s[e])
  {
    SpanWhileRun(IsSpace, s, p + 1);
    DotRunSeenFromEnd(s, p, e);
  }

  /** Moving on by one keeps the scan at a boundary unless a dot match starts here. */
  lemma StepBoundary(s: string, p: nat)
    requires p < |s| && ScanBoundary(s, p)
    requires s[p] == '.' ==> var e := SpanWhile(IsSpace, s, p + 1); !(p + 1 < e < |s| && IsWordChar(s[e]))
    ensures ScanBoundary(s, p + 1)
  {
    forall k | p + 1 <= k < |s| && DotWordAt(s, k) ensures SpaceRunStart(s, k) > p + 1 {
      var j := SpaceRunStart(s, k);
      assert j != p + 1 by {
        if j == p + 1 {
          SpaceRunStartRun(s, k);
          SpanWhileExact(IsSpace, s, p + 1, k);
        }
      }
    }
  }

  /** After a dot match that ends at `e`, the scan is at a boundary again. */
  lemma DotMatchBoundary(s: string, p: nat, e: nat)
    requires p + 1 < e < |s| && s[p] == '.' && IsWordChar(s[e])
    requires forall m :: p < m < e ==> IsSpace(s[m])
    ensures ScanBoundary(s, e + 1)
  {
    forall k | e + 1 <= k < |s| && DotWordAt(s, k) ensures SpaceRunStart(s, k) > e + 1 {
      SpaceRunStartRun(s, k);
    }
  }

  /**
   * `capitalizeSentences`: the sentence starts, and the first character,
   * upper-cased; nothing else changes.
   */
  function Capitalize(text: string): (r: string)
    ensures |r| == |text|
    ensures forall k :: 0 <= k < |text| ==>
      r[k] == if k == 0 || SentenceStart(text, k) then Upper(text[k]) else text[k]
  {
    var t := CapitalizeFrom(text, 0);
    CapitalizeFromSpec(text, 0);
    assert forall k :: 0 <= k < |text| ==> t[k] == SentencesCapitalized(text)[k];
    if |t| > 0 && !IsUpper(t[0]) then [Upper(t[0])] + t[1..] else t
  }

  /** Capitalisation changes letter case only. */
  lemma CapitalizeChangesCaseOnly(text: string)
    ensures SameUpToCase(Capitalize(text), text)
  {
  }

  // ---------------------------------------------------------------------
  // addPunctuation: four regular-expression rewrites in a row
  // ---------------------------------------------------------------------

  /** `[.!?]`: a sentence ending. */
  predicate IsTerminal(c: char) { c == '.' || c == '!' || c == '?' }

  predicate NotSpace(c: char) { !IsSpace(c) }

  /** Every whitespace character is a plain space, and no two whitespace characters are adjacent. */
  predicate LoneSpaces(s: string) {
    && (forall k :: 0 <= k < |s| && IsSpace(s[k]) ==> s[k] == ' ')
    && (forall i, j {:trigger s[i], s[j]} :: 0 <= i < |s| && 0 <= j < |s| && j == i + 1 && IsSpace(s[i]) ==> !IsSpace(s[j]))
  }

  /** No sentence ending is directly followed by a letter. */
  predicate Separated(r: string) {
    forall i, j {:trigger r[i], r[j]} :: 0 <= i < |r| && 0 <= j < |r| && j == i + 1 && IsTerminal(r[i]) ==> !IsLetter(r[j])
  }

  /** The text without its whitespace: what the rewrites must keep. */
  function Letters(s: string): string { Filter(NotSpace, s) }

  /** `text.replace(/\s+/g, " ")`. */
  function CollapseSpaces(s: string): (r: string)
    ensures s != [] ==> r != [] && (IsSpace(r[0]) <==> IsSpace(s[0]))
    decreases |s|
  {
    if s == [] then []
    else if IsSpace(s[0]) then " " + CollapseSpaces(s[SpanWhile(IsSpace, s, 0)..])
    else [s[0]] + CollapseSpaces(s[1..])
  }

  /** `text += "."` unless `/[.!?]$/` matches. */
  function EnsureEnd(t: string): (u: string)
    ensures |u| > 0 && IsTerminal(u[|u| - 1])
    ensures u == (if |t| > 0 && IsTerminal(t[|t| - 1]) then t else t + ".")
  {
    if |t| > 0 && IsTerminal(t[|t| - 1]) then t else t + "."
  }

  /** `text.replace(/([.!?])([A-Za-z])/g, "$1 $2")`. */
  function SpaceAfterPunct(s: string): (r: string)
    ensures |s| > 0 ==> |r| > 0 && r[0] == s[0] && r[|r| - 1] == s[|s| - 1]
    ensures s == [] ==> r == []
    decreases |s|
  {
    if |s| < 2 then s
    else if IsTerminal(s[0]) && IsLetter(s[1]) then [s[0], ' ', s[1]] + SpaceAfterPunct(s[2..])
    else [s[0]] + SpaceAfterPunct(s[1..])
  }

  /** `text.replace(/([.!?])\s+/g, "$1\n")`. */
  function BreakAfterPunct(s: string): (r: string)
    ensures |s| > 0 ==> |r| > 0 && r[0] == s[0]
    decreases |s|
  {
    if s == [] then []
    else if IsTerminal(s[0]) && |s| > 1 && IsSpace(s[1]) then [s[0], '\n'] + BreakAfterPunct(s[SpanWhile(IsSpace, s, 1)..])
    else [s[0]] + BreakAfterPunct(s[1..])
  }

  /** `addPunctuation`. */
  function AddPunctuation(text: string): string
  {
    BreakAfterPunct(SpaceAfterPunct(EnsureEnd(Trim(CollapseSpaces(text)))))
  }

  lemma ConsLoneSpaces(c: char, rest: string)
    requires LoneSpaces(rest)
    requires IsSpace(c) ==> c == ' ' && (rest == [] || !IsSpace(rest[0]))
    ensures LoneSpaces([c] + rest)
  {
    var r := [c] + rest;
    forall k | 0 <= k < |r| && IsSpace(r[k]) ensures r[k] == ' ' {
      if k > 0 {
        assert r[k] == rest[k - 1];
      }
    }
    forall i, j | 0 <= i < |r| && 0 <= j < |r| && j == i + 1 && IsSpace(r[i]) ensures !IsSpace(r[j]) {
      assert r[j] == rest[j - 1];
      if i > 0 {
        assert r[i] == rest[i - 1];
      }
    }
  }

  lemma SnocLoneSpaces(t: string, c: char)
    requires LoneSpaces(t) && !IsSpace(c)
    ensures LoneSpaces(t + [c])
  {
    var r := t + [c];
    forall k | 0 <= k < |r| && IsSpace(r[k]) ensures r[k] == ' ' {
      assert k < |t| && r[k] == t[k];
    }
    forall i, j | 0 <= i < |r| && 0 <= j < |r| && j == i + 1 && IsSpace(r[i]) ensures !IsSpace(r[j]) {
      assert r[i] == t[i];
      if j < |t| {
        assert r[j] == t[j];
      }
    }
  }

  lemma LoneSpacesSlice(s: string, a: nat, b: nat)
    requires a <= b <= |s| && LoneSpaces(s)
    ensures LoneSpaces(s[a..b])
  {
    var t := s[a..b];
    forall k | 0 <= k < |t| && IsSpace(t[k]) ensures t[k] == ' ' {
      assert t[k] == s[a + k];
    }
    forall i, j | 0 <= i < |t| && 0 <= j < |t| && j == i + 1 && IsSpace(t[i]) ensures !IsSpace(t[j]) {
      assert t[i] == s[a + i] && t[j] == s[a + j];
    }
  }

  lemma {:induction false} CollapseLoneSpaces(s: string)
    ensures LoneSpaces(CollapseSpaces(s))
    decreases |s|
  {
    if s != [] {
      if IsSpace(s[0]) {
        var e := SpanWhile(IsSpace, s, 0);
        SpanWhileRun(IsSpace, s, 0);
        CollapseLoneSpaces(s[e..]);
        ConsLoneSpaces(' ', CollapseSpaces(s[e..]));
      } else {
        CollapseLoneSpaces(s[1..]);
        ConsLoneSpaces(s[0], CollapseSpaces(s[1..]));
      }
    }
  }

  lemma {:induction false} LettersOfSpaces(s: string)
    requires AllSpace(s)
    ensures Letters(s) == []
    decreases |s|
  {
    if s != [] {
      LettersOfSpaces(s[1..]);
    }
  }

  lemma {:induction false} CollapseKeepsLetters(s: string)
    ensures Letters(CollapseSpaces(s)) == Letters(s)
    decreases |s|
  {
    if s != [] {
      if IsSpace(s[0]) {
        var e := SpanWhile(IsSpace, s, 0);
        SpanWhileRun(IsSpace, s, 0);
        CollapseKeepsLetters(s[e..]);
        FilterAppend(NotSpace, " ", CollapseSpaces(s[e..]));
        assert s == s[..e] + s[e..];
        FilterAppend(NotSpace, s[..e], s[e..]);
        LettersOfSpaces(s[..e]);
        LettersOfSpaces(" ");
      } else {
        CollapseKeepsLetters(s[1..]);
        assert ([s[0]] + CollapseSpaces(s[1..]))[1..] == CollapseSpaces(s[1..]);
      }
    }
  }

  /** The text around `Trim(s)` is whitespace. */
  lemma TrimParts(s: string) returns (lead: string, trail: string)
    ensures s == lead + Trim(s) + trail && AllSpace(lead) && AllSpace(trail)
  {
    var a := TrimOffset(s);
    var r := Trim(s);
    lead, trail := s[..a], s[a + |r|..];
    assert s == lead + s[a..a + |r|] + trail;
  }

  lemma TrimKeepsLetters(s: string)
    ensures Letters(Trim(s)) == Letters(s)
  {
    var lead, trail := TrimParts(s);
    var r := Trim(s);
    FilterAppend(NotSpace, lead + r, trail);
    FilterAppend(NotSpace, lead, r);
    LettersOfSpaces(lead);
    LettersOfSpaces(trail);
  }

  lemma TrimKeepsLoneSpaces(s: string)
    requires LoneSpaces(s)
    ensures LoneSpaces(Trim(s))
  {
    var lead, trail := TrimParts(s);
    var r := Trim(s);
    assert r == s[|lead|..|lead| + |r|];
    LoneSpacesSlice(s, |lead|, |lead| + |r|);
  }

  lemma ConsSeparated(c: char, rest: string)
    requires Separated(rest)
    requires IsTerminal(c) && rest != [] ==> !IsLetter(rest[0])
    ensures Separated([c] + rest)
  {
    var r := [c] + rest;
    forall i, j | 0 <= i < |r| && 0 <= j < |r| && j == i + 1 && IsTerminal(r[i]) ensures !IsLetter(r[j]) {
      assert r[j] == rest[j - 1];
      if i > 0 {
        assert r[i] == rest[i - 1];
      }
    }
  }

  lemma {:induction false} SpaceAfterPunctSeparates(s: string)
    ensures Separated(SpaceAfterPunct(s))
    decreases |s|
  {
    if |s| >= 2 {
      if IsTerminal(s[0]) && IsLetter(s[1]) {
        SpaceAfterPunctSeparates(s[2..]);
        var rest := SpaceAfterPunct(s[2..]);
        ConsSeparated(s[1], rest);
        ConsSeparated(' ', [s[1]] + rest);
        ConsSeparated(s[0], [' '] + ([s[1]] + rest));
        assert [s[0], ' ', s[1]] + rest == [s[0]] + ([' '] + ([s[1]] + rest));
      } else {
        SpaceAfterPunctSeparates(s[1..]);
        ConsSeparated(s[0], SpaceAfterPunct(s[1..]));
      }
    }
  }

  lemma {:induction false} SpaceAfterPunctKeepsLoneSpaces(s: string)
    requires LoneSpaces(s)
    ensures LoneSpaces(SpaceAfterPunct(s))
    decreases |s|
  {
    if |s| >= 2 {
      if IsTerminal(s[0]) && IsLetter(s[1]) {
        LoneSpacesSlice(s, 2, |s|);
        SpaceAfterPunctKeepsLoneSpaces(s[2..]);
        var rest := SpaceAfterPunct(s[2..]);
        ConsLoneSpaces(s[1], rest);
        ConsLoneSpaces(' ', [s[1]] + rest);
        ConsLoneSpaces(s[0], [' '] + ([s[1]] + rest));
        assert [s[0], ' ', s[1]] + rest == [s[0]] + ([' '] + ([s[1]] + rest));
      } else {
        LoneSpacesSlice(s, 1, |s|);
        SpaceAfterPunctKeepsLoneSpaces(s[1..]);
        assert IsSpace(s[0]) ==> !IsSpace(s[1]);
        ConsLoneSpaces(s[0], SpaceAfterPunct(s[1..]));
      }
    }
  }

  lemma {:induction false} SpaceAfterPunctKeepsLetters(s: string)
    ensures Letters(SpaceAfterPunct(s)) == Letters(s)
    decreases |s|
  {
    if |s| >= 2 {
      if IsTerminal(s[0]) && IsLetter(s[1]) {
        SpaceAfterPunctKeepsLetters(s[2..]);
        assert s == [s[0], s[1]] + s[2..];
        FilterAppend(NotSpace, [s[0], s[1]], s[2..]);
        FilterAppend(NotSpace, [s[0], ' ', s[1]], SpaceAfterPunct(s[2..]));
        assert [s[0], ' ', s[1]][1..] == [' ', s[1]];
        assert [' ', s[1]][1..] == [s[1]];
        assert [s[0], s[1]][1..] == [s[1]];
      } else {
        SpaceAfterPunctKeepsLetters(s[1..]);
        assert ([s[0]] + SpaceAfterPunct(s[1..]))[1..] == SpaceAfterPunct(s[1..]);
      }
    }
  }

  /** `r` is `s` with the whitespace that follows a sentence ending turned into line breaks. */
  predicate BreaksAt(r: string, s: string) {
    |r| == |s| && forall k {:trigger r[k]} :: 0 <= k < |s| ==>
      r[k] == if 0 < k && IsSpace(s[k]) && IsTerminal(s[k - 1]) then '\n' else s[k]
  }

  /**
   * On text whose whitespace is already single spaces, breaking after
   * punctuation turns exactly the spaces that follow a sentence ending into
   * line breaks.
   */
  lemma {:induction false} BreakOfLoneSpaces(s: string)
    requires LoneSpaces(s)
    ensures BreaksAt(BreakAfterPunct(s), s)
    decreases |s|
  {
    if s != [] {
      if IsTerminal(s[0]) && |s| > 1 && IsSpace(s[1]) {
        assert |s| > 2 ==> !IsSpace(s[2]) by {
          if |s| > 2 {
            assert IsSpace(s[1]) ==> !IsSpace(s[2]);
          }
        }
        SpanWhileExact(IsSpace, s, 1, 2);
        LoneSpacesSlice(s, 2, |s|);
        BreakOfLoneSpaces(s[2..]);
        var rest := BreakAfterPunct(s[2..]);
        var r := [s[0], '\n'] + rest;
        forall k | 0 <= k < |s| ensures r[k] == if 0 < k && IsSpace(s[k]) && IsTerminal(s[k - 1]) then '\n' else s[k] {
          if k >= 2 {
            assert r[k] == rest[k - 2] && s[k] == s[2..][k - 2];
            if k > 2 {
              assert s[k - 1] == s[2..][k - 3];
            }
          }
        }
      } else {
        LoneSpacesSlice(s, 1, |s|);
        BreakOfLoneSpaces(s[1..]);
        var rest := BreakAfterPunct(s[1..]);
        var r := [s[0]] + rest;
        forall k | 0 <= k < |s| ensures r[k] == if 0 < k && IsSpace(s[k]) && IsTerminal(s[k - 1]) then '\n' else s[k] {
          if k >= 1 {
            assert r[k] == rest[k - 1] && s[k] == s[1..][k - 1];
            if k > 1 {
              assert s[k - 1] == s[1..][k - 2];
            }
          }
        }
      }
    }
  }

  /** Two texts that differ only where both have whitespace have the same letters. */
  lemma {:induction false} LettersOfSpaceSwap(r: string, s: string)
    requires |r| == |s|
    requires forall k :: 0 <= k < |s| ==> r[k] == s[k] || (IsSpace(r[k]) && IsSpace(s[k]))
    ensures Letters(r) == Letters(s)
    decreases |s|
  {
    if s != [] {
      LettersOfSpaceSwap(r[1..], s[1..]);
    }
  }

  lemma EnsureEndKeepsLoneSpaces(t: string)
    requires LoneSpaces(t) && (t == [] || !IsSpace(t[0]))
    ensures LoneSpaces(EnsureEnd(t)) && !IsSpace(EnsureEnd(t)[0])
  {
    if EnsureEnd(t) != t {
      SnocLoneSpaces(t, '.');
    }
  }

  /**
   * The text `addPunctuation` produces: non-empty, starting with a visible
   * character and ending with a sentence ending (so every whitespace
   * character is interior); no sentence ending touches a letter, no two
   * whitespace characters are adjacent, and each whitespace character is
   * a line break after a sentence ending and a plain space elsewhere.
   */
  predicate Punctuated(r: string) {
    && |r| > 0 && !IsSpace(r[0]) && IsTerminal(r[|r| - 1])
    && forall i, j {:trigger r[i], r[j]} :: 0 <= i < |r| && 0 <= j < |r| && j == i + 1 ==>
      && (IsTerminal(r[i]) ==> !IsLetter(r[j]))
      && (IsSpace(r[i]) ==> !IsSpace(r[j]))
      && (IsSpace(r[j]) ==> r[j] == if IsTerminal(r[i]) then '\n' else ' ')
  }

  lemma BreakShape(v: string)
    requires LoneSpaces(v) && Separated(v)
    requires |v| > 0 && !IsSpace(v[0]) && IsTerminal(v[|v| - 1])
    ensures Punctuated(BreakAfterPunct(v))
  {
    var r := BreakAfterPunct(v);
    BreakOfLoneSpaces(v);
    assert r[|r| - 1] == v[|v| - 1];
    forall i, j | 0 <= i < |r| && 0 <= j < |r| && j == i + 1
      ensures IsTerminal(r[i]) ==> !IsLetter(r[j])
      ensures IsSpace(r[i]) ==> !IsSpace(r[j])
      ensures IsSpace(r[j]) ==> r[j] == if IsTerminal(r[i]) then '\n' else ' '
    {
      assert r[i] == v[i] || (r[i] == '\n' && IsSpace(v[i]));
      assert r[j] == if IsSpace(v[j]) && IsTerminal(v[i]) then '\n' else v[j];
      assert IsSpace(v[i]) ==> !IsSpace(v[j]);
      assert IsTerminal(v[i]) ==> !IsLetter(v[j]);
      assert IsSpace(v[j]) ==> v[j] == ' ';
    }
  }

  /** The text before the last rewrite has lone spaces. */
  lemma SpacedLoneSpaces(text: string)
    ensures LoneSpaces(SpaceAfterPunct(EnsureEnd(Trim(CollapseSpaces(text)))))
  {
    var c := CollapseSpaces(text);
    CollapseLoneSpaces(text);
    TrimKeepsLoneSpaces(c);
    EnsureEndKeepsLoneSpaces(Trim(c));
    SpaceAfterPunctKeepsLoneSpaces(EnsureEnd(Trim(c)));
  }

  lemma BreakKeepsLetters(v: string)
    requires LoneSpaces(v)
    ensures Letters(BreakAfterPunct(v)) == Letters(v)
  {
    BreakOfLoneSpaces(v);
    var r := BreakAfterPunct(v);
    forall k | 0 <= k < |v| ensures r[k] == v[k] || (IsSpace(r[k]) && IsSpace(v[k])) {
    }
    LettersOfSpaceSwap(r, v);
  }

  /** `addPunctuation` always produces punctuated text. */
  lemma AddPunctuationShape(text: string)
    ensures Punctuated(AddPunctuation(text))
  {
    var c := CollapseSpaces(text);
    var t := Trim(c);
    CollapseLoneSpaces(text);
    TrimKeepsLoneSpaces(c);
    EnsureEndKeepsLoneSpaces(t);
    var u := EnsureEnd(t);
    SpacedLoneSpaces(text);
    SpaceAfterPunctSeparates(u);
    BreakShape(SpaceAfterPunct(u));
  }

  /** The full stop `addPunctuation` appends to text that has no sentence ending at its end. */
  function EndMark(s: string): (m: string)
    ensures m == "" <==> |s| > 0 && IsTerminal(s[|s| - 1])
  {
    if |s| > 0 && IsTerminal(s[|s| - 1]) then "" else "."
  }

  lemma EnsureEndLetters(t: string)
    ensures Letters(EnsureEnd(t)) == Letters(t) + EndMark(t)
  {
    if EndMark(t) == "" {
      assert Letters(t) + "" == Letters(t);
    } else {
      FilterAppend(NotSpace, t, ".");
      assert Letters(".") == ".";
    }
  }

  lemma LettersOfLast(t: string)
    requires |t| > 0 && !IsSpace(t[|t| - 1])
    ensures Letters(t) == Letters(t[..|t| - 1]) + [t[|t| - 1]]
  {
    assert t == t[..|t| - 1] + [t[|t| - 1]];
    FilterAppend(NotSpace, t[..|t| - 1], [t[|t| - 1]]);
  }

  /**
   * `addPunctuation` keeps every visible character in order and adds only
   * a final full stop, exactly when the visible text does not already end
   * a sentence.
   */
  lemma AddPunctuationKeepsLetters(text: string)
    ensures Letters(AddPunctuation(text)) == Letters(text) + EndMark(Letters(text))
  {
    var c := CollapseSpaces(text);
    var t := Trim(c);
    assert Letters(t) == Letters(text) by {
      CollapseKeepsLetters(text);
      TrimKeepsLetters(c);
    }
    assert EndMark(Letters(t)) == EndMark(t) by {
      if t != [] {
        LettersOfLast(t);
      }
    }
    var u := EnsureEnd(t);
    EnsureEndLetters(t);
    var v := SpaceAfterPunct(u);
    SpaceAfterPunctKeepsLetters(u);
    SpacedLoneSpaces(text);
    BreakKeepsLetters(v);
  }

  // ---------------------------------------------------------------------
  // processTranscript
  // ---------------------------------------------------------------------

  /** `processTranscript`: capitalisation first, then punctuation, each when its toggle is on. */
  function ProcessTranscript(text: string, capitalize: bool, punctuate: bool): string
  {
    if text == [] then text
    else
      var t := if capitalize then Capitalize(text) else text;
      if punctuate then AddPunctuation(t) else t
  }

  /**
   * Empty text comes back unchanged; with punctuation the result has the
   * punctuated shape and keeps the (possibly capitalised) visible text;
   * without it only letter case changes, and with neither toggle nothing
   * does.
   */
  lemma ProcessTranscriptSpec(text: string, capitalize: bool, punctuate: bool)
    ensures text == [] ==> ProcessTranscript(text, capitalize, punctuate) == []
    ensures text != [] && punctuate ==>
      var t := if capitalize then Capitalize(text) else text;
      var r := ProcessTranscript(text, capitalize, punctuate);
      Punctuated(r) && Letters(r) == Letters(t) + EndMark(Letters(t))
    ensures !punctuate ==> SameUpToCase(ProcessTranscript(text, capitalize, punctuate), text)
    ensures !capitalize && !punctuate ==> ProcessTranscript(text, capitalize, punctuate) == text
  {
    if text != [] {
      var t := if capitalize then Capitalize(text) else text;
      if punctuate {
        AddPunctuationShape(t);
        AddPunctuationKeepsLetters(t);
      } else if capitalize {
        CapitalizeChangesCaseOnly(text);
      }
    }
  }

  /**
   * Capitalisation runs before punctuation, so a full stop written without
   * a following space does not start a capitalised sentence, even though
   * punctuation then puts a line break after it; in the other order the
   * next word would be capitalised.
   */
  lemma CapitalizationPrecedesPunctuation(x: char, y: char)
    requires IsLower(x) && IsLower(y)
    ensures ProcessTranscript([x, '.', y], true, true) == [Upper(x), '.', '\n', y, '.']
    ensures Capitalize(AddPunctuation([x, '.', y])) == [Upper(x), '.', '\n', Upper(y), '.']
  {
    assert Capitalize([x, '.', y]) == [Upper(x), '.', y] by {
      var s := [x, '.', y];
      assert SpanWhile(IsSpace, s, 2) == 2;
      assert CapitalizeFrom(s, 2) == [y];
      assert CapitalizeFrom(s, 1) == ['.', y];
    }
    PunctuateThree(Upper(x), y);
    PunctuateThree(x, y);
    CapitalizeAfterBreak(x, y);
  }

  lemma CapitalizeAfterBreak(x: char, y: char)
    requires IsLower(x) && IsLower(y)
    ensures Capitalize([x, '.', '\n', y, '.']) == [Upper(x), '.', '\n', Upper(y), '.']
  {
    var p := [x, '.', '\n', y, '.'];
    assert CapitalizeFrom(p, 4) == ['.'];
    assert SpanWhile(IsSpace, p, 2) == 3 by {
      SpanWhileExact(IsSpace, p, 2, 3);
    }
    assert CapitalizeFrom(p, 1) == ['.', '\n', Upper(y), '.'] by {
      assert p[1..3] == ['.', '\n'];
    }
    assert CapitalizeFrom(p, 0) == [Upper(x)] + CapitalizeFrom(p, 1);
  }

  lemma PunctuateThree(a: char, y: char)
    requires IsLetter(a) && IsLower(y)
    ensures AddPunctuation([a, '.', y]) == [a, '.', '\n', y, '.']
  {
    var s := [a, '.', y];
    CollapseThree(a, y);
    TrimOfNoEdgeSpace(s);
    assert EnsureEnd(s) == [a, '.', y, '.'];
    SpaceThree(a, y);
    BreakFive(a, y);
  }

  lemma CollapseThree(a: char, y: char)
    requires IsLetter(a) && IsLower(y)
    ensures CollapseSpaces([a, '.', y]) == [a, '.', y]
  {
    var s := [a, '.', y];
    assert CollapseSpaces(s[2..]) == [y];
    assert CollapseSpaces(s[1..]) == ['.', y];
  }

  lemma SpaceThree(a: char, y: char)
    requires IsLetter(a) && IsLower(y)
    ensures SpaceAfterPunct([a, '.', y, '.']) == [a, '.', ' ', y, '.']
  {
    var u := [a, '.', y, '.'];
    assert SpaceAfterPunct(u[2..]) == [y, '.'];
    assert SpaceAfterPunct(u[1..]) == ['.', ' ', y, '.'];
  }

  lemma BreakFive(a: char, y: char)
    requires IsLetter(a) && IsLower(y)
    ensures BreakAfterPunct([a, '.', ' ', y, '.']) == [a, '.', '\n', y, '.']
  {
    var v := [a, '.', ' ', y, '.'];
    var w := v[1..];
    assert SpanWhile(IsSpace, w, 1) == 2;
    var z := w[2..];
    assert z == [y, '.'];
    assert BreakAfterPunct(z[1..]) == ['.'] by {
      assert z[1..] == ['.'] && z[1..][1..] == [];
    }
    assert BreakAfterPunct(z) == [y, '.'];
    assert BreakAfterPunct(w) == ['.', '\n', y, '.'];
  }

  // ---------------------------------------------------------------------
  // updateCounts: `text.trim().split(/\s+/).filter(w => w.length > 0)`
  // ---------------------------------------------------------------------

  /** `s.split(/\s+/)`: the pieces between maximal whitespace runs, empty ones included. */
  function SplitOnSpaces(s: string): (r: seq<string>)
    ensures |r| >= 1
    ensures forall k :: 0 <= k < |r| ==> NoSpace(r[k])
    decreases |s|
  {
    var i := SpanWhile(NotSpace, s, 0);
    SpanWhileRun(NotSpace, s, 0);
    if i == |s| then [s]
    else [s[..i]] + SplitOnSpaces(s[SpanWhile(IsSpace, s, i)..])
  }

  predicate NonEmpty(w: string) { |w| > 0 }

  /** The number shown as the word count. */
  function WordCount(text: string): nat {
    |Filter(NonEmpty, SplitOnSpaces(Trim(text)))|
  }

  /** The reference: the maximal runs of non-whitespace characters, in order. */
  function Words(s: string): (r: seq<string>)
    ensures forall k :: 0 <= k < |r| ==> r[k] != [] && NoSpace(r[k])
    decreases |s|
  {
    if s == [] then []
    else if IsSpace(s[0]) then Words(s[1..])
    else
      var b := SpanWhile(NotSpace, s, 0);
      SpanWhileRun(NotSpace, s, 0);
      [s[..b]] + Words(s[b..])
  }

  lemma {:induction false} WordsSkipSpaces(s: string, i: nat, e: nat)
    requires i <= e <= |s|
    requires forall k :: i <= k < e ==> IsSpace(s[k])
    ensures Words(s[i..]) == Words(s[e..])
    decreases e - i
  {
    if i < e {
      assert s[i..][1..] == s[i + 1..];
      WordsSkipSpaces(s, i + 1, e);
    }
  }

  /** Splitting on whitespace runs and dropping the empty pieces gives the words. */
  lemma {:induction false} SplitOnSpacesWords(s: string)
    ensures Filter(NonEmpty, SplitOnSpaces(s)) == Words(s)
    decreases |s|
  {
    var i := SpanWhile(NotSpace, s, 0);
    if i == |s| {
      assert s != [] ==> s[..|s|] == s && s[|s|..] == [];
    } else {
      var e := SpanWhile(IsSpace, s, i);
      SpanWhileRun(IsSpace, s, i);
      var rest := SplitOnSpaces(s[e..]);
      SplitOnSpacesWords(s[e..]);
      assert ([s[..i]] + rest)[0] == s[..i] && ([s[..i]] + rest)[1..] == rest;
      WordsSkipSpaces(s, i, e);
      assert s[0..] == s;
    }
  }

  /** Trailing whitespace does not change the words. */
  lemma {:induction false} WordsDropTrailing(x: string, trail: string)
    requires AllSpace(trail)
    ensures Words(x + trail) == Words(x)
    decreases |x|, |trail|
  {
    var s := x + trail;
    if x == [] {
      if trail != [] {
        assert s[1..] == [] + trail[1..];
        WordsDropTrailing([], trail[1..]);
      }
      assert s == trail;
    } else if IsSpace(x[0]) {
      assert s[1..] == x[1..] + trail;
      WordsDropTrailing(x[1..], trail);
    } else {
      var b := SpanWhile(NotSpace, x, 0);
      SpanWhileRun(NotSpace, x, 0);
      forall k | 0 <= k < b ensures NotSpace(s[k]) {
        assert s[k] == x[k];
      }
      if b < |x| {
        assert s[b] == x[b];
      } else if b < |s| {
        assert s[b] == trail[0];
      }
      SpanWhileExact(NotSpace, s, 0, b);
      assert s[..b] == x[..b];
      assert s[b..] == x[b..] + trail;
      WordsDropTrailing(x[b..], trail);
    }
  }

  /** Trimming does not change the words. */
  lemma WordsOfTrim(s: string)
    ensures Words(Trim(s)) == Words(s)
  {
    var lead, trail := TrimParts(s);
    var r := Trim(s);
    WordsDropTrailing(lead + r, trail);
    assert (lead + r)[|lead|..] == r && (lead + r)[0..] == lead + r;
    WordsSkipSpaces(lead + r, 0, |lead|);
  }

  /** The word count is the number of words of the text, trimmed or not. */
  lemma WordCountIsWords(text: string)
    ensures WordCount(text) == |Words(text)|
  {
    SplitOnSpacesWords(Trim(text));
    WordsOfTrim(text);
  }

  /** Text with no visible character has no words, and any other text has some. */
  lemma {:induction false} NoWordsIffBlank(s: string)
    ensures Words(s) == [] <==> AllSpace(s)
    decreases |s|
  {
    if s != [] && IsSpace(s[0]) {
      NoWordsIffBlank(s[1..]);
      assert AllSpace(s) <==> AllSpace(s[1..]) by {
        if AllSpace(s[1..]) {
          forall k | 0 < k < |s| ensures IsSpace(s[k]) {
            assert s[k] == s[1..][k - 1];
          }
        }
      }
    }
  }

  // ---------------------------------------------------------------------
  // updateTimer: `MM:SS`
  // ---------------------------------------------------------------------

  /** `n.toString().padStart(2, "0")`. */
  function Padded(n: nat): string {
    PadStart(NatToString(n), 2, '0')
  }

  /** Padding keeps the value and makes at least two digits, exactly two below 100. */
  lemma PaddedValue(n: nat)
    ensures |Padded(n)| >= 2 && AllDigits(Padded(n)) && DigitsValue(Padded(n)) == n
    ensures n < 100 ==> |Padded(n)| == 2
  {
    var d := NatToString(n);
    DigitsValueOfNat(n);
    if n < 10 {
      DigitsValueLeadingZero(d);
      assert seq(1, _ => '0') == "0";
    } else if n < 100 {
      assert d == NatToString(n / 10) + [DigitChar(n % 10)];
    }
  }

  lemma ClockLayout(m: string, sec: string)
    requires |sec| == 2
    ensures var r := m + ":" + sec; r[..|r| - 3] == m && r[|r| - 3] == ':' && r[|r| - 2..] == sec
  {
  }

  /** `updateTimer`'s label for `elapsed` whole seconds. */
  function Clock(elapsed: nat): string {
    Padded(elapsed / 60) + ":" + Padded(elapsed % 60)
  }

  /**
   * The label has at least two minute digits, a colon, and two second
   * digits between 00 and 59, and it reads back as the elapsed time.
   */
  lemma ClockReadsBack(elapsed: nat)
    ensures var r := Clock(elapsed);
      && |r| >= 5 && r[|r| - 3] == ':'
      && AllDigits(r[..|r| - 3]) && AllDigits(r[|r| - 2..])
      && DigitsValue(r[|r| - 2..]) < 60
      && DigitsValue(r[..|r| - 3]) * 60 + DigitsValue(r[|r| - 2..]) == elapsed
  {
    var min, sec := elapsed / 60, elapsed % 60;
    assert min * 60 + sec == elapsed && sec < 60;
    var m, ss := Padded(min), Padded(sec);
    PaddedValue(min);
    PaddedValue(sec);
    var r := Clock(elapsed);
    assert r == m + ":" + ss;
    ClockLayout(m, ss);
  }

  // ---------------------------------------------------------------------
  // Recognition results and the recorder's state
  // ---------------------------------------------------------------------

  /** One entry of `event.results`: its best alternative's text and whether it is final. */
  datatype SpeechResult = SpeechResult(transcript: string, isFinal: bool)

  /** A saved transcript; the word count is the number shown when it was saved. */
  datatype HistoryItem = HistoryItem(text: string, timestamp: string, duration: string, wordCount: nat)

  const MaxHistoryItems: nat := 5

  /** The final results' texts, in order, each followed by a space. */
  function FinalText(rs: seq<SpeechResult>): string
    decreases |rs|
  {
    if rs == [] then ""
    else FinalText(rs[..|rs| - 1]) + (if rs[|rs| - 1].isFinal then rs[|rs| - 1].transcript + " " else "")
  }

  /** The text of the last result that is not final, or "" when every result is final. */
  function LastInterim(rs: seq<SpeechResult>): string
    decreases |rs|
  {
    if rs == [] then ""
    else if !rs[|rs| - 1].isFinal then rs[|rs| - 1].transcript
    else LastInterim(rs[..|rs| - 1])
  }

  /** The interim text is empty when every result is final, and otherwise the last non-final result's. */
  lemma {:induction false} LastInterimIsLast(rs: seq<SpeechResult>)
    ensures (forall k :: 0 <= k < |rs| ==> rs[k].isFinal) ==> LastInterim(rs) == ""
    ensures forall k :: 0 <= k < |rs| && !rs[k].isFinal && (forall j :: k < j < |rs| ==> rs[j].isFinal) ==>
      LastInterim(rs) == rs[k].transcript
    decreases |rs|
  {
    if rs != [] {
      var p := rs[..|rs| - 1];
      LastInterimIsLast(p);
      forall k | 0 <= k < |p| ensures p[k] == rs[k] {
      }
    }
  }

  /** Final texts of consecutive runs of results concatenate. */
  lemma {:induction false} FinalTextAppend(a: seq<SpeechResult>, b: seq<SpeechResult>)
    ensures FinalText(a + b) == FinalText(a) + FinalText(b)
    decreases |b|
  {
    if b == [] {
      assert a + b == a;
    } else {
      var b' := b[..|b| - 1];
      assert (a + b)[..|a + b| - 1] == a + b';
      FinalTextAppend(a, b');
    }
  }

  /** A single result contributes its text and a space when it is final, and nothing otherwise. */
  lemma FinalTextOne(r: SpeechResult)
    ensures FinalText([r]) == if r.isFinal then r.transcript + " " else ""
  {
    assert [r][..0] == [];
  }

  /** The results an `onresult` event asks the page to look at: those from `resultIndex` on. */
  function Pending(results: seq<SpeechResult>, resultIndex: nat): (p: seq<SpeechResult>)
    ensures |p| <= |results|
  {
    if resultIndex <= |results| then results[resultIndex..] else []
  }

  /** `d` is `h` with `item` put first and, past the limit, the oldest item dropped. */
  function Pushed(h: seq<HistoryItem>, item: HistoryItem): (d: seq<HistoryItem>)
  {
    var n := [item] + h;
    if |n| > MaxHistoryItems then n[..|n| - 1] else n
  }

  /**
   * Adding to a history of at most five items puts the new item first,
   * keeps at most five, and keeps the newest old items in their order,
   * dropping only the oldest one when the history was full.
   */
  lemma PushedKeepsNewest(h: seq<HistoryItem>, item: HistoryItem)
    requires |h| <= MaxHistoryItems
    ensures var d := Pushed(h, item);
      && |d| == (if |h| < MaxHistoryItems then |h| + 1 else MaxHistoryItems)
      && d[0] == item
      && d[1..] == (if |h| < MaxHistoryItems then h else h[..MaxHistoryItems - 1])
  {
    var n := [item] + h;
    if |n| > MaxHistoryItems {
      assert n[..|n| - 1][1..] == h[..MaxHistoryItems - 1];
    }
  }

  /** The speech-to-text page's state. */
  class Recorder {
    /** Whether the browser offers speech recognition. */
    const available: bool
    var isRecording: bool
    /** The text area's content. */
    var output: string
    var finalTranscript: string
    var interimTranscript: string
    var history: seq<HistoryItem>
    var words: nat
    var chars: nat
    /** The duration label. */
    var duration: string

    /** The history never holds more than five transcripts. */
    predicate Valid()
      reads this
    {
      |history| <= MaxHistoryItems
    }

    constructor(available: bool)
      ensures Valid()
      ensures this.available == available && !isRecording
      ensures output == "" && finalTranscript == "" && interimTranscript == "" && history == []
      ensures words == 0 && chars == 0 && duration == "00:00"
    {
      this.available := available;
      isRecording := false;
      output, finalTranscript, interimTranscript := "", "", "";
      history := [];
      words, chars := 0, 0;
      duration := "00:00";
    }

    /** `updateCounts`. */
    method UpdateCounts()
      modifies this
      ensures words == |Words(output)| && chars == |output|
      ensures output == old(output) && finalTranscript == old(finalTranscript)
      ensures interimTranscript == old(interimTranscript) && history == old(history)
      ensures isRecording == old(isRecording) && duration == old(duration)
    {
      WordCountIsWords(output);
      words := WordCount(output);
      chars := |output|;
    }

    /** The start button: clear the text and ask the recogniser to start. */
    method Start() returns (started: bool)
      modifies this
      ensures started == available
      ensures available ==> output == "" && finalTranscript == "" && interimTranscript == ""
      ensures !available ==>
        output == old(output) && finalTranscript == old(finalTranscript) && interimTranscript == old(interimTranscript)
      ensures history == old(history) && isRecording == old(isRecording) && duration == old(duration)
      ensures words == old(words) && chars == old(chars)
    {
      started := available;
      if available {
        output, finalTranscript, interimTranscript := "", "", "";
      }
    }

    /** `recognition.onstart`: recording, with the timer at zero. */
    method OnStart()
      modifies this
      ensures isRecording && duration == "00:00"
      ensures output == old(output) && finalTranscript == old(finalTranscript)
      ensures interimTranscript == old(interimTranscript) && history == old(history)
      ensures words == old(words) && chars == old(chars)
    {
      isRecording := true;
      duration := "00:00";
    }

    /** One tick of the timer, `elapsed` whole seconds after the start. */
    method Tick(elapsed: nat)
      modifies this
      ensures duration == Clock(elapsed)
      ensures output == old(output) && finalTranscript == old(finalTranscript)
      ensures interimTranscript == old(interimTranscript) && history == old(history)
      ensures isRecording == old(isRecording) && words == old(words) && chars == old(chars)
    {
      duration := Clock(elapsed);
    }

    /**
     * `recognition.onresult`: the final results from `resultIndex` on
     * become the final transcript, and the text area shows it followed by
     * the last interim result, both processed under the current toggles.
     */
    method OnResult(results: seq<SpeechResult>, resultIndex: nat, capitalize: bool, punctuate: bool)
      modifies this
      ensures finalTranscript == ProcessTranscript(FinalText(Pending(results, resultIndex)), capitalize, punctuate)
      ensures output == finalTranscript + ProcessTranscript(LastInterim(Pending(results, resultIndex)), capitalize, punctuate)
      ensures words == |Words(output)| && chars == |output|
      ensures interimTranscript == old(interimTranscript) && history == old(history)
      ensures isRecording == old(isRecording) && duration == old(duration)
    {
      var currentFinal := "";
      var currentInterim := "";
      var i := resultIndex;
      while i < |results|
        invariant resultIndex <= i
        invariant i <= |results| ==> currentFinal == FinalText(results[resultIndex..i])
        invariant i <= |results| ==> currentInterim == LastInterim(results[resultIndex..i])
        invariant i > |results| ==> i == resultIndex && currentFinal == "" && currentInterim == ""
        decreases |results| - i
      {
        assert results[resultIndex..i + 1][..i - resultIndex] == results[resultIndex..i];
        assert results[resultIndex..i + 1][i - resultIndex] == results[i];
        if results[i].isFinal {
          currentFinal := currentFinal + results[i].transcript + " ";
        } else {
          currentInterim := results[i].transcript;
        }
        i := i + 1;
      }
      assert resultIndex <= |results| ==> results[resultIndex..i] == Pending(results, resultIndex);
      finalTranscript := ProcessTranscript(currentFinal, capitalize, punctuate);
      output := finalTranscript + ProcessTranscript(currentInterim, capitalize, punctuate);
      UpdateCounts();
    }

    /** `addToHistory`: save the trimmed text, newest first, unless it is blank. */
    method AddToHistory(timestamp: string)
      requires Valid()
      modifies this
      ensures Valid()
      ensures Trim(output) == "" ==> history == old(history)
      ensures Trim(output) != "" ==>
        history == Pushed(old(history), HistoryItem(Trim(output), timestamp, duration, words))
      ensures output == old(output) && finalTranscript == old(finalTranscript)
      ensures interimTranscript == old(interimTranscript) && isRecording == old(isRecording)
      ensures duration == old(duration) && words == old(words) && chars == old(chars)
    {
      var text := Trim(output);
      if text != "" {
        var item := HistoryItem(text, timestamp, duration, words);
        history := [item] + history;
        if |history| > MaxHistoryItems {
          history := history[..|history| - 1];
        }
      }
    }

    /** `recognition.onend`: recording stops and the transcript goes to the history. */
    method OnEnd(timestamp: string)
      requires Valid()
      modifies this
      ensures Valid() && !isRecording
      ensures Trim(output) == "" ==> history == old(history)
      ensures Trim(output) != "" ==>
        history == Pushed(old(history), HistoryItem(Trim(output), timestamp, duration, words))
      ensures output == old(output) && finalTranscript == old(finalTranscript)
      ensures interimTranscript == old(interimTranscript)
      ensures duration == old(duration) && words == old(words) && chars == old(chars)
    {
      isRecording := false;
      AddToHistory(timestamp);
    }

    /** The clear button: empty text and zero counts. */
    method Clear()
      modifies this
      ensures output == "" && finalTranscript == "" && interimTranscript == ""
      ensures words == 0 && chars == 0
      ensures history == old(history) && isRecording == old(isRecording) && duration == old(duration)
    {
      output, finalTranscript, interimTranscript := "", "", "";
      UpdateCounts();
    }
  }
}
