/**
 * The solution view of the renderer (src/App.jsx): how a solution text is
 * cut into code, thoughts, complexity and language, and the state changes
 * of the component that shows them.
 */
module Renderer {
  import opened Wrappers
  import opened Text
  import opened Fences

  // ---------------------------------------------------------------------
  // Complexity: `/[Tt]ime [Cc]omplexity:?\s*(.*?)(?=\n|$)/` and its variants
  // ---------------------------------------------------------------------

  const TimeCue: Pattern := [OneOf("Tt")] + Literal("ime ") + [OneOf("Cc")] + Literal("omplexity")
  const SpaceCue: Pattern := [OneOf("Ss")] + Literal("pace ") + [OneOf("Cc")] + Literal("omplexity")

  /** The same cues with the `i` flag, as `processGeminiSolution` writes them. */
  const TimeCueAnyCase: Pattern := Caseless("time complexity")
  const SpaceCueAnyCase: Pattern := Caseless("space complexity")

  /** The value shown when the text names no complexity. */
  const DefaultComplexity := "O(n)"

  /** The first line terminator at or after `p`, or the end of the text. */
  function LineEnd(s: string, p: nat): (e: nat)
    requires p <= |s|
    ensures p <= e <= |s| && NoLineTerminator(s[p..e])
    ensures e == |s| || IsLineTerminator(s[e])
  {
    SpanWhileRun(NotLineTerminator, s, p);
    SpanWhile(NotLineTerminator, s, p)
  }

  /** The lookahead `(?=\n|$)` can be met by a group of `.` starting at `p`. */
  predicate LineClosed(s: string, p: nat)
    requires p <= |s|
  {
    var e := LineEnd(s, p);
    e == |s| || s[e] == '\n'
  }

  /**
   * A lazy `(.*?)` starting at `p`, followed by `(?=\n|$)`, has exactly one
   * place to stop: the end of the line, and only when that line is closed
   * by `\n` or by the end of the text.
   */
  lemma LazyGroupStopsAtLineEnd(s: string, p: nat, r: nat)
    requires p <= r <= |s|
    ensures (NoLineTerminator(s[p..r]) && (r == |s| || s[r] == '\n'))
      <==> (r == LineEnd(s, p) && LineClosed(s, p))
  {
    var e := LineEnd(s, p);
  }

  /**
   * What `\s*(.*?)(?=\n|$)` yields when the greedy whitespace run is backed
   * off to `p`, then one character at a time down to `lo`.
   */
  function Backoff(s: string, lo: nat, p: nat): (g: Option<string>)
    requires lo <= p <= |s|
    ensures g.Some? ==> NoLineTerminator(g.value)
    decreases p
  {
    if LineClosed(s, p) then Some(s[p..LineEnd(s, p)])
    else if p == lo then None
    else Backoff(s, lo, p - 1)
  }

  lemma {:induction false} BackoffNone(s: string, lo: nat, p: nat)
    requires lo <= p <= |s|
    requires Backoff(s, lo, p).None?
    ensures !LineClosed(s, lo)
    decreases p
  {
    if p > lo {
      BackoffNone(s, lo, p - 1);
    }
  }

  /** `:?\s*(.*?)(?=\n|$)` from `c`: the colon is taken first, then left out. */
  function AfterCue(s: string, c: nat): Option<string>
    requires c <= |s|
  {
    var withColon := if c < |s| && s[c] == ':' then Backoff(s, c + 1, SpanWhile(IsSpace, s, c + 1)) else None;
    if withColon.Some? then withColon else Backoff(s, c, SpanWhile(IsSpace, s, c))
  }

  /** Leaving the colon out never rescues a match that failed with it. */
  lemma ColonAlternativeIsRedundant(s: string, c: nat)
    requires c < |s| && s[c] == ':'
    requires Backoff(s, c + 1, SpanWhile(IsSpace, s, c + 1)).None?
    ensures Backoff(s, c, SpanWhile(IsSpace, s, c)).None?
  {
    BackoffNone(s, c + 1, SpanWhile(IsSpace, s, c + 1));
    assert SpanWhile(IsSpace, s, c) == c;
    assert LineEnd(s, c) == LineEnd(s, c + 1);
  }

  /** The group of a match that starts at `i`. */
  function ComplexityAt(cue: Pattern, s: string, i: nat): Option<string>
    requires i <= |s|
  {
    if MatchAt(s, i, cue) then AfterCue(s, i + |cue|) else None
  }

  /** The group of the leftmost match from `i` on (`s.match(re)[1]`). */
  function FirstComplexity(cue: Pattern, s: string, i: nat): (g: Option<string>)
    requires i <= |s|
    decreases |s| - i
  {
    match ComplexityAt(cue, s, i)
    case Some(g) => Some(g)
    case None => if i == |s| then None else FirstComplexity(cue, s, i + 1)
  }

  lemma {:induction false} FirstComplexitySkip(cue: Pattern, s: string, i: nat, j: nat)
    requires i <= j <= |s|
    requires forall k :: i <= k < j ==> ComplexityAt(cue, s, k).None?
    ensures FirstComplexity(cue, s, i) == FirstComplexity(cue, s, j)
    decreases j - i
  {
    if i < j {
      FirstComplexitySkip(cue, s, i + 1, j);
    }
  }

  lemma {:induction false} FirstComplexityLine(cue: Pattern, s: string, i: nat)
    requires i <= |s|
    ensures FirstComplexity(cue, s, i).Some? ==> NoLineTerminator(FirstComplexity(cue, s, i).value)
    decreases |s| - i
  {
    if ComplexityAt(cue, s, i).None? && i < |s| {
      FirstComplexityLine(cue, s, i + 1);
    }
  }

  /**
   * `m ? m[1].trim() : "O(n)"`: the complexity shown is always one trimmed
   * line.
   */
  function Complexity(cue: Pattern, s: string): (r: string)
    ensures NoLineTerminator(r)
    ensures r == [] || (!IsSpace(r[0]) && !IsSpace(r[|r| - 1]))
  {
    FirstComplexityLine(cue, s, 0);
    match FirstComplexity(cue, s, 0)
    case Some(g) => TrimKeepsNoLineTerminator(g); Trim(g)
    case None => DefaultComplexity
  }

  lemma {:induction false} NoCueNoComplexity(cue: Pattern, s: string, i: nat)
    requires i <= |s|
    requires forall j :: i <= j <= |s| ==> !MatchAt(s, j, cue)
    ensures FirstComplexity(cue, s, i).None?
    decreases |s| - i
  {
    if i < |s| {
      NoCueNoComplexity(cue, s, i + 1);
    }
  }

  /** Without the cue the default is shown. */
  lemma ComplexityDefault(cue: Pattern, s: string)
    requires !Found(s, cue)
    ensures Complexity(cue, s) == DefaultComplexity
  {
    NoCueNoComplexity(cue, s, 0);
  }

  /** The search skips every position before the leftmost match of the cue. */
  lemma LeftmostCueAt(cue: Pattern, s: string, i: nat)
    requires i <= |s|
    requires forall j :: 0 <= j < i ==> !MatchAt(s, j, cue)
    ensures FirstComplexity(cue, s, 0) == FirstComplexity(cue, s, i)
  {
    FirstComplexitySkip(cue, s, 0, i);
  }

  /**
   * After the cue at `c`: an optional colon, whitespace from `c0` to `p`,
   * and a value from `p` to a line end at `e` give that value.
   */
  lemma AfterCueOfLayout(s: string, c: nat, c0: nat, p: nat, e: nat)
    requires c <= c0 <= p < e <= |s|
    requires (c0 == c && s[c] != ':') || (c0 == c + 1 && s[c] == ':')
    requires forall k :: c0 <= k < p ==> IsSpace(s[k])
    requires !IsSpace(s[p])
    requires forall k :: p <= k < e ==> NotLineTerminator(s[k])
    requires e == |s| || s[e] == '\n'
    ensures AfterCue(s, c) == Some(s[p..e])
  {
    SpanWhileExact(IsSpace, s, c0, p);
    SpanWhileExact(NotLineTerminator, s, p, e);
    assert Backoff(s, c0, p) == Some(s[p..e]);
  }

  /** The value from a text whose leftmost cue is at `i` and whose value is `s[p..e]`. */
  lemma ComplexityOfLayout(cue: Pattern, s: string, i: nat, c0: nat, p: nat, e: nat)
    requires i + |cue| <= c0 <= p < e <= |s|
    requires forall j :: 0 <= j < i ==> !MatchAt(s, j, cue)
    requires MatchAt(s, i, cue)
    requires (c0 == i + |cue| && s[c0] != ':') || (c0 == i + |cue| + 1 && s[i + |cue|] == ':')
    requires forall k :: c0 <= k < p ==> IsSpace(s[k])
    requires !IsSpace(s[p])
    requires forall k :: p <= k < e ==> NotLineTerminator(s[k])
    requires e == |s| || s[e] == '\n'
    ensures Complexity(cue, s) == Trim(s[p..e])
  {
    LeftmostCueAt(cue, s, i);
    AfterCueOfLayout(s, i + |cue|, c0, p, e);
    assert ComplexityAt(cue, s, i) == Some(s[p..e]);
  }

  /** The per-position facts of a one-line complexity text, from where its parts lie. */
  lemma ComplexityLineFacts(cue: Pattern, s: string, pre: string, head: string, colon: string, ws: string, value: string)
    requires |head| == |cue| && MatchAt(head, 0, cue)
    requires colon == "" || colon == ":"
    requires AllSpace(ws)
    requires value != [] && !IsSpace(value[0]) && NoLineTerminator(value)
    requires colon == "" && ws == [] ==> value[0] != ':'
    requires |pre| + |head| + |colon| + |ws| + |value| <= |s|
    requires s[..|pre|] == pre && s[|pre|..|pre| + |head|] == head
    requires s[|pre| + |head|..|pre| + |head| + |colon|] == colon
    requires s[|pre| + |head| + |colon|..|pre| + |head| + |colon| + |ws|] == ws
    requires s[|pre| + |head| + |colon| + |ws|..|pre| + |head| + |colon| + |ws| + |value|] == value
    ensures var i := |pre|;
      var c0 := i + |head| + |colon|;
      var p := c0 + |ws|;
      var e := p + |value|;
      MatchAt(s, i, cue)
      && ((c0 == i + |cue| && s[c0] != ':') || (c0 == i + |cue| + 1 && s[i + |cue|] == ':'))
      && (forall k :: c0 <= k < p ==> IsSpace(s[k]))
      && !IsSpace(s[p])
      && (forall k :: p <= k < e ==> NotLineTerminator(s[k]))
  {
    var i := |pre|;
    var c0 := i + |head| + |colon|;
    var p := c0 + |ws|;
    var e := p + |value|;
    forall k | 0 <= k < |cue| ensures ClassHas(cue[k], s[i + k]) {
      assert s[i + k] == s[i..i + |head|][k];
    }
    forall k | c0 <= k < p ensures IsSpace(s[k]) {
      assert s[k] == s[c0..p][k - c0];
    }
    forall k | p <= k < e ensures NotLineTerminator(s[k]) {
      assert s[k] == s[p..e][k - p];
    }
    assert s[p] == s[p..e][0];
    if colon == ":" {
      assert s[i + |head|] == s[i + |head|..c0][0];
    } else if ws != [] {
      assert s[c0] == s[c0..p][0];
    } else {
      assert s[c0] == s[p];
    }
  }

  /** Where the parts of a one-line complexity text lie in it. */
  lemma ComplexityLineLayout(pre: string, head: string, colon: string, ws: string, value: string, post: string)
    ensures var s := pre + head + colon + ws + value + post;
      var c0 := |pre| + |head| + |colon|;
      var e := c0 + |ws| + |value|;
      e <= |s| && s[..|pre|] == pre && s[|pre|..|pre| + |head|] == head
      && s[|pre| + |head|..c0] == colon && s[c0..c0 + |ws|] == ws
      && s[c0 + |ws|..e] == value && s[e..] == post
  {
    var s := pre + head + colon + ws + value + post;
    assert s == pre + (head + (colon + (ws + (value + post))));
  }

  /**
   * A text whose leftmost cue is followed by an optional colon, whitespace
   * (line breaks included, as `\s*` crosses them) and a value on the rest
   * of its line shows that value, trimmed, whatever comes after the line.
   */
  lemma ComplexityOfLine(cue: Pattern, pre: string, head: string, colon: string, ws: string, value: string, post: string)
    requires |head| == |cue| && MatchAt(head, 0, cue)
    requires forall j :: 0 <= j < |pre| ==> !MatchAt(pre + head + colon + ws + value + post, j, cue)
    requires colon == "" || colon == ":"
    requires AllSpace(ws)
    requires value != [] && !IsSpace(value[0]) && NoLineTerminator(value)
    requires colon == "" && ws == [] ==> value[0] != ':'
    requires post == [] || post[0] == '\n'
    ensures Complexity(cue, pre + head + colon + ws + value + post) == Trim(value)
  {
    var s := pre + head + colon + ws + value + post;
    var i := |pre|;
    var c0 := i + |head| + |colon|;
    var p := c0 + |ws|;
    var e := p + |value|;
    assert Complexity(cue, s) == Trim(s[p..e]) && s[p..e] == value by {
      ComplexityLineLayout(pre, head, colon, ws, value, post);
      ComplexityLineFacts(cue, s, pre, head, colon, ws, value);
      assert e == |s| || s[e] == '\n' by {
        if e < |s| {
          assert s[e] == s[e..][0];
        }
      }
      ComplexityOfLayout(cue, s, i, c0, p, e);
    }
  }

  /**
   * Instances: the time complexity is shown without its label, also when
   * it stands on the line after the label.
   */
  lemma TimeComplexityExample(text: string, nextLine: string)
    requires text == "Time Complexity: O(n log n)"
    requires nextLine == "Time Complexity:\nO(n)"
    ensures Complexity(TimeCue, text) == "O(n log n)"
    ensures Complexity(TimeCue, nextLine) == "O(n)"
  {
    var head := "Time Complexity";
    TimeCueMatches(head);
    assert text == "" + head + ":" + " " + "O(n log n)" + "";
    ComplexityOfLine(TimeCue, "", head, ":", " ", "O(n log n)", "");
    TrimOfNoEdgeSpace("O(n log n)");
    assert nextLine == "" + head + ":" + "\n" + "O(n)" + "";
    ComplexityOfLine(TimeCue, "", head, ":", "\n", "O(n)", "");
    TrimOfNoEdgeSpace("O(n)");
  }

  lemma TimeCueMatches(head: string)
    requires head == "Time Complexity"
    ensures MatchAt(head, 0, TimeCue)
  {
    assert MatchAt("T", 0, [OneOf("Tt")]);
    LiteralMatchesItself("ime ");
    MatchAtJoin("T", "ime ", [OneOf("Tt")], Literal("ime "));
    assert MatchAt("C", 0, [OneOf("Cc")]);
    MatchAtJoin("T" + "ime ", "C", [OneOf("Tt")] + Literal("ime "), [OneOf("Cc")]);
    LiteralMatchesItself("omplexity");
    MatchAtJoin("T" + "ime " + "C", "omplexity", [OneOf("Tt")] + Literal("ime ") + [OneOf("Cc")], Literal("omplexity"));
    assert head == "T" + "ime " + "C" + "omplexity";
  }

  /** The pair shown by a fresh or reset view; its space part is not the default for a missing cue. */
  datatype Complexities = Complexities(time: string, space: string)

  const InitialComplexity := Complexities("O(n)", "O(1)")

  /** A solution without a space cue shows "O(n)", which is not what a reset view shows. */
  lemma AbsentSpaceDiffersFromReset(s: string)
    requires !Found(s, SpaceCue)
    ensures Complexity(SpaceCue, s) == DefaultComplexity != InitialComplexity.space
  {
    ComplexityDefault(SpaceCue, s);
  }

  // ---------------------------------------------------------------------
  // Code block: `/```(?:java|python|javascript)?\s*([\s\S]*?)```/`
  // ---------------------------------------------------------------------

  /** The tag alternatives in the order the source writes them. */
  const AsWrittenTags: seq<string> := ["java", "python", "javascript"]

  /** The same alternatives with the longer one first, so that it is not cut short. */
  const Tags: seq<string> := ["javascript", "java", "python"]

  /** `m ? m[1].trim() : (solution.code || '')`: the block's text never holds a fence. */
  function BlockCodeWith(tags: seq<string>, full: string, fallback: string): (r: string)
    ensures r == fallback || !Contains(r, Fence)
  {
    match FirstFenceBody(FirstOf(tags), full, 0)
    case Some(b) => TrimKeepsAbsence(b, Fence); Trim(b)
    case None => fallback
  }

  function AsWrittenBlockCode(full: string, fallback: string): (r: string)
    ensures r == fallback || !Contains(r, Fence)
  {
    BlockCodeWith(AsWrittenTags, full, fallback)
  }

  function BlockCode(full: string, fallback: string): (r: string)
    ensures r == fallback || !Contains(r, Fence)
  {
    BlockCodeWith(Tags, full, fallback)
  }

  /** As written, a `javascript` tag is read as `java` and its rest becomes code. */
  lemma AsWrittenSplitsJavascriptTag(pre: string, ws: string, body: string, post: string, fallback: string)
    requires '`' !in pre && '`' !in body && '`' !in ws
    ensures AsWrittenBlockCode(pre + Fence + "javascript" + ws + body + Fence + post, fallback) == Trim("script" + ws + body)
  {
    var s := pre + Fence + "javascript" + ws + body + Fence + post;
    var inner := "script" + ws + body;
    assert s == pre + Fence + "java" + "" + inner + Fence + post;
    assert FirstTag(AsWrittenTags, s, |pre| + 3) == "java" by {
      assert s[|pre| + 3..|pre| + 7] == "java";
    }
    FirstOfRoundTrip(AsWrittenTags, pre, "java", "", inner, post);
  }

  /**
   * As written, a block tagged `java` or `python`, or not tagged, and
   * followed by whitespace still shows its body.
   */
  lemma AsWrittenBlockCodeRoundTrip(pre: string, tag: string, ws: string, body: string, post: string, fallback: string)
    requires tag == "" || tag == "java" || tag == "python"
    requires '`' !in pre && '`' !in body
    requires AllSpace(ws) && ws != []
    requires body == [] || !IsSpace(body[0])
    ensures AsWrittenBlockCode(pre + Fence + tag + ws + body + Fence + post, fallback) == Trim(body)
  {
    AsWrittenBlockTag(pre, tag, ws, body + Fence + post);
    assert pre + Fence + tag + ws + (body + Fence + post) == pre + Fence + tag + ws + body + Fence + post;
    FirstOfRoundTrip(AsWrittenTags, pre, tag, ws, body, post);
  }

  /** In the source's order, a `java` or `python` tag, or none, followed by whitespace is found whole. */
  lemma AsWrittenBlockTag(pre: string, tag: string, ws: string, rest: string)
    requires tag == "" || tag == "java" || tag == "python"
    requires AllSpace(ws) && ws != []
    ensures FirstTag(AsWrittenTags, pre + Fence + tag + ws + rest, |pre| + 3) == tag
  {
    var s := pre + Fence + tag + ws + rest;
    var j := |pre| + 3;
    assert s == (pre + Fence) + (tag + (ws + rest));
    assert s[j..j + |tag|] == tag;
    assert s[j + |tag|] == ws[0];
    if tag != "java" {
      assert !SubAt(s, j, "java") by {
        if j + 4 <= |s| {
          assert s[j..j + 4][0] == s[j];
          if tag == "python" {
            assert s[j..j + 6][0] == s[j];
          }
        }
      }
      assert FirstTag(AsWrittenTags, s, j) == FirstTag(["python", "javascript"], s, j);
      if tag == "" {
        assert !SubAt(s, j, "python") by {
          if j + 6 <= |s| {
            assert s[j..j + 6][0] == s[j];
          }
        }
        assert !SubAt(s, j, "javascript") by {
          if j + 10 <= |s| {
            assert s[j..j + 10][0] == s[j];
          }
        }
        assert FirstTag(["python", "javascript"], s, j) == FirstTag(["javascript"], s, j);
        assert FirstTag(["javascript"], s, j) == FirstTag([], s, j);
      }
    }
  }

  /** As written, "```javascript\nf()\n```" shows `script` as the first code line. */
  lemma AsWrittenJavascriptExample(s: string)
    requires s == "```javascript\nf()\n```"
    ensures AsWrittenBlockCode(s, "") == "script\nf()"
  {
    JavascriptExampleLayout(s);
    AsWrittenSplitsJavascriptTag("", "\n", "f()\n", "", "");
    TrimExample("script\nf()\n", "script\nf()");
  }

  lemma JavascriptExampleLayout(s: string)
    requires s == "```javascript\nf()\n```"
    ensures s == "" + Fence + "javascript" + "\n" + "f()\n" + Fence + ""
    ensures "script" + "\n" + "f()\n" == "script\nf()\n"
  {
  }

  /** Trimming a text that only ends in one newline removes it. */
  lemma TrimExample(t: string, u: string)
    requires |u| > 0 && t == u + "\n" && !IsSpace(u[0]) && !IsSpace(u[|u| - 1])
    ensures Trim(t) == u
  {
    assert t[..|t| - 1] == u;
    assert TrimEnd(t) == u;
    TrimOfNoEdgeSpace(u);
  }

  /**
   * With the longer tag first, the first tag present right after the fence
   * and followed by whitespace is the whole tag.
   */
  lemma FirstTagOfKnownTag(s: string, j: nat, tag: string)
    requires tag == "" || tag == "java" || tag == "python" || tag == "javascript"
    requires SubAt(s, j, tag) && j + |tag| < |s| && IsSpace(s[j + |tag|])
    ensures FirstTag(Tags, s, j) == tag
  {
    var x := s[j + |tag|];
    assert !IsWordChar(x);
    if tag == "python" {
      assert s[j] == 'p' by { assert s[j..j + 6][0] == s[j]; }
    }
    if tag == "javascript" {
    } else {
      assert !SubAt(s, j, "javascript") by {
        if j + 10 <= |s| {
          assert s[j..j + 10][0] == s[j];
          assert s[j..j + 10][4] == s[j + 4];
        }
      }
      assert FirstTag(Tags, s, j) == FirstTag(["java", "python"], s, j);
      if tag == "java" {
      } else {
        assert !SubAt(s, j, "java") by {
          if j + 4 <= |s| {
            assert s[j..j + 4][0] == s[j];
          }
        }
        assert FirstTag(["java", "python"], s, j) == FirstTag(["python"], s, j);
        if tag == "" {
          assert !SubAt(s, j, "python") by {
            if j + 6 <= |s| {
              assert s[j..j + 6][0] == s[j];
            }
          }
          assert FirstTag(["python"], s, j) == FirstTag([], s, j);
        }
      }
    }
  }

  /**
   * With the corrected order, a block tagged with any of the three
   * languages, or not tagged, and followed by whitespace shows its body.
   */
  lemma BlockCodeRoundTrip(pre: string, tag: string, ws: string, body: string, post: string, fallback: string)
    requires tag == "" || tag == "java" || tag == "python" || tag == "javascript"
    requires '`' !in pre && '`' !in body
    requires AllSpace(ws) && ws != []
    requires body == [] || !IsSpace(body[0])
    ensures BlockCode(pre + Fence + tag + ws + body + Fence + post, fallback) == Trim(body)
  {
    BlockTag(pre, tag, ws, body + Fence + post);
    assert pre + Fence + tag + ws + (body + Fence + post) == pre + Fence + tag + ws + body + Fence + post;
    FirstOfRoundTrip(Tags, pre, tag, ws, body, post);
  }

  /** The tag of a block whose tag is followed by whitespace is found whole. */
  lemma BlockTag(pre: string, tag: string, ws: string, rest: string)
    requires tag == "" || tag == "java" || tag == "python" || tag == "javascript"
    requires AllSpace(ws) && ws != []
    ensures FirstTag(Tags, pre + Fence + tag + ws + rest, |pre| + 3) == tag
  {
    var s := pre + Fence + tag + ws + rest;
    var j := |pre| + 3;
    assert s == (pre + Fence) + (tag + (ws + rest));
    assert s[j..j + |tag|] == tag;
    assert s[j + |tag|] == ws[0];
    FirstTagOfKnownTag(s, j, tag);
  }

  /** The corrected order shows the code of the example the source misreads. */
  lemma JavascriptExample(s: string)
    requires s == "```javascript\nf()\n```"
    ensures BlockCode(s, "") == "f()"
  {
    JavascriptExampleLayout(s);
    BlockCodeRoundTrip("", "javascript", "\n", "f()\n", "", "");
    TrimExample("f()\n", "f()");
  }

  // ---------------------------------------------------------------------
  // Language
  // ---------------------------------------------------------------------

  datatype Language = Java | Python | JavaScript

  predicate HasJavaCue(code: string) {
    Contains(code, "import java") || Contains(code, "public class")
  }

  /** After a solution arrives: Java cues first, then a Python definition, and JavaScript otherwise. */
  function DetectLanguage(code: string): (l: Language)
    ensures l == Java <==> HasJavaCue(code)
    ensures l == Python <==> !HasJavaCue(code) && Contains(code, "def ") && Contains(code, ":")
  {
    if HasJavaCue(code) then Java
    else if Contains(code, "def ") && Contains(code, ":") then Python
    else JavaScript
  }

  /** `processGeminiSolution`: Java cues, then `function`, then `def `; no cue leaves the language alone. */
  function GeminiLanguage(code: string): (l: Option<Language>)
    ensures l == Some(Java) <==> HasJavaCue(code)
    ensures l == Some(JavaScript) <==> !HasJavaCue(code) && Contains(code, "function")
    ensures l.None? <==> !HasJavaCue(code) && !Contains(code, "function") && !Contains(code, "def ")
  {
    if HasJavaCue(code) then Some(Java)
    else if Contains(code, "function") then Some(JavaScript)
    else if Contains(code, "def ") then Some(Python)
    else None
  }

  /** A Java cue anywhere in the code decides the language for both detectors. */
  lemma JavaCueWins(a: string, cue: string, b: string)
    requires cue == "import java" || cue == "public class"
    ensures DetectLanguage(a + cue + b) == Java
    ensures GeminiLanguage(a + cue + b) == Some(Java)
  {
    ContainsSelf(cue);
    ContainsAppend(cue, b, cue);
    ContainsAppend(cue + b, a, cue);
    assert a + cue + b == a + (cue + b);
  }

  /** The two detectors disagree on Python code that mentions `function`. */
  lemma DetectorsDisagree(s: string)
    requires s == "def f(function):"
    ensures DetectLanguage(s) == Python
    ensures GeminiLanguage(s) == Some(JavaScript)
  {
    assert SubAt(s, 0, "def ");
    assert SubAt(s, 15, ":");
    assert SubAt(s, 6, "function");
    assert !Contains(s, "import java") by {
      forall i | 0 <= i <= |s| - 11 ensures !SubAt(s, i, "import java") {
        assert s[i..i + 11][0] == s[i];
      }
    }
    assert !Contains(s, "public class") by {
      forall i | 0 <= i <= |s| - 12 ensures !SubAt(s, i, "public class") {
        assert s[i..i + 12][0] == s[i];
      }
    }
  }

  // ---------------------------------------------------------------------
  // The thoughts list
  // ---------------------------------------------------------------------

  /** The three `filter` steps: not blank, no fence, no complexity line. */
  predicate KeepLine(line: string) {
    Trim(line) != ""
    && !Contains(line, Fence)
    && !Contains(LowerStr(line), "time complexity")
    && !Contains(LowerStr(line), "space complexity")
  }

  /** No whitespace at either end. */
  predicate Tidy(r: string) { r == [] || (!IsSpace(r[0]) && !IsSpace(r[|r| - 1])) }

  /** The `map` step: trimmed, and one leading dash removed with the spaces after it. */
  function CleanLine(line: string): (r: string)
    ensures Tidy(r)
    ensures |r| <= |line|
  {
    var t := Trim(line);
    if |t| > 0 && t[0] == '-' then Trim(t[1..]) else t
  }

  /** The items listed under the thoughts heading, in the order of the lines. */
  function Thoughts(text: string): (r: seq<string>)
    ensures |r| <= CountChar(text, '\n') + 1
    ensures forall k :: 0 <= k < |r| ==> Tidy(r[k])
  {
    SplitJoin(text, '\n');
    Map(CleanLine, Filter(KeepLine, Split(text, '\n')))
  }

  /** The list of a text is the lists of its lines, one after the other. */
  lemma ThoughtsAppend(a: string, b: string)
    ensures Thoughts(a + "\n" + b) == Thoughts(a) + Thoughts(b)
  {
    var la, lb := Split(a, '\n'), Split(b, '\n');
    SplitConcat(a, '\n', b);
    FilterAppend(KeepLine, la, lb);
    MapAppend(CleanLine, Filter(KeepLine, la), Filter(KeepLine, lb));
  }

  /** One line gives one item when it is kept, and none otherwise. */
  lemma ThoughtsOfLine(line: string)
    requires '\n' !in line
    ensures Thoughts(line) == if KeepLine(line) then [CleanLine(line)] else []
  {
    SplitNoSeparator(line, '\n');
    assert [line][1..] == [];
    assert Filter(KeepLine, [line]) == if KeepLine(line) then [line] else [];
  }

  /** A line of whitespace only is dropped. */
  lemma BlankLineDropped(line: string)
    requires AllSpace(line)
    ensures !KeepLine(line)
  {
    TrimOfAllSpace(line);
  }

  /** A line holding a fence is dropped. */
  lemma FenceLineDropped(a: string, b: string)
    ensures !KeepLine(a + Fence + b)
  {
    ContainsSelf(Fence);
    ContainsAppend(Fence, b, Fence);
    ContainsAppend(Fence + b, a, Fence);
    assert a + Fence + b == a + (Fence + b);
  }

  /** A line naming the time or the space complexity, in any letter case, is dropped. */
  lemma ComplexityLineDropped(a: string, w: string, b: string)
    requires LowerStr(w) == "time complexity" || LowerStr(w) == "space complexity"
    ensures !KeepLine(a + w + b)
  {
    var l := LowerStr(w);
    assert LowerStr(a + w + b) == LowerStr(a) + (l + LowerStr(b));
    ContainsSelf(l);
    ContainsAppend(l, LowerStr(b), l);
    ContainsAppend(l + LowerStr(b), LowerStr(a), l);
  }

  /** A dashed point is listed without its dash and the spaces around it. */
  lemma CleanLineStripsDash(lead: string, ws: string, rest: string, trail: string)
    requires AllSpace(lead) && AllSpace(ws) && AllSpace(trail)
    requires rest != [] && Tidy(rest)
    ensures CleanLine(lead + "-" + ws + rest + trail) == rest
  {
    var line := lead + "-" + ws + rest + trail;
    var t := "-" + ws + rest;
    assert |t| > 0 && t[0] == '-' && t[1..] == ws + rest by {
      assert t == ['-'] + (ws + rest);
    }
    assert Trim(line) == t by {
      assert t[|t| - 1] == rest[|rest| - 1];
      assert line == lead + t + trail;
      SpacesAroundTrim(lead, t, trail);
    }
    assert Trim(t[1..]) == rest by {
      assert ws + rest == ws + rest + "";
      SpacesAroundTrim(ws, rest, "");
    }
  }

  /** A tidy line that does not start with a dash is listed as it is. */
  lemma CleanLineOfTidy(lead: string, t: string, trail: string)
    requires AllSpace(lead) && AllSpace(trail)
    requires t != [] && Tidy(t) && t[0] != '-'
    ensures CleanLine(lead + t + trail) == t
  {
    SpacesAroundTrim(lead, t, trail);
  }

  // ---------------------------------------------------------------------
  // Line numbers
  // ---------------------------------------------------------------------

  function LineTexts(r: seq<(nat, string)>): (t: seq<string>)
    ensures |t| == |r| && forall k :: 0 <= k < |r| ==> t[k] == r[k].1
  {
    seq(|r|, k requires 0 <= k < |r| => r[k].1)
  }

  /**
   * `renderCodeWithLineNumbers`: nothing for empty code; otherwise the
   * `\n`-separated lines numbered from 1, which give back the code exactly.
   */
  function NumberedLines(code: string): (r: seq<(nat, string)>)
    ensures code == "" ==> r == []
    ensures forall k :: 0 <= k < |r| ==> r[k].0 == k + 1 && '\n' !in r[k].1
    ensures code != "" ==> |r| == CountChar(code, '\n') + 1 && Join(LineTexts(r), '\n') == code
  {
    if code == "" then []
    else
      var lines := Split(code, '\n');
      var r := seq(|lines|, k requires 0 <= k < |lines| => (k + 1, lines[k]));
      SplitJoin(code, '\n');
      SplitPiecesLackSeparator(code, '\n');
      assert LineTexts(r) == lines;
      r
  }

  // ---------------------------------------------------------------------
  // Removing a screenshot: `copy.splice(index, 1)`
  // ---------------------------------------------------------------------

  /** Where `splice` starts: a negative index counts from the end; both ends are clamped. */
  function SpliceStart(len: nat, index: int): (k: nat)
    ensures k <= len
    ensures 0 <= index <= len ==> k == index
    ensures -(len as int) <= index < 0 ==> k == len + index
    ensures index < -(len as int) ==> k == 0
    ensures index > len ==> k == len
  {
    if index < 0 then (if len + index < 0 then 0 else len + index)
    else if index > len then len
    else index
  }

  /**
   * The list without the element at the start `splice` computes, the
   * others kept in order; an index past the end removes nothing.
   */
  function RemoveAt<T>(xs: seq<T>, index: int): (r: seq<T>)
    ensures var k := SpliceStart(|xs|, index);
      if k < |xs| then
        |r| == |xs| - 1
        && (forall j :: 0 <= j < k ==> r[j] == xs[j])
        && (forall j :: k <= j < |r| ==> r[j] == xs[j + 1])
        && multiset(r) + multiset{xs[k]} == multiset(xs)
      else r == xs
  {
    var k := SpliceStart(|xs|, index);
    if k < |xs| then
      assert xs == xs[..k] + [xs[k]] + xs[k + 1..];
      xs[..k] + xs[k + 1..]
    else xs
  }

  // ---------------------------------------------------------------------
  // The component's state
  // ---------------------------------------------------------------------

  datatype NoticeKind = Success | Error | Warning | Info

  datatype Notice = Notice(message: string, kind: NoticeKind)

  /** What the main process answers to `generate-solution`. */
  datatype Reply = Solved(fullSolution: string, code: string) | Failed(message: string)

  const CaptureFirst := "Please capture a problem first"
  const Generating := "Generating solution..."
  const Generated := "Solution generated successfully"
  const GenerationFailed := "Error generating solution"
  const GenerationErrorPrefix := "Error generating solution: "
  const Analyzing := "Analyzing screenshot..."
  const AnalysisComplete := "Problem analysis complete"
  const AnalysisErrorPrefix := "Error analyzing the problem: "
  const NoElectron := "Electron environment not available"
  const ResetDone := "App reset complete"

  /** `solution?.message || 'Error generating solution'` */
  function FailureMessage(message: string): (m: string)
    ensures m != ""
    ensures message != "" ==> m == message
  {
    if message == "" then GenerationFailed else message
  }

  class RendererApp {
    /** Whether the Electron bridge is present (`window.require`). */
    const ipc: bool
    var isLoading: bool
    var screenshots: seq<string>
    var problemText: string
    var thoughtProcess: string
    var solutionCode: string
    var language: Language
    var complexity: Complexities
    var notification: Option<Notice>

    constructor(ipc: bool)
      ensures this.ipc == ipc && !isLoading && screenshots == [] && problemText == ""
      ensures thoughtProcess == "" && solutionCode == "" && language == JavaScript
      ensures complexity == InitialComplexity && notification == None
    {
      this.ipc := ipc;
      isLoading := false;
      screenshots := [];
      problemText := "";
      thoughtProcess := "";
      solutionCode := "";
      language := JavaScript;
      complexity := InitialComplexity;
      notification := None;
    }

    /**
     * `resetApp`: the view is cleared and the complexity restored; loading
     * and language stay. `sent` tells whether `reset-screenshots` went to
     * the main process, which happens exactly when the bridge is present.
     */
    method ResetApp() returns (sent: bool)
      modifies this
      ensures sent == ipc
      ensures screenshots == [] && problemText == "" && thoughtProcess == "" && solutionCode == ""
      ensures complexity == InitialComplexity && notification == Some(Notice(ResetDone, Success))
      ensures isLoading == old(isLoading) && language == old(language)
    {
      screenshots := [];
      problemText := "";
      thoughtProcess := "";
      solutionCode := "";
      complexity := InitialComplexity;
      sent := ipc;
      notification := Some(Notice(ResetDone, Success));
    }

    /** `removeScreenshot`: a new list without the chosen entry; nothing else changes. */
    method RemoveScreenshot(index: int)
      modifies this
      ensures screenshots == RemoveAt(old(screenshots), index)
      ensures isLoading == old(isLoading) && problemText == old(problemText)
      ensures thoughtProcess == old(thoughtProcess) && solutionCode == old(solutionCode)
      ensures language == old(language) && complexity == old(complexity)
      ensures notification == old(notification)
    {
      screenshots := RemoveAt(screenshots, index);
    }

    /** The part of `analyzeScreenshot` and `generateSolution` that shows a solution. */
    method ShowSolution(full: string, code: string)
      modifies this
      ensures solutionCode == AsWrittenBlockCode(full, code) && thoughtProcess == full
      ensures complexity == Complexities(Complexity(TimeCue, full), Complexity(SpaceCue, full))
      ensures language == DetectLanguage(solutionCode)
      ensures isLoading == old(isLoading) && screenshots == old(screenshots)
      ensures problemText == old(problemText) && notification == old(notification)
    {
      var extracted := AsWrittenBlockCode(full, code);
      solutionCode := extracted;
      thoughtProcess := full;
      complexity := Complexities(Complexity(TimeCue, full), Complexity(SpaceCue, full));
      language := DetectLanguage(extracted);
    }

    /**
     * `generateSolution`, with `reply` standing for how the request
     * settles. Without a problem nothing is requested and only a warning
     * is shown.
     */
    method GenerateSolution(reply: Attempt<Reply>) returns (requested: bool)
      modifies this
      ensures requested <==> old(problemText) != "" && ipc
      ensures problemText == old(problemText) && screenshots == old(screenshots)
      ensures old(problemText) == "" ==> (notification == Some(Notice(CaptureFirst, Warning))
        && isLoading == old(isLoading) && thoughtProcess == old(thoughtProcess)
        && solutionCode == old(solutionCode) && complexity == old(complexity) && language == old(language))
      ensures old(problemText) != "" ==> !isLoading
      ensures old(problemText) != "" && !ipc ==> notification == Some(Notice(NoElectron, Error))
      ensures requested && reply.Ok? && reply.value.Solved? ==>
        var full := reply.value.fullSolution;
        solutionCode == AsWrittenBlockCode(full, reply.value.code) && thoughtProcess == full
        && complexity == Complexities(Complexity(TimeCue, full), Complexity(SpaceCue, full))
        && language == DetectLanguage(solutionCode)
        && notification == Some(Notice(Generated, Success))
      ensures requested && reply.Ok? && reply.value.Failed? ==>
        notification == Some(Notice(FailureMessage(reply.value.message), Error))
      ensures requested && reply.Fail? ==>
        notification == Some(Notice(GenerationErrorPrefix + reply.message, Error))
      ensures !(requested && reply.Ok? && reply.value.Solved?) ==>
        thoughtProcess == old(thoughtProcess) && solutionCode == old(solutionCode)
        && complexity == old(complexity) && language == old(language)
    {
      if problemText == "" {
        notification := Some(Notice(CaptureFirst, Warning));
        return false;
      }
      isLoading := true;
      notification := Some(Notice(Generating, Info));
      if !ipc {
        isLoading := false;
        notification := Some(Notice(NoElectron, Error));
        return false;
      }
      requested := true;
      match reply {
        case Ok(Solved(full, code)) =>
          ShowSolution(full, code);
          notification := Some(Notice(Generated, Success));
        case Ok(Failed(message)) =>
          notification := Some(Notice(FailureMessage(message), Error));
        case Fail(message) =>
          notification := Some(Notice(GenerationErrorPrefix + message, Error));
      }
      isLoading := false;
    }

    /**
     * `analyzeScreenshot`: the problem text from `extracted`, then the
     * solution from `reply`. A solution that arrives, even a failed one,
     * ends with the completion notice; a rejection at either step ends with
     * the error notice.
     */
    method AnalyzeScreenshot(path: string, extracted: Attempt<string>, reply: Attempt<Reply>)
      returns (sent: Option<seq<string>>)
      modifies this
      ensures sent == if ipc then Some([path]) else None
      ensures !isLoading && screenshots == old(screenshots)
      ensures !ipc ==> notification == Some(Notice(NoElectron, Error)) && problemText == old(problemText)
      ensures ipc && extracted.Fail? ==>
        notification == Some(Notice(AnalysisErrorPrefix + extracted.message, Error)) && problemText == old(problemText)
      ensures ipc && extracted.Ok? ==> problemText == extracted.value
      ensures ipc && extracted.Ok? && reply.Fail? ==>
        notification == Some(Notice(AnalysisErrorPrefix + reply.message, Error))
      ensures ipc && extracted.Ok? && reply.Ok? ==> notification == Some(Notice(AnalysisComplete, Success))
      ensures ipc && extracted.Ok? && reply.Ok? && reply.value.Solved? ==>
        var full := reply.value.fullSolution;
        solutionCode == AsWrittenBlockCode(full, reply.value.code) && thoughtProcess == full
        && complexity == Complexities(Complexity(TimeCue, full), Complexity(SpaceCue, full))
        && language == DetectLanguage(solutionCode)
      ensures !(ipc && extracted.Ok? && reply.Ok? && reply.value.Solved?) ==>
        thoughtProcess == old(thoughtProcess) && solutionCode == old(solutionCode)
        && complexity == old(complexity) && language == old(language)
    {
      isLoading := true;
      notification := Some(Notice(Analyzing, Info));
      if !ipc {
        isLoading := false;
        notification := Some(Notice(NoElectron, Error));
        return None;
      }
      sent := Some([path]);
      match extracted {
        case Fail(message) =>
          isLoading := false;
          notification := Some(Notice(AnalysisErrorPrefix + message, Error));
        case Ok(text) =>
          problemText := text;
          match reply {
            case Fail(message) =>
              isLoading := false;
              notification := Some(Notice(AnalysisErrorPrefix + message, Error));
            case Ok(Solved(full, code)) =>
              ShowSolution(full, code);
              isLoading := false;
              notification := Some(Notice(AnalysisComplete, Success));
            case Ok(Failed(message)) =>
              notification := Some(Notice(FailureMessage(message), Error));
              isLoading := false;
              notification := Some(Notice(AnalysisComplete, Success));
          }
      }
    }

    /**
     * `processGeminiSolution`: the solution's own code and text, the
     * complexity found case-insensitively, and the language changed only
     * when a cue is found. A failed solution has neither text nor code.
     */
    method ProcessGeminiSolution(reply: Option<Reply>)
      modifies this
      ensures reply.None? ==> (thoughtProcess == old(thoughtProcess) && solutionCode == old(solutionCode)
        && complexity == old(complexity) && language == old(language))
      ensures reply.Some? ==>
        var full := if reply.value.Solved? then reply.value.fullSolution else "";
        var code := if reply.value.Solved? then reply.value.code else "";
        thoughtProcess == full && solutionCode == code
        && complexity == Complexities(Complexity(TimeCueAnyCase, full), Complexity(SpaceCueAnyCase, full))
        && language == (if GeminiLanguage(code).Some? then GeminiLanguage(code).value else old(language))
      ensures isLoading == old(isLoading) && screenshots == old(screenshots)
      ensures problemText == old(problemText) && notification == old(notification)
    {
      if reply.None? {
        return;
      }
      var full := if reply.value.Solved? then reply.value.fullSolution else "";
      var code := if reply.value.Solved? then reply.value.code else "";
      thoughtProcess := full;
      solutionCode := code;
      complexity := Complexities(Complexity(TimeCueAnyCase, full), Complexity(SpaceCueAnyCase, full));
      match GeminiLanguage(code) {
        case Some(l) => language := l;
        case None =>
      }
    }
  }

  /** A failed solution given to `processGeminiSolution` shows the default for both complexities. */
  lemma FailedSolutionShowsDefaults(cue: Pattern)
    requires |cue| > 0
    ensures Complexity(cue, "") == DefaultComplexity
  {
    ComplexityDefault(cue, "");
  }
}
