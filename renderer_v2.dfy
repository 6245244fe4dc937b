/**
 * The second renderer (V2/src/App.jsx): the `O(...)` complexity taken from
 * a solution text, the language cues, the theme and the state changes of
 * the component.
 */
module RendererV2 {
  import opened Wrappers
  import opened Text
  import opened Renderer

  // ---------------------------------------------------------------------
  // Complexity: `/[Tt]ime [Cc]omplexity.*?O\([^)]+\)/`, then `/O\([^)]+\)/`
  // inside that match
  // ---------------------------------------------------------------------

  predicate NotCloseParen(c: char) { c != ')' }

  /** `O(`, one or more characters other than `)`, and `)`. */
  predicate IsBigO(t: string) {
    |t| >= 4 && t[0] == 'O' && t[1] == '(' && t[|t| - 1] == ')'
    && forall k :: 2 <= k < |t| - 1 ==> t[k] != ')'
  }

  /**
   * Where `O\([^)]+\)` ends when it is tried at `k`. The greedy `[^)]+`
   * stops at the first `)`, which is the only character that can follow
   * it, so no backing off is ever needed.
   */
  function BigOAt(s: string, k: nat): (r: Option<nat>)
    requires k <= |s|
    ensures r.Some? ==> k + 4 <= r.value <= |s|
  {
    if k + 2 <= |s| && s[k] == 'O' && s[k + 1] == '(' then
      var c := SpanWhile(NotCloseParen, s, k + 2);
      if k + 2 < c < |s| then Some(c + 1) else None
    else None
  }

  /** What `BigOAt` matches is an `O(...)` term. */
  lemma BigOAtSound(s: string, k: nat)
    requires k <= |s| && BigOAt(s, k).Some?
    ensures IsBigO(s[k..BigOAt(s, k).value])
  {
    SpanWhileRun(NotCloseParen, s, k + 2);
    var t := s[k..BigOAt(s, k).value];
    forall m | 2 <= m < |t| - 1 ensures t[m] != ')' {
      assert t[m] == s[k + m];
    }
  }

  /** The characters of `O\([^)]+\)` seen through a slice are those of the text. */
  lemma BigOAtOfSlice(s: string, a: nat, b: nat, m: nat)
    requires a <= b <= |s| && m <= b - a
    ensures BigOAt(s[a..b], m).Some? ==> BigOAt(s, a + m) == Some(a + BigOAt(s[a..b], m).value)
    ensures BigOAt(s, a + m).Some? && BigOAt(s, a + m).value <= b ==>
      BigOAt(s[a..b], m) == Some(BigOAt(s, a + m).value - a)
  {
    var t := s[a..b];
    if BigOAt(t, m).Some? {
      var c := SpanWhile(NotCloseParen, t, m + 2);
      SpanWhileRun(NotCloseParen, t, m + 2);
      assert t[c] == s[a + c];
      forall q | a + m + 2 <= q < a + c ensures NotCloseParen(s[q]) {
        assert s[q] == t[q - a];
      }
      SpanWhileExact(NotCloseParen, s, a + m + 2, a + c);
    }
    if BigOAt(s, a + m).Some? && BigOAt(s, a + m).value <= b {
      var c := SpanWhile(NotCloseParen, s, a + m + 2);
      SpanWhileRun(NotCloseParen, s, a + m + 2);
      assert t[c - a] == s[c];
      forall q | m + 2 <= q < c - a ensures NotCloseParen(t[q]) {
        assert t[q] == s[a + q];
      }
      SpanWhileExact(NotCloseParen, t, m + 2, c - a);
    }
  }

  /** A known `O(...)` at `k` is matched exactly. */
  lemma BigOAtOfValue(s: string, k: nat, value: string)
    requires IsBigO(value) && k + |value| <= |s| && s[k..k + |value|] == value
    ensures BigOAt(s, k) == Some(k + |value|)
  {
    assert s[k] == value[0] && s[k + 1] == value[1];
    forall q | k + 2 <= q < k + |value| - 1 ensures NotCloseParen(s[q]) {
      assert s[q] == value[q - k];
    }
    assert s[k + |value| - 1] == value[|value| - 1];
    SpanWhileExact(NotCloseParen, s, k + 2, k + |value| - 1);
  }

  /** The lazy `.*?` before `O(`: the first position from `k` up to `e` where `O(...)` matches. */
  function LazyBigO(s: string, k: nat, e: nat): (r: Option<(nat, nat)>)
    requires k <= e <= |s|
    ensures r.Some? ==> k <= r.value.0 <= e && BigOAt(s, r.value.0) == Some(r.value.1)
    ensures r.Some? ==> forall m :: k <= m < r.value.0 ==> BigOAt(s, m).None?
    ensures r.None? ==> forall m :: k <= m <= e ==> BigOAt(s, m).None?
    decreases e - k
  {
    if BigOAt(s, k).Some? then Some((k, BigOAt(s, k).value))
    else if k == e then None
    else LazyBigO(s, k + 1, e)
  }

  lemma {:induction false} LazyBigOExact(s: string, k: nat, e: nat, x: nat)
    requires k <= x <= e <= |s|
    requires forall m :: k <= m < x ==> BigOAt(s, m).None?
    requires BigOAt(s, x).Some?
    ensures LazyBigO(s, k, e) == Some((x, BigOAt(s, x).value))
    decreases x - k
  {
    if k < x {
      LazyBigOExact(s, k + 1, e, x);
    }
  }

  /** Where the cue, the value and its end lie in a match of the whole expression. */
  datatype Hit = Hit(cueAt: nat, valueAt: nat, valueEnd: nat)

  /**
   * `h` describes a match: the cue at `h.cueAt`, then characters of the
   * same line up to `h.valueAt` at none of which an `O(...)` starts, then
   * an `O(...)` ending at `h.valueEnd`.
   */
  predicate IsHit(cue: Pattern, s: string, h: Hit) {
    MatchAt(s, h.cueAt, cue) && h.cueAt + |cue| <= h.valueAt <= LineEnd(s, h.cueAt + |cue|)
    && BigOAt(s, h.valueAt) == Some(h.valueEnd)
    && forall m :: h.cueAt + |cue| <= m < h.valueAt ==> BigOAt(s, m).None?
  }

  /** The match tried at `i`: the cue, then `.*?` within the line, then `O(...)`. */
  function CueBigOAt(cue: Pattern, s: string, i: nat): (r: Option<Hit>)
    requires i <= |s|
    ensures r.Some? ==> r.value.cueAt == i && IsHit(cue, s, r.value)
  {
    if MatchAt(s, i, cue) then
      var c := i + |cue|;
      match LazyBigO(s, c, LineEnd(s, c))
      case Some((k, x)) => Some(Hit(i, k, x))
      case None => None
    else None
  }

  /** The leftmost match from `i` on (`s.match(re)`). */
  function FirstCueBigO(cue: Pattern, s: string, i: nat): (r: Option<Hit>)
    requires i <= |s|
    decreases |s| - i
  {
    match CueBigOAt(cue, s, i)
    case Some(h) => Some(h)
    case None => if i == |s| then None else FirstCueBigO(cue, s, i + 1)
  }

  /** The leftmost match is a match, and no match starts before it. */
  lemma {:induction false} FirstCueBigOHit(cue: Pattern, s: string, i: nat)
    requires i <= |s|
    ensures FirstCueBigO(cue, s, i).Some? ==>
      var h := FirstCueBigO(cue, s, i).value;
      i <= h.cueAt && IsHit(cue, s, h) && forall j :: i <= j < h.cueAt ==> CueBigOAt(cue, s, j).None?
    decreases |s| - i
  {
    match CueBigOAt(cue, s, i)
    case Some(h) =>
      assert FirstCueBigO(cue, s, i) == Some(h);
    case None =>
      if i < |s| {
        var r := FirstCueBigO(cue, s, i + 1);
        FirstCueBigOHit(cue, s, i + 1);
        assert FirstCueBigO(cue, s, i) == r;
        if r.Some? {
          forall j | i <= j < r.value.cueAt ensures CueBigOAt(cue, s, j).None? {
            if j > i {
              assert i + 1 <= j;
            }
          }
        }
      }
  }

  lemma {:induction false} FirstCueBigOSkip(cue: Pattern, s: string, i: nat, j: nat)
    requires i <= j <= |s|
    requires forall k :: i <= k < j ==> !MatchAt(s, k, cue)
    ensures FirstCueBigO(cue, s, i) == FirstCueBigO(cue, s, j)
    decreases j - i
  {
    if i < j {
      assert CueBigOAt(cue, s, i).None?;
      FirstCueBigOSkip(cue, s, i + 1, j);
    }
  }

  lemma {:induction false} NoCueNoBigO(cue: Pattern, s: string, i: nat)
    requires i <= |s|
    requires forall j :: i <= j <= |s| ==> !MatchAt(s, j, cue)
    ensures FirstCueBigO(cue, s, i).None?
    decreases |s| - i
  {
    assert CueBigOAt(cue, s, i).None?;
    if i < |s| {
      NoCueNoBigO(cue, s, i + 1);
    }
  }

  /** No position of the cue accepts a capital `O`, so no `O(` starts inside it. */
  predicate NoBigOStart(cue: Pattern) {
    forall x :: 0 <= x < |cue| ==> !ClassHas(cue[x], 'O')
  }

  lemma CuesHaveNoBigOStart()
    ensures NoBigOStart(TimeCue) && NoBigOStart(SpaceCue)
  {
    var t1, t2 := [OneOf("Tt")] + Literal("ime "), [OneOf("Ss")] + Literal("pace ");
    var c := [OneOf("Cc")] + Literal("omplexity");
    assert TimeCue == t1 + c && SpaceCue == t2 + c;
    assert NoBigOStart(t1) && NoBigOStart(t2) && NoBigOStart(c);
  }

  /** `m[0].match(/O\([^)]+\)/)[0]`: the first `O(...)` in the matched text. */
  function Rematch(t: string): (r: Option<string>)
    ensures r.Some? ==> IsBigO(r.value)
  {
    match LazyBigO(t, 0, |t|)
    case Some((k, x)) => BigOAtSound(t, k); Some(t[k..x])
    case None => None
  }

  /**
   * Matching `O\([^)]+\)` again inside the first match finds the value the
   * first match ended with: the cue holds no `O`, and the lazy `.*?` has
   * already passed over every earlier place where `O(...)` could start.
   */
  lemma RematchFindsValue(cue: Pattern, s: string, h: Hit)
    requires NoBigOStart(cue) && IsHit(cue, s, h)
    ensures h.valueEnd <= |s| && Rematch(s[h.cueAt..h.valueEnd]) == Some(s[h.valueAt..h.valueEnd])
  {
    var j := h.cueAt;
    var t := s[j..h.valueEnd];
    LazyBigOInMatch(cue, s, h);
    assert t[h.valueAt - j..h.valueEnd - j] == s[h.valueAt..h.valueEnd];
  }

  /** The lazy search inside the matched text stops at the value. */
  lemma LazyBigOInMatch(cue: Pattern, s: string, h: Hit)
    requires NoBigOStart(cue) && IsHit(cue, s, h)
    ensures h.valueEnd <= |s|
    ensures var t := s[h.cueAt..h.valueEnd];
      LazyBigO(t, 0, |t|) == Some((h.valueAt - h.cueAt, h.valueEnd - h.cueAt))
  {
    var j := h.cueAt;
    var t := s[j..h.valueEnd];
    NoBigOInMatchBeforeValue(cue, s, h);
    BigOAtOfSlice(s, j, h.valueEnd, h.valueAt - j);
    LazyBigOExact(t, 0, |t|, h.valueAt - j);
  }

  /** Inside the matched text, no `O(...)` starts before the value. */
  lemma NoBigOInMatchBeforeValue(cue: Pattern, s: string, h: Hit)
    requires NoBigOStart(cue) && IsHit(cue, s, h)
    ensures h.valueEnd <= |s|
    ensures forall m :: 0 <= m < h.valueAt - h.cueAt ==> BigOAt(s[h.cueAt..h.valueEnd], m).None?
  {
    var j := h.cueAt;
    var t := s[j..h.valueEnd];
    forall m | 0 <= m < h.valueAt - j ensures BigOAt(t, m).None? {
      BigOAtOfSlice(s, j, h.valueEnd, m);
      if m < |cue| {
        assert t[m] == s[j + m];
        assert ClassHas(cue[m], s[j + m]);
      }
    }
  }

  /** `m ? m[0].match(/O\([^)]+\)/)[0] : "O(n)"`: always an `O(...)` term. */
  function BigOComplexity(cue: Pattern, s: string): (r: string)
    ensures IsBigO(r)
  {
    match FirstCueBigO(cue, s, 0)
    case None => DefaultComplexity
    case Some(h) =>
      FirstCueBigOHit(cue, s, 0);
      match Rematch(s[h.cueAt..h.valueEnd])
      case Some(v) => v
      case None => DefaultComplexity
  }

  /**
   * For the time and space cues, the term shown is the one that ends the
   * leftmost match: on the cue's line, after it, with no earlier `O(...)`
   * between them.
   */
  lemma BigOComplexityOfHit(cue: Pattern, s: string)
    requires NoBigOStart(cue) && FirstCueBigO(cue, s, 0).Some?
    ensures var h := FirstCueBigO(cue, s, 0).value;
      IsHit(cue, s, h) && BigOComplexity(cue, s) == s[h.valueAt..h.valueEnd]
  {
    FirstCueBigOHit(cue, s, 0);
    RematchFindsValue(cue, s, FirstCueBigO(cue, s, 0).value);
  }

  /** Without the cue the default is shown. */
  lemma BigODefault(cue: Pattern, s: string)
    requires !Found(s, cue)
    ensures BigOComplexity(cue, s) == DefaultComplexity
  {
    NoCueNoBigO(cue, s, 0);
  }

  /** Where the parts of a one-cue text lie in it. */
  lemma BigOLineLayout(pre: string, head: string, mid: string, value: string, post: string)
    ensures var s := pre + head + mid + value + post;
      var c := |pre| + |head|;
      var k := c + |mid|;
      k + |value| <= |s| && s[..|pre|] == pre && s[|pre|..c] == head
      && s[c..k] == mid && s[k..k + |value|] == value
  {
    var s := pre + head + mid + value + post;
    assert s == pre + (head + (mid + (value + post)));
  }

  /** The per-position facts of a one-cue text, from where its parts lie. */
  lemma BigOLineFacts(cue: Pattern, s: string, pre: string, head: string, mid: string, value: string)
    requires |head| == |cue| && MatchAt(head, 0, cue)
    requires NoLineTerminator(mid) && 'O' !in mid && IsBigO(value)
    requires |pre| + |head| + |mid| + |value| <= |s|
    requires s[..|pre|] == pre && s[|pre|..|pre| + |head|] == head
    requires s[|pre| + |head|..|pre| + |head| + |mid|] == mid
    requires s[|pre| + |head| + |mid|..|pre| + |head| + |mid| + |value|] == value
    ensures var i := |pre|;
      var c := i + |cue|;
      var k := c + |mid|;
      MatchAt(s, i, cue)
      && (forall q :: c <= q < k ==> s[q] != 'O' && NotLineTerminator(s[q]))
      && NotLineTerminator(s[k])
  {
    var i := |pre|;
    var c := i + |cue|;
    var k := c + |mid|;
    forall q | 0 <= q < |cue| ensures ClassHas(cue[q], s[i + q]) {
      assert s[i + q] == s[i..c][q];
    }
    forall q | c <= q < k ensures s[q] != 'O' && NotLineTerminator(s[q]) {
      assert s[q] == s[c..k][q - c];
    }
    assert s[k] == s[k..k + |value|][0];
  }

  /** The value from a text whose leftmost cue is at `i` and whose first `O(...)` after it is `s[k..x]`. */
  lemma BigOOfLayout(cue: Pattern, s: string, i: nat, k: nat, x: nat)
    requires NoBigOStart(cue) && i + |cue| <= k <= |s|
    requires forall j :: 0 <= j < i ==> !MatchAt(s, j, cue)
    requires MatchAt(s, i, cue)
    requires forall q :: i + |cue| <= q < k ==> s[q] != 'O' && NotLineTerminator(s[q])
    requires BigOAt(s, k) == Some(x)
    ensures BigOComplexity(cue, s) == s[k..x]
  {
    var c := i + |cue|;
    var e := LineEnd(s, c);
    assert k <= e;
    forall m | c <= m < k ensures BigOAt(s, m).None? {
      assert s[m] != 'O';
    }
    LazyBigOExact(s, c, e, k);
    FirstCueBigOSkip(cue, s, 0, i);
    assert FirstCueBigO(cue, s, 0) == Some(Hit(i, k, x));
    BigOComplexityOfHit(cue, s);
  }

  /**
   * A text whose leftmost cue is followed by text on the same line without
   * a capital `O`, then an `O(...)` term, shows that term, whatever comes
   * after it.
   */
  lemma BigOOfLine(cue: Pattern, pre: string, head: string, mid: string, value: string, post: string)
    requires NoBigOStart(cue)
    requires |head| == |cue| && MatchAt(head, 0, cue)
    requires forall j :: 0 <= j < |pre| ==> !MatchAt(pre + head + mid + value + post, j, cue)
    requires NoLineTerminator(mid) && 'O' !in mid && IsBigO(value)
    ensures BigOComplexity(cue, pre + head + mid + value + post) == value
  {
    var s := pre + head + mid + value + post;
    var i := |pre|;
    var k := i + |cue| + |mid|;
    assert BigOComplexity(cue, s) == s[k..k + |value|] && s[k..k + |value|] == value by {
      BigOLineLayout(pre, head, mid, value, post);
      BigOLineFacts(cue, s, pre, head, mid, value);
      BigOAtOfValue(s, k, value);
      BigOOfLayout(cue, s, i, k, k + |value|);
    }
  }

  /** An instance: the term is shown without the words around it. */
  lemma TimeBigOExample(text: string)
    requires text == "Time Complexity is O(n^2) here"
    ensures BigOComplexity(TimeCue, text) == "O(n^2)"
  {
    Renderer.TimeCueMatches("Time Complexity");
    CuesHaveNoBigOStart();
    TimeBigOExampleLayout(text);
    BigOOfLine(TimeCue, "", "Time Complexity", " is ", "O(n^2)", " here");
  }

  lemma TimeBigOExampleLayout(text: string)
    requires text == "Time Complexity is O(n^2) here"
    ensures text == "" + "Time Complexity" + " is " + "O(n^2)" + " here"
    ensures IsBigO("O(n^2)") && 'O' !in " is "
    ensures NoLineTerminator(" is ")
  {
  }

  // ---------------------------------------------------------------------
  // Language
  // ---------------------------------------------------------------------

  predicate HasJavaCue(code: string) {
    Contains(code, "public class") || Contains(code, "private ")
  }

  /** `function`, then `def `, then a Java cue; no cue leaves the language alone. */
  function CueLanguage(code: string): (l: Option<Language>)
    ensures l == Some(JavaScript) <==> Contains(code, "function")
    ensures l == Some(Python) <==> !Contains(code, "function") && Contains(code, "def ")
    ensures l == Some(Java) <==> !Contains(code, "function") && !Contains(code, "def ") && HasJavaCue(code)
    ensures l.None? <==> !Contains(code, "function") && !Contains(code, "def ") && !HasJavaCue(code)
  {
    if Contains(code, "function") then Some(JavaScript)
    else if Contains(code, "def ") then Some(Python)
    else if HasJavaCue(code) then Some(Java)
    else None
  }

  /** Java code that mentions `function` is taken for JavaScript here, unlike in the first renderer. */
  lemma JavaWithFunctionIsJavaScript(a: string, b: string)
    ensures CueLanguage(a + "public class" + b + "function") == Some(JavaScript)
    ensures Renderer.GeminiLanguage(a + "public class" + b + "function") == Some(Java)
  {
    var s := a + "public class" + b + "function";
    ContainsSelf("function");
    ContainsAppend("function", a + "public class" + b, "function");
    ContainsSelf("public class");
    ContainsAppend("public class", b + "function", "public class");
    assert "public class" + b + "function" == "public class" + (b + "function");
    ContainsAppend("public class" + b + "function", a, "public class");
    assert s == a + ("public class" + b + "function");
  }

  // ---------------------------------------------------------------------
  // Theme
  // ---------------------------------------------------------------------

  datatype Theme = Dark | Light

  function Flipped(t: Theme): (u: Theme)
    ensures u != t
  {
    if t == Dark then Light else Dark
  }

  /** The body class that shows a theme. */
  function ThemeClass(t: Theme): (c: string)
    ensures c == "dark-theme" <==> t == Dark
  {
    if t == Dark then "dark-theme" else "light-theme"
  }

  // ---------------------------------------------------------------------
  // The component
  // ---------------------------------------------------------------------

  class V2App {
    /** Whether the Electron bridge is present (`window.require`). */
    const ipc: bool
    var theme: Theme
    var bodyClass: string
    var isLoading: bool
    var screenshots: seq<string>
    var problemText: string
    var thoughtProcess: string
    var solutionCode: string
    var language: Language
    var complexity: Complexities
    var notification: Option<Notice>
    var isVisible: bool

    /** The body shows the current theme. */
    predicate ThemeShown()
      reads this
    {
      bodyClass == ThemeClass(theme)
    }

    /** The initial state, with the body class set by the first effect. */
    constructor(ipc: bool)
      ensures this.ipc == ipc && theme == Dark && ThemeShown() && isVisible
      ensures !isLoading && screenshots == [] && problemText == ""
      ensures thoughtProcess == "" && solutionCode == "" && language == JavaScript
      ensures complexity == InitialComplexity && notification == None
    {
      this.ipc := ipc;
      theme := Dark;
      bodyClass := ThemeClass(Dark);
      isLoading := false;
      screenshots := [];
      problemText := "";
      thoughtProcess := "";
      solutionCode := "";
      language := JavaScript;
      complexity := InitialComplexity;
      notification := None;
      isVisible := true;
    }

    /** `toggleTheme`: the other theme, and the body class of the new theme. */
    method ToggleTheme()
      modifies this
      ensures theme == Flipped(old(theme)) && ThemeShown()
      ensures isLoading == old(isLoading) && screenshots == old(screenshots) && problemText == old(problemText)
      ensures thoughtProcess == old(thoughtProcess) && solutionCode == old(solutionCode)
      ensures language == old(language) && complexity == old(complexity)
      ensures notification == old(notification) && isVisible == old(isVisible)
    {
      var next := if theme == Dark then Light else Dark;
      bodyClass := if theme == Dark then "light-theme" else "dark-theme";
      theme := next;
    }

    /** `toggleVisibility`: the panel flag flips; the main process is told when the bridge is there. */
    method ToggleVisibility() returns (sent: bool)
      modifies this
      ensures isVisible == !old(isVisible) && sent == ipc
      ensures theme == old(theme) && bodyClass == old(bodyClass)
      ensures isLoading == old(isLoading) && screenshots == old(screenshots) && problemText == old(problemText)
      ensures thoughtProcess == old(thoughtProcess) && solutionCode == old(solutionCode)
      ensures language == old(language) && complexity == old(complexity)
      ensures notification == old(notification)
    {
      isVisible := !isVisible;
      sent := ipc;
    }

    /**
     * `resetApp`: the view is cleared and the complexity restored; the
     * stored screenshots are reset in the main process when the bridge is
     * there. Theme, language and loading stay.
     */
    method ResetApp() returns (sent: bool)
      modifies this
      ensures sent == ipc
      ensures screenshots == [] && problemText == "" && thoughtProcess == "" && solutionCode == ""
      ensures complexity == InitialComplexity && notification == Some(Notice(ResetDone, Success))
      ensures theme == old(theme) && bodyClass == old(bodyClass) && isVisible == old(isVisible)
      ensures isLoading == old(isLoading) && language == old(language)
    {
      screenshots := [];
      problemText := "";
      thoughtProcess := "";
      solutionCode := "";
      complexity := InitialComplexity;
      sent := ipc;
      notification := Some(Notice(ResetDone, Success));
    }

    /** What both handlers do with a solution that arrives. */
    method ShowSolution(full: string, code: string)
      modifies this
      ensures thoughtProcess == full && solutionCode == code
      ensures complexity == Complexities(BigOComplexity(TimeCue, full), BigOComplexity(SpaceCue, full))
      ensures theme == old(theme) && bodyClass == old(bodyClass) && isVisible == old(isVisible)
      ensures isLoading == old(isLoading) && screenshots == old(screenshots)
      ensures problemText == old(problemText) && notification == old(notification)
      ensures language == old(language)
    {
      thoughtProcess := full;
      solutionCode := code;
      complexity := Complexities(BigOComplexity(TimeCue, full), BigOComplexity(SpaceCue, full));
    }

    /**
     * `generateSolution`, with `reply` standing for how the request
     * settles. Without a problem nothing is requested and only a warning
     * is shown; the language is never changed here.
     */
    method GenerateSolution(reply: Attempt<Reply>) returns (requested: Option<string>)
      modifies this
      ensures requested == if old(problemText) != "" && ipc then Some(old(problemText)) else None
      ensures problemText == old(problemText) && screenshots == old(screenshots) && language == old(language)
      ensures theme == old(theme) && bodyClass == old(bodyClass) && isVisible == old(isVisible)
      ensures old(problemText) == "" ==> (notification == Some(Notice(CaptureFirst, Warning))
        && isLoading == old(isLoading) && thoughtProcess == old(thoughtProcess)
        && solutionCode == old(solutionCode) && complexity == old(complexity))
      ensures old(problemText) != "" ==> !isLoading
      ensures old(problemText) != "" && !ipc ==> notification == Some(Notice(NoElectron, Error))
      ensures requested.Some? && reply.Ok? && reply.value.Solved? ==>
        var full := reply.value.fullSolution;
        thoughtProcess == full && solutionCode == reply.value.code
        && complexity == Complexities(BigOComplexity(TimeCue, full), BigOComplexity(SpaceCue, full))
        && notification == Some(Notice(Generated, Success))
      ensures requested.Some? && reply.Ok? && reply.value.Failed? ==>
        notification == Some(Notice(FailureMessage(reply.value.message), Error))
      ensures requested.Some? && reply.Fail? ==>
        notification == Some(Notice(GenerationErrorPrefix + reply.message, Error))
      ensures !(requested.Some? && reply.Ok? && reply.value.Solved?) ==>
        thoughtProcess == old(thoughtProcess) && solutionCode == old(solutionCode)
        && complexity == old(complexity)
    {
      if problemText == "" {
        notification := Some(Notice(CaptureFirst, Warning));
        return None;
      }
      isLoading := true;
      notification := Some(Notice(Generating, Info));
      if !ipc {
        isLoading := false;
        notification := Some(Notice(NoElectron, Error));
        return None;
      }
      requested := Some(problemText);
      match reply {
        case Ok(Solved(full, code)) =>
          ShowSolution(full, code);
          notification := Some(Notice(Generated, Success));
        case Ok(Failed(message)) =>
          notification := Some(Notice(FailureMessage(message), Error));
        case Fail(message) =>
          notification := Some(Notice(GenerationErrorPrefix + message, Error));
      }
      isLoading := false;
    }

    /**
     * `analyzeScreenshot`: the problem text from `extracted`, then the
     * solution from `reply`, whose code may set the language. A solution
     * that arrives, even a failed one, ends with the completion notice; a
     * rejection at either step ends with the error notice.
     */
    method AnalyzeScreenshot(path: string, extracted: Attempt<string>, reply: Attempt<Reply>)
      returns (sent: Option<seq<string>>)
      modifies this
      ensures sent == if ipc then Some([path]) else None
      ensures !isLoading && screenshots == old(screenshots)
      ensures theme == old(theme) && bodyClass == old(bodyClass) && isVisible == old(isVisible)
      ensures !ipc ==> notification == Some(Notice(NoElectron, Error)) && problemText == old(problemText)
      ensures ipc && extracted.Fail? ==>
        notification == Some(Notice(AnalysisErrorPrefix + extracted.message, Error)) && problemText == old(problemText)
      ensures ipc && extracted.Ok? ==> problemText == extracted.value
      ensures ipc && extracted.Ok? && reply.Fail? ==>
        notification == Some(Notice(AnalysisErrorPrefix + reply.message, Error))
      ensures ipc && extracted.Ok? && reply.Ok? ==> notification == Some(Notice(AnalysisComplete, Success))
      ensures ipc && extracted.Ok? && reply.Ok? && reply.value.Solved? ==>
        var full := reply.value.fullSolution;
        var code := reply.value.code;
        thoughtProcess == full && solutionCode == code
        && complexity == Complexities(BigOComplexity(TimeCue, full), BigOComplexity(SpaceCue, full))
        && language == (if CueLanguage(code).Some? then CueLanguage(code).value else old(language))
      ensures !(ipc && extracted.Ok? && reply.Ok? && reply.value.Solved?) ==>
        thoughtProcess == old(thoughtProcess) && solutionCode == old(solutionCode)
        && complexity == old(complexity) && language == old(language)
    {
      isLoading := true;
      notification := Some(Notice(Analyzing, Info));
      if !ipc {
        isLoading := false;
        notification := Some(Notice(NoElectron, Error));
        return None;
      }
      sent := Some([path]);
      match extracted {
        case Fail(message) =>
          isLoading := false;
          notification := Some(Notice(AnalysisErrorPrefix + message, Error));
        case Ok(text) =>
          problemText := text;
          match reply {
            case Fail(message) =>
              isLoading := false;
              notification := Some(Notice(AnalysisErrorPrefix + message, Error));
            case Ok(Solved(full, code)) =>
              ShowSolution(full, code);
              match CueLanguage(code) {
                case Some(l) => language := l;
                case None =>
              }
              isLoading := false;
              notification := Some(Notice(AnalysisComplete, Success));
            case Ok(Failed(message)) =>
              notification := Some(Notice(FailureMessage(message), Error));
              isLoading := false;
              notification := Some(Notice(AnalysisComplete, Success));
          }
      }
    }
  }

  /** Toggling the theme twice restores it, and the body keeps showing it. */
  lemma ToggleTwiceRestores(t: Theme)
    ensures Flipped(Flipped(t)) == t
    ensures ThemeClass(Flipped(Flipped(t))) == ThemeClass(t)
  {
  }
}
