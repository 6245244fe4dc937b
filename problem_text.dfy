/**
 * The text processing of the AI service (src/utils/openai.js): the cues
 * that decide what kind of problem a statement is, the priority among
 * them, and the post-processing of a model's reply (the bare answer letter
 * of a multiple-choice question, the first fenced code block of a
 * programming answer).
 */
module ProblemText {
  import opened Wrappers
  import opened Text
  import opened Fences

  // ---------------------------------------------------------------------
  // Cues
  // ---------------------------------------------------------------------

  /** `/code|algorithm|function|class|program|implement/i` */
  const ProgrammingWords: seq<string> := ["code", "algorithm", "function", "class", "program", "implement"]

  /** `/calculate|compute|find the value/i` */
  const NumericalWords: seq<string> := ["calculate", "compute", "find the value"]

  /** One of the words occurs in `s`, ignoring case. */
  predicate AnyWordFound(s: string, words: seq<string>) {
    exists w :: w in words && Found(s, Caseless(w))
  }

  predicate HasProgrammingCue(s: string) { AnyWordFound(s, ProgrammingWords) }

  /** `/\([A-D]\)/` */
  const LetterInParens: Pattern := [Exactly('('), Range('A', 'D'), Exactly(')')]

  /** `/[A-D]\)/` */
  const LetterParen: Pattern := [Range('A', 'D'), Exactly(')')]

  /** `/Option [A-D]/i` */
  const OptionLetter: Pattern := Caseless("option ") + [RangeAnyCase('A', 'D')]

  predicate HasMcqCue(s: string) {
    Found(s, LetterInParens) || Found(s, LetterParen) || Found(s, OptionLetter)
  }

  /** The class `[×÷\+\-=]`. */
  predicate IsOperator(c: char) {
    c == '\U{00D7}' || c == '\U{00F7}' || c == '+' || c == '-' || c == '='
  }

  /**
   * `/\d+(\.\d+)?[×÷\+\-=]/` matches from index `i`. Both digit runs are
   * greedy; giving back a digit never helps, because the character after
   * a shorter run is a digit, which is neither `.` nor an operator, and
   * dropping the optional fraction leaves `.` where an operator is needed.
   */
  predicate NumberBeforeOperatorAt(s: string, i: nat)
    requires i <= |s|
  {
    var e := SpanWhile(IsDigit, s, i);
    e > i && e < |s| &&
    (IsOperator(s[e]) ||
     (s[e] == '.' &&
      var f := SpanWhile(IsDigit, s, e + 1);
      f > e + 1 && f < |s| && IsOperator(s[f])))
  }

  predicate HasNumberBeforeOperator(s: string) {
    exists i :: 0 <= i < |s| && NumberBeforeOperatorAt(s, i)
  }

  predicate HasNumericalCue(s: string) {
    AnyWordFound(s, NumericalWords) || HasNumberBeforeOperator(s)
  }

  /** The number-and-operator cue fires exactly when some digit is directly followed by an operator. */
  lemma NumberBeforeOperatorIff(s: string)
    ensures HasNumberBeforeOperator(s) <==> exists j :: 0 <= j < |s| - 1 && IsDigit(s[j]) && IsOperator(s[j + 1])
  {
    if j :| 0 <= j < |s| - 1 && IsDigit(s[j]) && IsOperator(s[j + 1]) {
      SpanWhileExact(IsDigit, s, j, j + 1);
      assert NumberBeforeOperatorAt(s, j);
    }
    if HasNumberBeforeOperator(s) {
      var i :| 0 <= i < |s| && NumberBeforeOperatorAt(s, i);
      var e := SpanWhile(IsDigit, s, i);
      SpanWhileRun(IsDigit, s, i);
      if IsOperator(s[e]) {
        assert IsDigit(s[e - 1]) && IsOperator(s[(e - 1) + 1]);
      } else {
        var f := SpanWhile(IsDigit, s, e + 1);
        SpanWhileRun(IsDigit, s, e + 1);
        assert IsDigit(s[f - 1]) && IsOperator(s[(f - 1) + 1]);
      }
    }
  }

  // ---------------------------------------------------------------------
  // Classification
  // ---------------------------------------------------------------------

  datatype Category = MultipleChoice | Numerical | Programming | General

  /** The three flags computed from a problem statement. */
  datatype Cues = Cues(mcq: bool, numerical: bool, programming: bool)

  function CuesOf(s: string): Cues {
    Cues(HasMcqCue(s), HasNumericalCue(s), HasProgrammingCue(s))
  }

  /** The prompt chosen: multiple choice before numerical before programming. */
  function Classify(c: Cues): Category {
    if c.mcq then MultipleChoice
    else if c.numerical then Numerical
    else if c.programming then Programming
    else General
  }

  function CategoryOf(s: string): Category { Classify(CuesOf(s)) }

  /**
   * A multiple-choice cue wins whatever surrounds it: text with options
   * such as "(A)" stays a multiple-choice question even when it also
   * mentions "function" or an equation.
   */
  lemma McqCueDominates(s: string, u: string, v: string)
    requires HasMcqCue(s)
    ensures HasMcqCue(u + s + v)
    ensures CategoryOf(u + s + v) == MultipleChoice
  {
    if Found(s, LetterInParens) {
      FoundAppend(s, u, LetterInParens);
      FoundAppend(u + s, v, LetterInParens);
    } else if Found(s, LetterParen) {
      FoundAppend(s, u, LetterParen);
      FoundAppend(u + s, v, LetterParen);
    } else {
      FoundAppend(s, u, OptionLetter);
      FoundAppend(u + s, v, OptionLetter);
    }
  }

  /** Any "(A)" to "(D)" option label makes the text a multiple-choice question. */
  lemma OptionLabelIsMcq(u: string, l: char, v: string)
    requires 'A' <= l <= 'D'
    ensures CategoryOf(u + ['(', l, ')'] + v) == MultipleChoice
  {
    assert MatchAt(['(', l, ')'], 0, LetterInParens);
    McqCueDominates(['(', l, ')'], u, v);
  }

  /** The word cues ignore case: "FUNCTION", "Function" and "function" are one cue. */
  lemma WordCuesIgnoreCase(s: string, t: string)
    requires SameUpToCase(s, t)
    ensures HasProgrammingCue(s) <==> HasProgrammingCue(t)
    ensures AnyWordFound(s, NumericalWords) <==> AnyWordFound(t, NumericalWords)
  {
    forall w | w in ProgrammingWords + NumericalWords
      ensures Found(s, Caseless(w)) <==> Found(t, Caseless(w))
    {
      FoundIgnoresCase(s, t, Caseless(w));
    }
  }

  // ---------------------------------------------------------------------
  // The answer letter of a multiple-choice reply
  // ---------------------------------------------------------------------

  const AnswerIsLead := "the answer is "
  const OptionLead := "option "

  /** `^<lead>([A-D])\.?$` with the `i` flag. */
  predicate LetterAfter(s: string, lead: string) {
    (|s| == |lead| + 1 || (|s| == |lead| + 2 && s[|lead| + 1] == '.'))
    && MatchAt(s, 0, Caseless(lead)) && 'A' <= Upper(s[|lead|]) <= 'D'
  }

  /**
   * The letter a multiple-choice reply consists of: the whole reply when it
   * is exactly one of A to D; otherwise the captured letter, as written, of
   * "The answer is X" or "Option X", either with an optional final period,
   * in any case.
   */
  function AnswerLetter(s: string): (r: Option<string>)
    ensures r.Some? ==> |r.value| == 1 && 'A' <= Upper(r.value[0]) <= 'D'
    ensures r.Some? ==> |s| > 0 && (r.value[0] == s[|s| - 1] || (|s| > 1 && s[|s| - 1] == '.' && r.value[0] == s[|s| - 2]))
  {
    if |s| == 1 && 'A' <= s[0] <= 'D' then Some(s)
    else if LetterAfter(s, AnswerIsLead) then Some([s[|AnswerIsLead|]])
    else if LetterAfter(s, OptionLead) then Some([s[|OptionLead|]])
    else None
  }

  /** Helper: a lead written in any case, then the letter, then an optional period. */
  lemma LetterAfterReply(p: string, lead: string, l: char, dot: string)
    requires SameUpToCase(p, lead)
    requires 'A' <= Upper(l) <= 'D'
    requires dot == "" || dot == "."
    ensures LetterAfter(p + [l] + dot, lead)
    ensures (p + [l] + dot)[|lead|] == l
  {
    var s := p + [l] + dot;
    forall k | 0 <= k < |lead| ensures ClassHas(Caseless(lead)[k], s[k]) {
      assert s[k] == p[k];
    }
  }

  /** Every reply form the extractor accepts gives back the letter it was written with. */
  lemma AnswerLetterOfReply(p: string, l: char, dot: string)
    requires SameUpToCase(p, AnswerIsLead) || SameUpToCase(p, OptionLead)
    requires 'A' <= Upper(l) <= 'D'
    requires dot == "" || dot == "."
    ensures AnswerLetter(p + [l] + dot) == Some([l])
  {
    var s := p + [l] + dot;
    if SameUpToCase(p, AnswerIsLead) {
      LetterAfterReply(p, AnswerIsLead, l, dot);
    } else {
      LetterAfterReply(p, OptionLead, l, dot);
    }
  }

  /** The bare letter form: exactly one upper-case letter A to D. */
  lemma AnswerLetterOfBareLetter(l: char)
    requires 'A' <= l <= 'D'
    ensures AnswerLetter([l]) == Some([l])
  {
  }

  /** A reply with more text after the letter is not an answer letter. */
  lemma AnswerLetterRejectsTrailingText(p: string, l: char, rest: string)
    requires SameUpToCase(p, AnswerIsLead) || SameUpToCase(p, OptionLead)
    requires |rest| > 0 && rest != "."
    requires rest[|rest| - 1] != '.' && !('A' <= Upper(rest[|rest| - 1]) <= 'D')
    ensures AnswerLetter(p + [l] + rest) == None
  {
  }

  // ---------------------------------------------------------------------
  // The fenced code section of a reply
  // ---------------------------------------------------------------------

  /** `match ? match[1].trim() : ''` for `/```(?:\w+)?\s*([\s\S]*?)```/` */
  function CodeSection(s: string): string {
    match FirstFenceBody(WordRun, s, 0)
    case Some(b) => Trim(b)
    case None => ""
  }

  // ---------------------------------------------------------------------
  // Post-processing of a Gemini reply (openai.js:432-464)
  // ---------------------------------------------------------------------

  /** What a solver returns: the full text and the part shown as code. */
  datatype Answer = Answer(fullSolution: string, code: string)

  /**
   * A multiple-choice question answered by a bare letter is reduced to that
   * letter; otherwise the full reply is kept and the code is the trimmed
   * first fenced block when the statement had a programming cue (whatever
   * its category), or the full reply when there is no such block or it is
   * blank.
   */
  function GeminiAnswer(c: Cues, reply: string): (a: Answer)
    ensures c.mcq && AnswerLetter(reply).Some? ==> a == Answer(AnswerLetter(reply).value, AnswerLetter(reply).value)
    ensures !(c.mcq && AnswerLetter(reply).Some?) ==> a.fullSolution == reply
    ensures !c.programming && !(c.mcq && AnswerLetter(reply).Some?) ==> a.code == reply
    ensures reply != "" ==> a.code != ""
  {
    var letter := if c.mcq then AnswerLetter(reply) else None;
    if letter.Some? then Answer(letter.value, letter.value)
    else
      var section := if c.programming then CodeSection(reply) else "";
      Answer(reply, if section == "" then reply else section)
  }

  /** A programming answer with a fenced block shows the block, trimmed, as its code. */
  lemma GeminiAnswerShowsFencedBlock(c: Cues, pre: string, tag: string, ws: string, body: string, post: string)
    requires c.programming && !c.mcq
    requires '`' !in pre && '`' !in body
    requires AllWordChars(tag) && AllSpace(ws)
    requires body == [] || !IsSpace(body[0])
    requires ws == [] && body != [] ==> !IsWordChar(body[0])
    requires Trim(body) != ""
    ensures GeminiAnswer(c, pre + Fence + tag + ws + body + Fence + post).code == Trim(body)
  {
    WordRunRoundTrip(pre, tag, ws, body, post);
  }

  /** A reply "```python\nprint(1)\n```" to a programming question shows `print(1)` as its code. */
  lemma GeminiAnswerPythonBlock()
    ensures GeminiAnswer(Cues(false, false, true), "```python\nprint(1)\n```").code == "print(1)"
  {
    var body := "print(1)\n";
    assert "" + Fence + "python" + "\n" + body + Fence + "" == "```python\nprint(1)\n```";
    assert Trim(body) == "print(1)" by {
      assert TrimEnd(body) == "print(1)";
      TrimOfNoEdgeSpace("print(1)");
    }
    GeminiAnswerShowsFencedBlock(Cues(false, false, true), "", "python", "\n", body, "");
  }
}
