/**
 * Fenced code blocks: the regular expressions
 * `/```(?:\w+)?\s*([\s\S]*?)```/` (src/utils/openai.js) and
 * `/```(?:java|python|javascript)?\s*([\s\S]*?)```/` (src/App.jsx), which
 * differ only in how they skip the language tag after the opening fence.
 */
module Fences {
  import opened Wrappers
  import opened Text

  const Fence := "```"

  /**
   * How the optional tag after the opening fence is matched: a greedy run of
   * word characters, or the first of a list of alternatives that is present
   * (a regular expression tries alternatives in the order written).
   */
  datatype TagRule = WordRun | FirstOf(tags: seq<string>)

  /** The first of `tags` that occurs at `j`, or the empty string. */
  function FirstTag(tags: seq<string>, s: string, j: nat): (t: string)
    ensures t == "" || (t in tags && SubAt(s, j, t))
  {
    if |tags| == 0 then ""
    else if SubAt(s, j, tags[0]) then tags[0]
    else FirstTag(tags[1..], s, j)
  }

  /** Where the tag that starts at `j` ends. */
  function TagEnd(rule: TagRule, s: string, j: nat): (w: nat)
    requires j <= |s|
    ensures j <= w <= |s|
  {
    match rule
    case WordRun => SpanWhile(IsWordChar, s, j)
    case FirstOf(tags) => j + |FirstTag(tags, s, j)|
  }

  /**
   * The pattern tried at index `i`: the group is what lies between the
   * opening fence, its tag and the whitespace after it, and the first
   * closing fence. Taking the tag and the whitespace greedily loses
   * nothing. Any other choice starts the group earlier, inside the tag or
   * the whitespace. That text holds no backquote, so it cannot reach a
   * closing fence the greedy choice misses.
   */
  function FenceBodyAt(rule: TagRule, s: string, i: nat): (r: Option<string>)
    requires i <= |s|
    ensures r.Some? ==> !Contains(r.value, Fence)
  {
    if !SubAt(s, i, Fence) then None
    else
      var w := TagEnd(rule, s, i + 3);
      var b := SpanWhile(IsSpace, s, w);
      match FindFrom(s, Fence, b)
      case Some(q) => NoOccurrenceInSlice(s, b, q, Fence); Some(s[b..q])
      case None => None
  }

  /** The group of the leftmost match, scanning from `i` (`s.match(re)[1]`). */
  function FirstFenceBody(rule: TagRule, s: string, i: nat): (r: Option<string>)
    requires i <= |s|
    ensures r.Some? ==> !Contains(r.value, Fence)
    decreases |s| - i
  {
    match FenceBodyAt(rule, s, i)
    case Some(b) => Some(b)
    case None => if i == |s| then None else FirstFenceBody(rule, s, i + 1)
  }

  lemma NoOccurrenceInSlice(s: string, b: nat, q: nat, t: string)
    requires b <= q <= |s| && |t| > 0
    requires forall m :: b <= m < q ==> !SubAt(s, m, t)
    ensures !Contains(s[b..q], t)
  {
    var u := s[b..q];
    forall i | 0 <= i <= |u| - |t| ensures !SubAt(u, i, t) {
      var x, y := u[i..i + |t|], s[b + i..b + i + |t|];
      forall k | 0 <= k < |t| ensures x[k] == y[k] {
        assert u[i + k] == s[b + i + k];
      }
      assert x == y;
      assert !SubAt(s, b + i, t);
    }
  }

  lemma NoFenceWithoutBackquote(s: string, i: nat, j: nat)
    requires i <= j <= |s|
    requires forall k :: i <= k < j ==> s[k] != '`'
    ensures forall k :: i <= k < j ==> !SubAt(s, k, Fence)
  {
    forall k | i <= k < j ensures !SubAt(s, k, Fence) {
      if k + 3 <= |s| {
        assert s[k..k + 3][0] == s[k];
      }
    }
  }

  lemma {:induction false} FirstFenceBodySkip(rule: TagRule, s: string, i: nat, j: nat)
    requires i <= j <= |s|
    requires forall k :: i <= k < j ==> FenceBodyAt(rule, s, k).None?
    ensures FirstFenceBody(rule, s, i) == FirstFenceBody(rule, s, j)
    decreases j - i
  {
    if i < j {
      FirstFenceBodySkip(rule, s, i + 1, j);
    }
  }

  /** The leftmost match in a text whose parts are known. */
  lemma FirstFenceOfLayout(rule: TagRule, s: string, i: nat, w: nat, b: nat, q: nat, body: string)
    requires i + 3 <= w <= b <= q && q + 3 <= |s|
    requires SubAt(s, i, Fence) && SubAt(s, q, Fence)
    requires forall k :: 0 <= k < i ==> s[k] != '`'
    requires forall k :: b <= k < q ==> s[k] != '`'
    requires TagEnd(rule, s, i + 3) == w
    requires forall k :: w <= k < b ==> IsSpace(s[k])
    requires !IsSpace(s[b])
    requires s[b..q] == body
    ensures FirstFenceBody(rule, s, 0) == Some(body)
  {
    NoFenceWithoutBackquote(s, b, q);
    SpanWhileExact(IsSpace, s, w, b);
    FindFromExact(s, Fence, b, q);
    assert FenceBodyAt(rule, s, i) == Some(s[b..q]);
    NoFenceWithoutBackquote(s, 0, i);
    forall k | 0 <= k < i ensures FenceBodyAt(rule, s, k).None? {
      assert !SubAt(s, k, Fence);
    }
    FirstFenceBodySkip(rule, s, 0, i);
  }

  /** The opening part of a one-block text: the text before, the fence, the tag. */
  lemma HeadFacts(pre: string, tag: string, s: string, rest: string)
    requires '`' !in pre
    requires s == (pre + Fence + tag) + rest
    ensures SubAt(s, |pre|, Fence) && s[|pre| + 3..|pre| + 3 + |tag|] == tag
    ensures forall k :: 0 <= k < |pre| ==> s[k] != '`'
    ensures s[|pre| + 3 + |tag|..] == rest
  {
    var head := pre + Fence + tag;
    assert s[..|head|] == head;
    assert s[|pre|..|pre| + 3] == head[|pre|..|pre| + 3];
    assert s[|pre| + 3..|head|] == head[|pre| + 3..];
    forall k | 0 <= k < |pre| ensures s[k] != '`' {
      assert s[k] == pre[k];
    }
  }

  /** The closing part of a one-block text: the whitespace, the body, the fence. */
  lemma RestFacts(ws: string, body: string, post: string, head: string, s: string)
    requires '`' !in body
    requires AllSpace(ws)
    requires body == [] || !IsSpace(body[0])
    requires s == head + (ws + body + Fence + post)
    ensures var b := |head| + |ws|;
      var q := b + |body|;
      q + 3 <= |s| && SubAt(s, q, Fence)
      && (forall k :: b <= k < q ==> s[k] != '`')
      && (forall k :: |head| <= k < b ==> IsSpace(s[k]))
      && !IsSpace(s[b]) && s[b..q] == body
  {
    var w := |head|;
    var b := w + |ws|;
    var q := b + |body|;
    assert s[b..q] == body;
    assert s[q..q + 3] == Fence;
    forall k | b <= k < q ensures s[k] != '`' {
      assert s[k] == body[k - b];
    }
    forall k | w <= k < b ensures IsSpace(s[k]) {
      assert s[k] == ws[k - w];
    }
    if body != [] {
      assert s[b] == body[0];
    } else {
      assert s[b] == Fence[0];
    }
  }

  /** A text made of an opening part and a closing part yields the closing part's body. */
  lemma OneBlock(rule: TagRule, s: string, head: string, rest: string,
                 pre: string, tag: string, ws: string, body: string, post: string)
    requires s == head + rest && head == pre + Fence + tag && rest == ws + body + Fence + post
    requires '`' !in pre && '`' !in body
    requires AllSpace(ws)
    requires body == [] || !IsSpace(body[0])
    requires TagEnd(rule, s, |pre| + 3) == |head|
    ensures FirstFenceBody(rule, s, 0) == Some(body)
  {
    var b := |head| + |ws|;
    HeadFacts(pre, tag, s, rest);
    RestFacts(ws, body, post, head, s);
    FirstFenceOfLayout(rule, s, |pre|, |head|, b, b + |body|, body);
  }

  /**
   * With a word-run tag: a text holding one fenced block yields the block's
   * body, whatever the tag, the text before it (without backquotes) and the
   * text after it.
   */
  lemma WordRunRoundTrip(pre: string, tag: string, ws: string, body: string, post: string)
    requires '`' !in pre && '`' !in body
    requires AllWordChars(tag) && AllSpace(ws)
    requires body == [] || !IsSpace(body[0])
    requires ws == [] && body != [] ==> !IsWordChar(body[0])
    ensures FirstFenceBody(WordRun, pre + Fence + tag + ws + body + Fence + post, 0) == Some(body)
  {
    var s := pre + Fence + tag + ws + body + Fence + post;
    var head, rest := pre + Fence + tag, ws + body + Fence + post;
    assert s == head + rest;
    var i, w := |pre|, |head|;
    assert TagEnd(WordRun, s, i + 3) == w by {
      HeadFacts(pre, tag, s, rest);
      forall k | i + 3 <= k < w ensures IsWordChar(s[k]) {
        assert s[k] == tag[k - (i + 3)];
      }
      assert s[w] == rest[0];
      if ws != [] {
        assert rest[0] == ws[0];
      } else if body != [] {
        assert rest[0] == body[0];
      } else {
        assert rest[0] == '`';
      }
      SpanWhileExact(IsWordChar, s, i + 3, w);
    }
    OneBlock(WordRun, s, head, rest, pre, tag, ws, body, post);
  }

  /**
   * With a list of alternative tags: when the text after the fence starts
   * with `tag` followed by whitespace and `tag` is the first alternative
   * present there, the block's body comes out.
   */
  lemma FirstOfRoundTrip(tags: seq<string>, pre: string, tag: string, ws: string, body: string, post: string)
    requires '`' !in pre && '`' !in body
    requires AllSpace(ws)
    requires body == [] || !IsSpace(body[0])
    requires FirstTag(tags, pre + Fence + tag + ws + body + Fence + post, |pre| + 3) == tag
    ensures FirstFenceBody(FirstOf(tags), pre + Fence + tag + ws + body + Fence + post, 0) == Some(body)
  {
    var s := pre + Fence + tag + ws + body + Fence + post;
    var head, rest := pre + Fence + tag, ws + body + Fence + post;
    assert s == head + rest;
    OneBlock(FirstOf(tags), s, head, rest, pre, tag, ws, body, post);
  }
}
