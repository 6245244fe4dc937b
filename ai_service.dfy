/**
 * The AI service of src/utils/openai.js: which provider answers, the
 * rotation through the Gemini keys when a request fails, and the four
 * operations (read a problem from screenshots, solve it, optimise a
 * solution, read code from a screenshot).
 *
 * The network is a parameter: `gemini(key, request)` is what the Gemini
 * model answers when called with that key, `openai(request)` what the
 * OpenAI model answers; either may fail with an error message. File
 * existence is the parameter `fileExists`.
 */
module AIService {
  import opened Wrappers
  import opened ProblemText

  // ---------------------------------------------------------------------
  // Requests and results
  // ---------------------------------------------------------------------

  datatype Provider = OpenAI | Gemini

  /** What a call asks the model for; the prompt texts themselves are not modelled. */
  datatype Request =
    | ReadProblem(paths: seq<string>)
    | Solve(category: Category, problem: string)
    | Optimize(problem: string, code: string)
    | ReadCode(path: string)

  /** The object `generateSolution` resolves to. */
  datatype Solution =
    | Solved(fullSolution: string, code: string, viaGemini: bool)
    | Failed(message: string)

  /** The object `optimizeSolution` resolves to. */
  datatype Analysis = Analyzed(fullAnalysis: string) | AnalysisFailed(message: string)

  /** What the screenshot-reading callback hands back to the fallback loop. */
  datatype ReadOutcome = ProblemText(text: string) | Placeholder(message: string)

  const NoServiceForProblem := "Error: No AI service available. Please set your OpenAI or Gemini API key."
  const NoScreenshots := "No screenshots provided. Please capture the problem using Cmd/Ctrl+H"
  const MissingScreenshot := "Please capture a screenshot of the coding problem first."
  const NoValidScreenshots := "No valid screenshots found. Please capture the problem again."
  const ScreenshotsFailed := "Error analyzing screenshots. All Gemini API keys failed, and OpenAI fallback is not available. Please check your API keys."
  const NoServiceForSolution := "No AI service available. Please set your API key."
  const NoProblem := "No problem statement provided"
  const SolutionErrorPrefix := "Error generating solution: "
  /** The message of the ReferenceError the OpenAI branch throws when calling an undefined helper. */
  const MissingHelper := "extractCodeFromSolution is not defined"
  const NoServiceForOptimize := "Error: No AI service available. Please set your API key."
  const NoProblemToOptimize := "Error: No problem statement provided"
  const NoCodeToOptimize := "Error: No code provided to optimize"
  const OptimizeErrorPrefix := "Error optimizing solution: "
  const NoServiceForCode := "Error: No AI service available. Please set your API key."
  const NoScreenshot := "No screenshot provided"
  const CodeScreenshotMissing := "Screenshot file not found. Please capture your code first."
  const CodeErrorPrefix := "Error extracting code: "

  function ProviderName(p: Provider): (name: string)
    ensures name == "openai" || name == "gemini"
    ensures p == OpenAI <==> name == "openai"
  {
    match p
    case OpenAI => "openai"
    case Gemini => "gemini"
  }

  // ---------------------------------------------------------------------
  // The key cursor
  // ---------------------------------------------------------------------

  /** The cursor after `k` calls of `getNextGeminiApiKey` from `i`, one step at a time. */
  function Advance(i: nat, k: nat, n: nat): nat
    requires n > 0
  {
    if k == 0 then i else (Advance(i, k - 1, n) + 1) % n
  }

  /**
   * The index of the key tried at attempt `j` (counting from 0) of a run
   * that starts at `start`: `start + j` wrapped round once.
   */
  function TriedIndex(start: nat, j: nat, n: nat): nat {
    if start + j < n then start + j else start + j - n
  }

  lemma ModWithinTwo(x: nat, n: nat)
    requires 0 < n && x < 2 * n
    ensures x % n == if x < n then x else x - n
  {
    if x < n {
      assert x / n == 0;
    } else {
      assert x / n == 1;
    }
  }

  /** Attempt `j` uses the key at `(start + j) % n`. */
  lemma TriedIndexIsModular(start: nat, j: nat, n: nat)
    requires start < n && j < n
    ensures TriedIndex(start, j, n) == (start + j) % n
  {
    ModWithinTwo(start + j, n);
  }

  /**
   * Stepping the cursor `k` times from `i` lands on the `k`-th key after
   * it, and after as many steps as there are keys the cursor is back at `i`.
   */
  lemma {:induction false} AdvanceVisitsEachKey(i: nat, k: nat, n: nat)
    requires i < n && k <= n
    ensures Advance(i, k, n) == TriedIndex(i, k % n, n)
    ensures k == n ==> Advance(i, k, n) == i
  {
    if k > 0 {
      AdvanceVisitsEachKey(i, k - 1, n);
      ModWithinTwo(k - 1, n);
      ModWithinTwo(k, n);
      ModWithinTwo(TriedIndex(i, k - 1, n) + 1, n);
    } else {
      ModWithinTwo(0, n);
    }
  }

  /** Fewer steps than keys never bring the cursor back to its start, so the loop's early `break` never fires. */
  lemma CursorDoesNotReturnEarly(i: nat, d: nat, n: nat)
    requires i < n && 0 < d < n
    ensures TriedIndex(i, d, n) != i
  {
  }

  /** The key indices tried in one run are pairwise different. */
  lemma AttemptedKeysDistinct(start: nat, j1: nat, j2: nat, n: nat)
    requires start < n && j1 < j2 < n
    ensures TriedIndex(start, j1, n) != TriedIndex(start, j2, n)
  {
  }

  // ---------------------------------------------------------------------
  // The fallback loop as a function
  // ---------------------------------------------------------------------

  /** How a run of the fallback loop ends and where it leaves the cursor. */
  datatype Outcome<T> = Outcome(result: Attempt<T>, attempts: nat, cursor: nat)

  /**
   * The rest of a run from attempt `j`: each attempt calls with the next key
   * in turn; the run stops at the first success, or fails with the error of
   * the last key once every key has been tried.
   */
  function FallbackFrom<T>(keys: seq<string>, call: string -> Attempt<T>, start: nat, j: nat): (o: Outcome<T>)
    requires 0 < |keys| && start < |keys| && j < |keys|
    ensures o.cursor < |keys|
    decreases |keys| - j
  {
    var idx := TriedIndex(start, j, |keys|);
    match call(keys[idx])
    case Ok(v) => Outcome(Ok(v), j + 1, idx)
    case Fail(m) => if j + 1 == |keys| then Outcome(Fail(m), j + 1, idx) else FallbackFrom(keys, call, start, j + 1)
  }

  /** A run makes between one and as many attempts as there are keys and leaves the cursor on the last key tried. */
  lemma {:induction false} FallbackBounds<T>(keys: seq<string>, call: string -> Attempt<T>, start: nat, j: nat)
    requires 0 < |keys| && start < |keys| && j < |keys|
    ensures var o := FallbackFrom(keys, call, start, j);
      j < o.attempts <= |keys| && o.cursor == TriedIndex(start, o.attempts - 1, |keys|) && o.cursor < |keys|
    decreases |keys| - j
  {
    var idx := TriedIndex(start, j, |keys|);
    if call(keys[idx]).Fail? && j + 1 < |keys| {
      FallbackBounds(keys, call, start, j + 1);
    }
  }

  /** The run succeeds with the first key that works, after exactly that many attempts. */
  lemma {:induction false} FallbackFirstSuccess<T>(keys: seq<string>, call: string -> Attempt<T>, start: nat, j: nat, k: nat)
    requires 0 < |keys| && start < |keys| && j <= k < |keys|
    requires forall m :: j <= m < k ==> call(keys[TriedIndex(start, m, |keys|)]).Fail?
    requires call(keys[TriedIndex(start, k, |keys|)]).Ok?
    ensures FallbackFrom(keys, call, start, j) == Outcome(call(keys[TriedIndex(start, k, |keys|)]), k + 1, TriedIndex(start, k, |keys|))
    decreases k - j
  {
    if j < k {
      assert call(keys[TriedIndex(start, j, |keys|)]).Fail?;
      FallbackFirstSuccess(keys, call, start, j + 1, k);
    }
  }

  /** When every key fails, every key is tried once and the error of the last one is thrown. */
  lemma {:induction false} FallbackAllFail<T>(keys: seq<string>, call: string -> Attempt<T>, start: nat, j: nat)
    requires 0 < |keys| && start < |keys| && j < |keys|
    requires forall m :: j <= m < |keys| ==> call(keys[TriedIndex(start, m, |keys|)]).Fail?
    ensures var last := TriedIndex(start, |keys| - 1, |keys|);
      FallbackFrom(keys, call, start, j) == Outcome(Fail(call(keys[last]).message), |keys|, last)
    decreases |keys| - j
  {
    assert call(keys[TriedIndex(start, j, |keys|)]).Fail?;
    if j + 1 < |keys| {
      FallbackAllFail(keys, call, start, j + 1);
    }
  }

  /**
   * The run ends with what the key under the final cursor answered: that
   * answer on success, and its error, after every key was tried, on failure.
   */
  lemma {:induction false} FallbackEndsWithCursorCall<T>(keys: seq<string>, call: string -> Attempt<T>, start: nat, j: nat)
    requires 0 < |keys| && start < |keys| && j < |keys|
    ensures var o := FallbackFrom(keys, call, start, j);
      && (o.result.Ok? ==> o.result == call(keys[o.cursor]))
      && (o.result.Fail? ==> o.attempts == |keys| && call(keys[o.cursor]).Fail? && o.result.message == call(keys[o.cursor]).message)
    decreases |keys| - j
  {
    var idx := TriedIndex(start, j, |keys|);
    if call(keys[idx]).Fail? && j + 1 < |keys| {
      FallbackEndsWithCursorCall(keys, call, start, j + 1);
    }
  }

  /** A successful run returns what its last key answered, and every key tried before it failed. */
  lemma {:induction false} FallbackSuccessIsFirstWorkingKey<T>(keys: seq<string>, call: string -> Attempt<T>, start: nat, j: nat)
    requires 0 < |keys| && start < |keys| && j < |keys|
    ensures var o := FallbackFrom(keys, call, start, j);
      o.result.Ok? ==>
        j < o.attempts <= |keys| && o.result == call(keys[TriedIndex(start, o.attempts - 1, |keys|)])
        && forall m :: j <= m < o.attempts - 1 ==> call(keys[TriedIndex(start, m, |keys|)]).Fail?
    decreases |keys| - j
  {
    var idx := TriedIndex(start, j, |keys|);
    if call(keys[idx]).Fail? && j + 1 < |keys| {
      FallbackSuccessIsFirstWorkingKey(keys, call, start, j + 1);
    }
  }

  // ---------------------------------------------------------------------
  // The requests each operation hands to the fallback loop
  // ---------------------------------------------------------------------

  /**
   * The callback of `extractProblemFromScreenshots`: it stops with a
   * placeholder at the first screenshot that does not exist, and otherwise
   * asks the model to read all of them.
   */
  function ReadProblemCall(gemini: (string, Request) -> Attempt<string>, fileExists: string -> bool, paths: seq<string>, key: string): (r: Attempt<ReadOutcome>)
    ensures (exists i :: 0 <= i < |paths| && !fileExists(paths[i])) ==> r == Ok(Placeholder(MissingScreenshot))
    ensures r.Ok? && r.value.ProblemText? ==> gemini(key, ReadProblem(paths)) == Ok(r.value.text)
  {
    if exists i :: 0 <= i < |paths| && !fileExists(paths[i]) then Ok(Placeholder(MissingScreenshot))
    else if |paths| == 0 then Ok(Placeholder(NoValidScreenshots))
    else
      match gemini(key, ReadProblem(paths))
      case Ok(text) => Ok(ProblemText(text))
      case Fail(m) => Fail(m)
  }

  /** Once at least one screenshot is given, the "no valid screenshots" placeholder cannot come out. */
  lemma NoValidScreenshotsIsUnreachable(gemini: (string, Request) -> Attempt<string>, fileExists: string -> bool, paths: seq<string>, key: string)
    requires |paths| > 0
    ensures ReadProblemCall(gemini, fileExists, paths, key) != Ok(Placeholder(NoValidScreenshots))
  {
  }

  /** The callback of `generateSolution` through Gemini: ask, then post-process the reply. */
  function SolveCall(gemini: (string, Request) -> Attempt<string>, cues: Cues, problem: string, key: string): (r: Attempt<Answer>)
    ensures r.Fail? <==> gemini(key, Solve(Classify(cues), problem)).Fail?
    ensures r.Fail? ==> r.message == gemini(key, Solve(Classify(cues), problem)).message
    ensures r.Ok? ==> r.value == GeminiAnswer(cues, gemini(key, Solve(Classify(cues), problem)).value)
  {
    match gemini(key, Solve(Classify(cues), problem))
    case Ok(reply) => Ok(GeminiAnswer(cues, reply))
    case Fail(m) => Fail(m)
  }

  /** The callback of `extractCodeFromScreenshot`. */
  function ReadCodeCall(gemini: (string, Request) -> Attempt<string>, fileExists: string -> bool, path: string, key: string): (r: Attempt<string>)
    ensures !fileExists(path) ==> r == Ok(CodeScreenshotMissing)
    ensures fileExists(path) ==> r == gemini(key, ReadCode(path))
  {
    if fileExists(path) then gemini(key, ReadCode(path)) else Ok(CodeScreenshotMissing)
  }

  /** The callbacks as the values handed to the fallback loop. */
  function ReadProblemStep(gemini: (string, Request) -> Attempt<string>, fileExists: string -> bool, paths: seq<string>): string -> Attempt<ReadOutcome> {
    (key: string) => ReadProblemCall(gemini, fileExists, paths, key)
  }

  function SolveStep(gemini: (string, Request) -> Attempt<string>, cues: Cues, problem: string): string -> Attempt<Answer> {
    (key: string) => SolveCall(gemini, cues, problem, key)
  }

  function OptimizeStep(gemini: (string, Request) -> Attempt<string>, problem: string, code: string): string -> Attempt<string> {
    (key: string) => gemini(key, Optimize(problem, code))
  }

  function ReadCodeStep(gemini: (string, Request) -> Attempt<string>, fileExists: string -> bool, path: string): string -> Attempt<string> {
    (key: string) => ReadCodeCall(gemini, fileExists, path, key)
  }

  /** A missing screenshot ends the run at its first attempt: no request is sent and the cursor stays. */
  lemma MissingScreenshotKeepsKey(gemini: (string, Request) -> Attempt<string>, fileExists: string -> bool, keys: seq<string>, start: nat, paths: seq<string>, path: string)
    requires 0 < |keys| && start < |keys|
    ensures !fileExists(path) ==>
      FallbackFrom(keys, ReadCodeStep(gemini, fileExists, path), start, 0) == Outcome(Ok(CodeScreenshotMissing), 1, start)
    ensures (exists i :: 0 <= i < |paths| && !fileExists(paths[i])) ==>
      FallbackFrom(keys, ReadProblemStep(gemini, fileExists, paths), start, 0) == Outcome(Ok(Placeholder(MissingScreenshot)), 1, start)
  {
  }

  /** What the OpenAI branch of `generateSolution` makes of a reply. */
  function OpenAISolution(cues: Cues, reply: Attempt<string>): (s: Solution)
    ensures s.Solved? ==> cues.mcq && reply.Ok? && AnswerLetter(reply.value) == Some(s.fullSolution) && s.code == s.fullSolution && !s.viaGemini
    ensures reply.Fail? ==> s == Failed(SolutionErrorPrefix + reply.message)
  {
    match reply
    case Fail(m) => Failed(SolutionErrorPrefix + m)
    case Ok(text) =>
      var letter := if cues.mcq then AnswerLetter(text) else None;
      if letter.Some? then Solved(letter.value, letter.value, false)
      else Failed(SolutionErrorPrefix + MissingHelper)
  }

  /** What a Gemini run of `generateSolution` resolves to. */
  function GeminiSolution(result: Attempt<Answer>): (s: Solution)
    ensures result.Ok? <==> s.Solved?
    ensures s.Solved? ==> s.viaGemini && s.fullSolution == result.value.fullSolution && s.code == result.value.code
    ensures result.Fail? ==> s.message == SolutionErrorPrefix + result.message
  {
    match result
    case Ok(a) => Solved(a.fullSolution, a.code, true)
    case Fail(m) => Failed(SolutionErrorPrefix + m)
  }

  /**
   * A Gemini run of `generateSolution` shows what the last key tried
   * answered: a bare MCQ letter as both text and code, never empty code
   * for a non-empty reply, and the reply's error, prefixed, once every key
   * has failed.
   */
  lemma GeminiRunSolution(gemini: (string, Request) -> Attempt<string>, cues: Cues, problem: string, keys: seq<string>, start: nat)
    requires 0 < |keys| && start < |keys|
    ensures var o := FallbackFrom(keys, SolveStep(gemini, cues, problem), start, 0);
      var reply := gemini(keys[o.cursor], Solve(Classify(cues), problem));
      var s := GeminiSolution(o.result);
      && (s.Solved? <==> reply.Ok?)
      && (s.Solved? ==> s.viaGemini && Answer(s.fullSolution, s.code) == GeminiAnswer(cues, reply.value))
      && (s.Solved? && reply.value != "" ==> s.code != "")
      && (s.Solved? && cues.mcq && AnswerLetter(reply.value).Some? ==>
            s.fullSolution == s.code == AnswerLetter(reply.value).value)
      && (s.Failed? ==> o.attempts == |keys| && s.message == SolutionErrorPrefix + reply.message)
  {
    var call := SolveStep(gemini, cues, problem);
    FallbackEndsWithCursorCall(keys, call, start, 0);
    var o := FallbackFrom(keys, call, start, 0);
    assert call(keys[o.cursor]) == SolveCall(gemini, cues, problem, keys[o.cursor]);
  }

  /**
   * A Gemini run of `extractCodeFromScreenshot`: a missing screenshot gives
   * the placeholder without any request; otherwise a success is the code
   * the last key tried read, and a failure is that key's error after every
   * key was tried.
   */
  lemma ReadCodeRun(gemini: (string, Request) -> Attempt<string>, fileExists: string -> bool, path: string, keys: seq<string>, start: nat)
    requires 0 < |keys| && start < |keys|
    ensures var o := FallbackFrom(keys, ReadCodeStep(gemini, fileExists, path), start, 0);
      && (!fileExists(path) ==> o.result == Ok(CodeScreenshotMissing) && o.cursor == start)
      && (fileExists(path) && o.result.Ok? ==> o.result == gemini(keys[o.cursor], ReadCode(path)))
      && (fileExists(path) && o.result.Fail? ==>
            o.attempts == |keys| && gemini(keys[o.cursor], ReadCode(path)).Fail?
            && o.result.message == gemini(keys[o.cursor], ReadCode(path)).message)
  {
    var call := ReadCodeStep(gemini, fileExists, path);
    FallbackEndsWithCursorCall(keys, call, start, 0);
    var o := FallbackFrom(keys, call, start, 0);
    assert call(keys[o.cursor]) == ReadCodeCall(gemini, fileExists, path, keys[o.cursor]);
    if !fileExists(path) {
      assert call(keys[TriedIndex(start, 0, |keys|)]).Ok?;
    }
  }

  // ---------------------------------------------------------------------
  // The service
  // ---------------------------------------------------------------------

  /**
   * The module state of openai.js: the ring of Gemini keys and its cursor,
   * the active provider and the two clients. A client is `Some(key)` once
   * constructed; the OpenAI client's key may be empty.
   */
  class Service {
    const keys: seq<string>
    var currentKeyIndex: nat
    var currentProvider: Provider
    var openai: Option<string>
    var gemini: Option<string>

    predicate Valid()
      reads this
    {
      0 < |keys| && currentKeyIndex < |keys|
    }

    /** `openai && openai.apiKey` */
    predicate OpenAIReady()
      reads this
    {
      openai.Some? && openai.value != ""
    }

    /** The state at module load: no clients, provider 'openai', cursor at the first key. */
    constructor (keys: seq<string>)
      requires |keys| > 0
      ensures Valid() && this.keys == keys
      ensures currentKeyIndex == 0 && currentProvider == OpenAI && openai == None && gemini == None
    {
      this.keys := keys;
      currentKeyIndex := 0;
      currentProvider := OpenAI;
      openai := None;
      gemini := None;
    }

    /** Cursor, provider and Gemini client are as given (the OpenAI client is covered separately). */
    predicate Unchanged(cursor: nat, provider: Provider, geminiClient: Option<string>)
      reads this
    {
      currentKeyIndex == cursor && currentProvider == provider && gemini == geminiClient
    }

    /** `getCurrentGeminiApiKey` */
    function CurrentGeminiApiKey(): (key: string)
      reads this
      requires Valid()
      ensures key == keys[currentKeyIndex]
    {
      keys[currentKeyIndex]
    }

    /** `getNextGeminiApiKey`: move the cursor one key on, wrapping round, and return that key. */
    method GetNextGeminiApiKey() returns (key: string)
      requires Valid()
      modifies this
      ensures Valid()
      ensures currentKeyIndex == (old(currentKeyIndex) + 1) % |keys| && key == keys[currentKeyIndex]
      ensures currentProvider == old(currentProvider) && openai == old(openai) && gemini == old(gemini)
    {
      currentKeyIndex := (currentKeyIndex + 1) % |keys|;
      key := keys[currentKeyIndex];
    }

    /** `initAI`: an OpenAI client with the environment's key (or none), a Gemini client with the current key, Gemini active. */
    method InitAI(envKey: Option<string>)
      requires Valid()
      modifies this
      ensures Valid() && currentKeyIndex == old(currentKeyIndex)
      ensures openai == Some(if envKey.Some? then envKey.value else "")
      ensures gemini == Some(keys[currentKeyIndex]) && currentProvider == Gemini
    {
      openai := Some(if envKey.Some? then envKey.value else "");
      gemini := Some(CurrentGeminiApiKey());
      currentProvider := Gemini;
    }

    /**
     * `setApiKey`: for 'openai' the OpenAI client gets the key (created or
     * updated) and the provider stays; for 'gemini' the given key is ignored,
     * the Gemini client is rebuilt with the current key of the ring and
     * Gemini becomes active; any other name changes nothing. A missing
     * provider (`None`, JavaScript's `undefined`) defaults to 'gemini'.
     */
    method SetApiKey(apiKey: string, provider: Option<string>)
      requires Valid()
      modifies this
      ensures Valid() && currentKeyIndex == old(currentKeyIndex)
      ensures provider == Some("openai") ==> openai == Some(apiKey) && gemini == old(gemini) && currentProvider == old(currentProvider)
      ensures provider == Some("gemini") || provider == None ==>
        openai == old(openai) && gemini == Some(keys[currentKeyIndex]) && currentProvider == Gemini
      ensures provider.Some? && provider.value != "openai" && provider.value != "gemini" ==>
        openai == old(openai) && gemini == old(gemini) && currentProvider == old(currentProvider)
    {
      var name := if provider.Some? then provider.value else "gemini";
      if name == "openai" {
        openai := Some(apiKey);
      } else if name == "gemini" {
        gemini := Some(CurrentGeminiApiKey());
        currentProvider := Gemini;
      }
    }

    /** `isAIAvailable`: OpenAI when its client has a key, else Gemini when its client exists. */
    method IsAIAvailable() returns (available: bool)
      requires Valid()
      modifies this
      ensures Valid() && currentKeyIndex == old(currentKeyIndex) && openai == old(openai) && gemini == old(gemini)
      ensures available <==> OpenAIReady() || gemini.Some?
      ensures currentProvider == (if OpenAIReady() then OpenAI else if gemini.Some? then Gemini else old(currentProvider))
    {
      if OpenAIReady() {
        currentProvider := OpenAI;
        return true;
      } else if gemini.Some? {
        currentProvider := Gemini;
        return true;
      }
      return false;
    }

    /** `getCurrentProvider` */
    function CurrentProvider(): (name: string)
      reads this
      ensures name == ProviderName(currentProvider)
    {
      ProviderName(currentProvider)
    }

    /**
     * `executeGeminiRequestWithFallback`: try the current key, then each
     * following key in turn, rebuilding the Gemini client before each of
     * those; the run is exactly `FallbackFrom` from the cursor.
     */
    method ExecuteWithFallback<T>(call: string -> Attempt<T>) returns (r: Attempt<T>)
      requires Valid()
      modifies this
      ensures Valid()
      ensures var o := FallbackFrom(keys, call, old(currentKeyIndex), 0);
        r == o.result && currentKeyIndex == o.cursor
        && gemini == (if o.attempts > 1 then Some(keys[o.cursor]) else old(gemini))
      ensures openai == old(openai) && currentProvider == old(currentProvider)
    {
      var initial := currentKeyIndex;
      var n := |keys|;
      r := call(CurrentGeminiApiKey());
      if r.Ok? {
        return;
      }
      var lastError := r.message;
      var attempt := 0;
      while attempt < n - 1
        invariant 0 <= attempt <= n - 1
        invariant Valid() && currentKeyIndex == TriedIndex(initial, attempt, n)
        invariant call(keys[currentKeyIndex]) == Fail(lastError)
        invariant FallbackFrom(keys, call, initial, 0) == FallbackFrom(keys, call, initial, attempt)
        invariant gemini == (if attempt > 0 then Some(keys[currentKeyIndex]) else old(gemini))
        invariant openai == old(openai) && currentProvider == old(currentProvider)
      {
        ModWithinTwo(currentKeyIndex + 1, n);
        var nextKey := GetNextGeminiApiKey();
        gemini := Some(nextKey);
        var res := call(nextKey);
        if res.Ok? {
          return res;
        }
        lastError := res.message;
        if currentKeyIndex == initial {
          assert false;
          break;
        }
        attempt := attempt + 1;
      }
      r := Fail(lastError);
    }

    /**
     * `generateSolution`: the two guards, then the prompt for the problem's
     * category; through OpenAI only a bare answer letter comes back (any
     * other reply reaches an undefined helper and ends in the catch), through
     * Gemini the reply is post-processed after the key fallback.
     */
    method GenerateSolution(problem: string, geminiModel: (string, Request) -> Attempt<string>, openaiModel: Request -> Attempt<string>)
      returns (s: Solution)
      requires Valid()
      modifies this
      ensures Valid() && openai == old(openai)
      ensures !(old(OpenAIReady()) || old(gemini).Some?) ==> s == Failed(NoServiceForSolution) && Unchanged(old(currentKeyIndex), old(currentProvider), old(gemini))
      ensures (old(OpenAIReady()) || old(gemini).Some?) && problem == "" ==> s == Failed(NoProblem) && currentKeyIndex == old(currentKeyIndex)
      ensures old(OpenAIReady()) && problem != "" ==>
        s == OpenAISolution(CuesOf(problem), openaiModel(Solve(CategoryOf(problem), problem)))
        && currentKeyIndex == old(currentKeyIndex) && currentProvider == OpenAI
      ensures !old(OpenAIReady()) && old(gemini).Some? && problem != "" ==>
        var o := FallbackFrom(keys, SolveStep(geminiModel, CuesOf(problem), problem), old(currentKeyIndex), 0);
        s == GeminiSolution(o.result) && currentKeyIndex == o.cursor && currentProvider == Gemini
    {
      var available := IsAIAvailable();
      if !available {
        return Failed(NoServiceForSolution);
      }
      if problem == "" {
        return Failed(NoProblem);
      }
      var cues := CuesOf(problem);
      var category := Classify(cues);
      if currentProvider == OpenAI {
        s := OpenAISolution(cues, openaiModel(Solve(category, problem)));
      } else {
        var result := ExecuteWithFallback(SolveStep(geminiModel, cues, problem));
        s := GeminiSolution(result);
      }
    }

    /**
     * `extractProblemFromScreenshots`. Through Gemini the callback reads the
     * screenshots and, once that succeeded, solves the text it read: the
     * result is the solution's full text, or nothing (`undefined`) when
     * solving failed. The retry through OpenAI in the catch cannot fire:
     * Gemini is only active when the OpenAI client has no key.
     */
    method ExtractProblem(paths: seq<string>, fileExists: string -> bool, geminiModel: (string, Request) -> Attempt<string>, openaiModel: Request -> Attempt<string>)
      returns (r: Option<string>)
      requires Valid()
      modifies this
      ensures Valid() && openai == old(openai)
      ensures !(old(OpenAIReady()) || old(gemini).Some?) ==> r == Some(NoServiceForProblem) && Unchanged(old(currentKeyIndex), old(currentProvider), old(gemini))
      ensures (old(OpenAIReady()) || old(gemini).Some?) && |paths| == 0 ==> r == Some(NoScreenshots)
      ensures old(OpenAIReady()) && |paths| > 0 ==>
        currentKeyIndex == old(currentKeyIndex) &&
        r == Some(if exists i :: 0 <= i < |paths| && !fileExists(paths[i]) then ScreenshotsFailed
                  else match openaiModel(ReadProblem(paths)) case Ok(text) => text case Fail(_) => ScreenshotsFailed)
      ensures !old(OpenAIReady()) && old(gemini).Some? && |paths| > 0 ==>
        var o := FallbackFrom(keys, ReadProblemStep(geminiModel, fileExists, paths), old(currentKeyIndex), 0);
        (o.result.Fail? ==> r == Some(ScreenshotsFailed) && currentKeyIndex == o.cursor)
        && (o.result.Ok? && o.result.value.Placeholder? ==> r == Some(o.result.value.message) && currentKeyIndex == o.cursor)
        && (o.result.Ok? && o.result.value.ProblemText? ==>
              var text := o.result.value.text;
              var o2 := FallbackFrom(keys, SolveStep(geminiModel, CuesOf(text), text), o.cursor, 0);
              if text == "" then r == None && currentKeyIndex == o.cursor
              else r == (if o2.result.Ok? then Some(o2.result.value.fullSolution) else None) && currentKeyIndex == o2.cursor)
    {
      var available := IsAIAvailable();
      if !available {
        return Some(NoServiceForProblem);
      }
      if |paths| == 0 {
        return Some(NoScreenshots);
      }
      if currentProvider == OpenAI {
        if exists i :: 0 <= i < |paths| && !fileExists(paths[i]) {
          // reading a missing file throws before the request is sent
          return Some(ScreenshotsFailed);
        }
        match openaiModel(ReadProblem(paths)) {
          case Ok(text) => r := Some(text);
          case Fail(_) => r := Some(ScreenshotsFailed);
        }
        return;
      }
      var read := ExecuteWithFallback(ReadProblemStep(geminiModel, fileExists, paths));
      match read
      case Fail(_) =>
        if currentProvider == Gemini && OpenAIReady() {
          assert false;
        }
        r := Some(ScreenshotsFailed);
      case Ok(Placeholder(message)) =>
        r := Some(message);
      case Ok(ProblemText(text)) =>
        var solution := GenerateSolution(text, geminiModel, openaiModel);
        r := if solution.Solved? then Some(solution.fullSolution) else None;
    }

    /** `optimizeSolution`: guards on availability, the problem and the code, then always through Gemini. */
    method OptimizeSolution(problem: string, code: string, geminiModel: (string, Request) -> Attempt<string>)
      returns (a: Analysis)
      requires Valid()
      modifies this
      ensures Valid() && openai == old(openai)
      ensures !(old(OpenAIReady()) || old(gemini).Some?) ==> a == AnalysisFailed(NoServiceForOptimize) && Unchanged(old(currentKeyIndex), old(currentProvider), old(gemini))
      ensures (old(OpenAIReady()) || old(gemini).Some?) && problem == "" ==> a == AnalysisFailed(NoProblemToOptimize)
      ensures (old(OpenAIReady()) || old(gemini).Some?) && problem != "" && code == "" ==> a == AnalysisFailed(NoCodeToOptimize)
      ensures (old(OpenAIReady()) || old(gemini).Some?) && problem != "" && code != "" ==>
        var o := FallbackFrom(keys, OptimizeStep(geminiModel, problem, code), old(currentKeyIndex), 0);
        a == (match o.result case Ok(text) => Analyzed(text) case Fail(m) => AnalysisFailed(OptimizeErrorPrefix + m))
        && currentKeyIndex == o.cursor
    {
      var available := IsAIAvailable();
      if !available {
        return AnalysisFailed(NoServiceForOptimize);
      }
      if problem == "" {
        return AnalysisFailed(NoProblemToOptimize);
      }
      if code == "" {
        return AnalysisFailed(NoCodeToOptimize);
      }
      var result := ExecuteWithFallback(OptimizeStep(geminiModel, problem, code));
      match result
      case Ok(text) => a := Analyzed(text);
      case Fail(m) => a := AnalysisFailed(OptimizeErrorPrefix + m);
    }

    /** `extractCodeFromScreenshot`: guards, then always through Gemini. */
    method ExtractCode(path: string, fileExists: string -> bool, geminiModel: (string, Request) -> Attempt<string>)
      returns (text: string)
      requires Valid()
      modifies this
      ensures Valid() && openai == old(openai)
      ensures !(old(OpenAIReady()) || old(gemini).Some?) ==> text == NoServiceForCode && Unchanged(old(currentKeyIndex), old(currentProvider), old(gemini))
      ensures (old(OpenAIReady()) || old(gemini).Some?) && path == "" ==> text == NoScreenshot
      ensures (old(OpenAIReady()) || old(gemini).Some?) && path != "" ==>
        var o := FallbackFrom(keys, ReadCodeStep(geminiModel, fileExists, path), old(currentKeyIndex), 0);
        text == (match o.result case Ok(t) => t case Fail(m) => CodeErrorPrefix + m)
        && currentKeyIndex == o.cursor
    {
      var available := IsAIAvailable();
      if !available {
        return NoServiceForCode;
      }
      if path == "" {
        return NoScreenshot;
      }
      var result := ExecuteWithFallback(ReadCodeStep(geminiModel, fileExists, path));
      match result
      case Ok(t) => text := t;
      case Fail(m) => text := CodeErrorPrefix + m;
    }
  }
}
