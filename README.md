# Coder-AI core, modelled in Dafny

Coder-AI is an Electron overlay that answers interview problems. It
captures screenshots of a problem with its window hidden, has an AI
provider (Gemini with a ring of API keys, or OpenAI) read the problem and
solve it, and shows the answer split into code, thoughts, complexity and
language. A second renderer (V2) and a main process with shortcuts, a
capture-hiding helper and IPC handlers come with it. A stand-alone
Speech2Text page turns speech-recognition results into a formatted
transcript with counters, a timer and a short history.

The model has one module per source file of the core, plus shared helpers:

- `wrappers.dfy`: `Option` and `Attempt`. An `Attempt` is either `Ok(value)` or `Fail(message)`, the way a promise settles.
- `text.dfy`: the JavaScript string operations the core relies on:
  - the `\s` and `\w` classes;
  - ASCII case mapping;
  - `includes`, `trim` and `split` on one character;
  - decimal digits, `padStart` and `parseInt`;
  - a small pattern language for the fixed regular expressions.
- `fences.dfy`: the fenced-code-block regular expressions of the AI service and of the first renderer.
- `problem_text.dfy`: the text side of `src/utils/openai.js`:
  - the cues that classify a problem;
  - the answer letter of a multiple-choice reply;
  - the post-processing of a Gemini reply.
- `ai_service.dfy`: the state of `src/utils/openai.js`:
  - the key cursor, the active provider and the two clients;
  - the key fallback loop, proved against a specification function;
  - the four request operations.
- `renderer.dfy` and `renderer_v2.dfy`: the two React components. Each models:
  - the text they extract from a solution;
  - their state changes, as classes whose fields are the React state.
- `transcript.dfy`: `Speech2Text/public/js/script.js`:
  - capitalisation, punctuation, word count and the timer text;
  - the recorder, whose fields are the page's variables and counters.
- `screenshots.dfy`: `src/utils/screenshot.js`:
  - the capture counter and the tracked paths;
  - file names and the directory listing;
  - the clean-up and reset loops.
- `preload.dfy`: the allow-list gates of `V2/src/preload.js`.
- `main_process.dfy`: window moves and toggles in `V2/src/main.js`. It also covers:
  - the capture-hiding helper search;
  - the IPC handlers' input checks.

The outside world is passed in as parameters:

- An AI model is a function from a key and a request to an `Attempt`.
- Which files exist is a set or a predicate.
- How an IPC call or a screenshot utility settles is an `Attempt` or a small datatype.
- Clock readings are numbers.

## Model

| member | source | states |
|---|---|---|
| Text.Trim | src/App.jsx:461 | `trim()`: the result is no longer than the input and has no whitespace at either end |
| Text.TrimOffset | src/App.jsx:461 | the trimmed text is a slice of the input, and what lies before and after that slice is whitespace |
| Text.SplitJoin | src/App.jsx:117-118 | the pieces of `split` joined by the separator give back the string, one piece more than separators |
| Text.SplitPiecesLackSeparator | src/App.jsx:118 | no piece of `split(sep)` contains the separator |
| Text.PadStart | Speech2Text/public/js/script.js:175-177 | `padStart`: the string right-aligned in the width, the rest filled |
| Text.ParseIntOfNat | src/utils/screenshot.js:187-188 | `parseInt` of a printed number followed by a non-digit gives the number back |
| Text.DigitsValueOfNat | src/utils/screenshot.js:187-188 | the printed decimal digits of a number read back as the number |
| ProblemText.NumberBeforeOperatorIff | src/utils/openai.js:349-350 | `/\d+(\.\d+)?[×÷\+\-=]/` matches exactly when some digit is directly followed by one of the operators |
| ProblemText.McqCueDominates | src/utils/openai.js:346-375 | any text holding a multiple-choice cue is classified multiple choice, whatever programming or numerical cues surround it |
| ProblemText.OptionLabelIsMcq | src/utils/openai.js:347-348 | an option label "(A)" to "(D)" anywhere makes the statement a multiple-choice question |
| ProblemText.WordCuesIgnoreCase | src/utils/openai.js:346-349 | the word cues fire the same for texts that differ only in letter case |
| ProblemText.AnswerLetter | src/utils/openai.js:434-439 | an extracted answer is one letter A-D (either case), the reply's last character or the one before a final period |
| ProblemText.AnswerLetterOfReply | src/utils/openai.js:434-439 | "The answer is X" and "Option X", in any case and with an optional period, give back X as written |
| ProblemText.AnswerLetterOfBareLetter | src/utils/openai.js:434 | a reply that is exactly one capital A-D is its own answer |
| ProblemText.AnswerLetterRejectsTrailingText | src/utils/openai.js:434-436 | a reply with more text after the letter yields no answer letter |
| ProblemText.GeminiAnswer | src/utils/openai.js:432-464 | an MCQ with a letter reply becomes that letter. Otherwise the full reply is kept. The code is the reply unless there is a programming cue. A non-empty reply never gives empty code |
| ProblemText.GeminiAnswerShowsFencedBlock | src/utils/openai.js:449-461 | for a programming question, a reply holding one fenced block shows the block's body, trimmed, as code |
| ProblemText.GeminiAnswerPythonBlock | src/utils/openai.js:453-461 | example, not a general property: a "```python" block holding `print(1)` shows `print(1)` as code |
| Fences.FirstFenceBody | src/utils/openai.js:453 | a matched fence body never contains a fence |
| Fences.WordRunRoundTrip | src/utils/openai.js:453-454 | the body comes out of a text with one block, whatever its word tag and the text before (without backquotes) and after |
| Fences.FirstOfRoundTrip | src/App.jsx:213-217 | with alternative tags, a block whose tag is the first alternative present there yields its body |
| AIService.ProviderName | src/utils/openai.js:148-150 | the provider name is "openai" or "gemini", and "openai" exactly for OpenAI |
| AIService.TriedIndexIsModular | src/utils/openai.js:168-200 | attempt j of a fallback run uses the key at (start + j) mod n |
| AIService.AdvanceVisitsEachKey | src/utils/openai.js:26-31 | k cursor steps land k keys further on, and n steps come back to the start |
| AIService.CursorDoesNotReturnEarly | src/utils/openai.js:194-198 | fewer than n steps never return to the initial key, so the loop's early break cannot fire |
| AIService.AttemptedKeysDistinct | src/utils/openai.js:171-200 | the keys tried within one run are pairwise different |
| AIService.FallbackBounds | src/utils/openai.js:168-204 | a run makes between 1 and n attempts and leaves the cursor on the last key tried |
| AIService.FallbackFirstSuccess | src/utils/openai.js:174-189 | the run returns the first key's answer that succeeds, after exactly that many attempts |
| AIService.FallbackAllFail | src/utils/openai.js:182-203 | when every key fails, all n are tried once and the last error is thrown |
| AIService.FallbackSuccessIsFirstWorkingKey | src/utils/openai.js:174-200 | a successful run returns its last key's answer, and every earlier key failed |
| AIService.ReadProblemCall | src/utils/openai.js:258-309 | a missing screenshot gives the placeholder; read text is what the model answered |
| AIService.NoValidScreenshotsIsUnreachable | src/utils/openai.js:286-289 | with at least one screenshot, the "no valid screenshots" placeholder cannot occur |
| AIService.GeminiRunSolution | src/utils/openai.js:417-476 | a Gemini run of `generateSolution` shows what the last key tried answered: a bare MCQ letter as text and code, never empty code for a non-empty reply, and that key's error, prefixed, once every key has failed |
| AIService.ReadCodeRun | src/utils/openai.js:590-620 | a missing screenshot gives the placeholder at once with the cursor unmoved; otherwise a success is what the last key tried read and a failure is its error after every key was tried |
| AIService.FallbackEndsWithCursorCall | src/utils/openai.js:168-200 | a run ends with the answer of the key under the final cursor, or, once every key was tried, with its error |
| AIService.MissingScreenshotKeepsKey | src/utils/openai.js:266-283 | a missing screenshot ends the run at its first attempt with the cursor unmoved |
| AIService.OpenAISolution | src/utils/openai.js:394-414 | only a multiple-choice letter survives the OpenAI branch; a failed call gives the prefixed error |
| AIService.Service.constructor | src/utils/openai.js:8-20 | no clients, provider "openai", cursor at the first key |
| AIService.Service.CurrentGeminiApiKey | src/utils/openai.js:37-39 | the key under the cursor |
| AIService.Service.GetNextGeminiApiKey | src/utils/openai.js:26-31 | the cursor moves one key on, wrapping, and that key is returned; nothing else changes |
| AIService.Service.InitAI | src/utils/openai.js:44-76 | the OpenAI client gets the environment key or "". The Gemini client gets the current key. Gemini becomes active |
| AIService.Service.SetApiKey | src/utils/openai.js:82-118 | "openai" sets that client's key. "gemini" ignores the key, rebuilds Gemini with the ring's current key and activates it. A missing provider counts as "gemini". Other names change nothing; the cursor never moves |
| AIService.Service.IsAIAvailable | src/utils/openai.js:124-142 | available iff OpenAI has a key or Gemini exists; the provider becomes OpenAI first, else Gemini |
| AIService.Service.CurrentProvider | src/utils/openai.js:148-150 | the active provider's name |
| AIService.Service.ExecuteWithFallback | src/utils/openai.js:168-204 | result and cursor are those of the fallback run from the cursor. The client is rebuilt only after the first attempt |
| AIService.Service.GenerateSolution | src/utils/openai.js:332-477 | the availability check comes first, then the empty-problem check. Then either the OpenAI branch or the Gemini fallback run with post-processing |
| AIService.Service.ExtractProblem | src/utils/openai.js:211-325 | the availability and no-screenshot guards, then the OpenAI read or the Gemini read-then-solve. Every failure becomes the fixed error text |
| AIService.Service.OptimizeSolution | src/utils/openai.js:485-572 | availability, then problem, then code guards; then the Gemini fallback run, its error prefixed |
| AIService.Service.ExtractCode | src/utils/openai.js:579-625 | availability and empty-path guards; then the Gemini fallback run, its error prefixed |
| Renderer.LazyGroupStopsAtLineEnd | src/App.jsx:224 | the lazy group before `(?=\n\|$)` can only stop at the end of its line |
| Renderer.ColonAlternativeIsRedundant | src/App.jsx:224-225 | leaving out the optional colon never rescues a failed match |
| Renderer.FirstComplexityLine | src/App.jsx:224-225 | a matched complexity group holds no line terminator |
| Renderer.Complexity | src/App.jsx:224-229 | the complexity shown is one line, trimmed at both ends |
| Renderer.ComplexityDefault | src/App.jsx:228-229 | without the cue, "O(n)" is shown |
| Renderer.ComplexityOfLine | src/App.jsx:224-229 | the leftmost cue, an optional colon, whitespace (line breaks included) and a value on its line show that value trimmed, whatever follows the line |
| Renderer.TimeComplexityExample | src/App.jsx:224-228 | example, not a general property: "Time Complexity: O(n log n)" shows "O(n log n)", and "Time Complexity:" with "O(n)" on the next line shows "O(n)", as `\s*` crosses the line break |
| Renderer.AbsentSpaceDiffersFromReset | src/App.jsx:224-230 | a solution without a space cue shows "O(n)", not the "O(1)" of a fresh or reset view |
| Renderer.BlockCodeWith | src/App.jsx:213-217 | the code shown is the fallback or text without a fence |
| Renderer.AsWrittenSplitsJavascriptTag | src/App.jsx:213-217 | as written, a `javascript` tag matches `java` and "script" starts the code |
| Renderer.AsWrittenJavascriptExample | src/App.jsx:213-217 | example, not a general property: as written, a "```javascript" block with `f()` shows "script\nf()" |
| Renderer.AsWrittenBlockCodeRoundTrip | src/App.jsx:213-217 | as written, a block tagged java or python, or not tagged, and followed by whitespace shows its trimmed body |
| Renderer.BlockCodeRoundTrip | src/App.jsx:213-217 | with the longer tag tried first, a block tagged java, python, javascript or nothing shows its body |
| Renderer.JavascriptExample | src/App.jsx:213-217 | example, not a general property: the corrected pattern shows `f()` for the same example |
| Renderer.DetectLanguage | src/App.jsx:233-239 | Java exactly for a Java cue; Python exactly for `def ` and `:` without one; JavaScript otherwise |
| Renderer.GeminiLanguage | src/App.jsx:182-188 | Java cues first, then `function`, then `def `; no cue leaves the language unchanged |
| Renderer.JavaCueWins | src/App.jsx:182-234 | a Java cue anywhere decides Java for both detectors |
| Renderer.DetectorsDisagree | src/App.jsx:182-239 | Python code mentioning `function` is read differently by the two detectors |
| Renderer.CleanLine | src/App.jsx:461 | a listed item has no whitespace at either end and is no longer than its line |
| Renderer.Thoughts | src/App.jsx:456-461 | at most one item per line, each trimmed |
| Renderer.ThoughtsAppend | src/App.jsx:456 | the items of two newline-joined texts are the items of each, in order |
| Renderer.ThoughtsOfLine | src/App.jsx:456-461 | a line gives its cleaned text exactly when it passes the three filters |
| Renderer.BlankLineDropped | src/App.jsx:457 | a whitespace-only line gives no item |
| Renderer.FenceLineDropped | src/App.jsx:458 | a line holding a fence gives no item |
| Renderer.ComplexityLineDropped | src/App.jsx:459 | a line naming time or space complexity, in any case, gives no item |
| Renderer.CleanLineStripsDash | src/App.jsx:461 | a dashed point is listed without the dash and the spaces around it |
| Renderer.CleanLineOfTidy | src/App.jsx:461 | a trimmed line not starting with a dash is listed unchanged |
| Renderer.NumberedLines | src/App.jsx:114-130 | empty code shows nothing. Otherwise the lines are numbered from 1, one per newline plus one, and rejoined they give the code back |
| Renderer.SpliceStart | src/App.jsx:384 | a negative index counts from the end; both ends are clamped as `splice` does |
| Renderer.RemoveAt | src/App.jsx:382-386 | the list without the element at the splice start, others in order; past the end nothing goes |
| Renderer.FailureMessage | src/App.jsx:242 | the reply's message, or the fixed text when it is empty |
| Renderer.RendererApp.constructor | src/App.jsx:10-17 | the initial state: nothing loaded, JavaScript, complexity O(n)/O(1) |
| Renderer.RendererApp.ResetApp | src/App.jsx:326-339 | view cleared, complexity restored, `reset-screenshots` sent exactly when the bridge is present, reset notice; loading and language kept |
| Renderer.RendererApp.RemoveScreenshot | src/App.jsx:382-386 | the screenshots become `RemoveAt` of the old list; nothing else changes |
| Renderer.RendererApp.ShowSolution | src/App.jsx:212-239 | code from the block as the pattern is written (so a `javascript` tag shows "script…"), or the fallback; the text, both complexities and the language detected from that code |
| Renderer.RendererApp.GenerateSolution | src/App.jsx:261-323 | with no problem, only a warning and no request. Otherwise a request when the bridge is there, and the notice per outcome. The view changes only for a solved reply |
| Renderer.RendererApp.AnalyzeScreenshot | src/App.jsx:192-258 | the problem text, then the solution. A reply that arrives, even a failed one, ends with the completion notice; a rejection ends with the error notice |
| Renderer.RendererApp.ProcessGeminiSolution | src/App.jsx:163-189 | text and code as given, case-insensitive complexities, and the language changed only on a cue |
| Renderer.FailedSolutionShowsDefaults | src/App.jsx:173-179 | a failed solution shows the default for both complexities |
| RendererV2.BigOAtSound | V2/src/App.jsx:101-105 | what `O\([^)]+\)` matches is an `O(...)` term |
| RendererV2.FirstCueBigOHit | V2/src/App.jsx:101-102 | the leftmost match is a match, and none starts before it |
| RendererV2.NoCueNoBigO | V2/src/App.jsx:101-102 | without the cue there is no match |
| RendererV2.CuesHaveNoBigOStart | V2/src/App.jsx:101-102 | no `O(` can start inside either cue |
| RendererV2.RematchFindsValue | V2/src/App.jsx:101-106 | matching `O(...)` again inside the first match finds the term that ended it |
| RendererV2.BigOComplexity | V2/src/App.jsx:101-106 | the complexity shown is always an `O(...)` term |
| RendererV2.BigOComplexityOfHit | V2/src/App.jsx:101-106 | the term shown is the first `O(...)` on the cue's line after the leftmost cue |
| RendererV2.BigODefault | V2/src/App.jsx:105-106 | without the cue, "O(n)" is shown |
| RendererV2.BigOOfLine | V2/src/App.jsx:101-106 | the leftmost cue, text without a capital O on its line, then a term: that term is shown |
| RendererV2.TimeBigOExample | V2/src/App.jsx:101-105 | example, not a general property: "Time Complexity is O(n^2) here" shows "O(n^2)" |
| RendererV2.CueLanguage | V2/src/App.jsx:110-116 | `function` first, then `def `, then a Java cue; no cue leaves the language unchanged |
| RendererV2.JavaWithFunctionIsJavaScript | V2/src/App.jsx:110-116 | Java code mentioning `function` is taken for JavaScript |
| RendererV2.Flipped | V2/src/App.jsx:27 | the theme always changes |
| RendererV2.ThemeClass | V2/src/App.jsx:26-41 | "dark-theme" exactly for the dark theme |
| RendererV2.ToggleTwiceRestores | V2/src/App.jsx:26-29 | two toggles restore the theme and its body class |
| RendererV2.V2App.constructor | V2/src/App.jsx:10-41 | dark theme shown on the body, visible, nothing loaded |
| RendererV2.V2App.ToggleTheme | V2/src/App.jsx:26-29 | the other theme, and the body shows the new theme's class; nothing else changes |
| RendererV2.V2App.ToggleVisibility | V2/src/App.jsx:32-37 | the flag flips, and the main process is told when the bridge is there |
| RendererV2.V2App.ResetApp | V2/src/App.jsx:187-200 | view cleared, complexity restored, screenshots reset through the bridge when present |
| RendererV2.V2App.ShowSolution | V2/src/App.jsx:97-106 | text and code as given, `O(...)` complexities; the language unchanged |
| RendererV2.V2App.GenerateSolution | V2/src/App.jsx:138-184 | no problem: warning and no request. Otherwise the request and the notice per outcome. The language never changes |
| RendererV2.V2App.AnalyzeScreenshot | V2/src/App.jsx:77-135 | problem text, then the solution, whose code may set the language; the notice per outcome |
| Transcript.SentencesCapitalized | Speech2Text/public/js/script.js:127 | length kept; exactly the sentence-initial word characters are upper-cased |
| Transcript.CapitalizeFromSpec | Speech2Text/public/js/script.js:127 | the left-to-right scan agrees with the sentence-start definition |
| Transcript.Capitalize | Speech2Text/public/js/script.js:125-135 | length kept; each character is itself or upper-cased, the first always upper-cased |
| Transcript.CapitalizeChangesCaseOnly | Speech2Text/public/js/script.js:125-135 | capitalisation changes letter case only |
| Transcript.CollapseKeepsLetters | Speech2Text/public/js/script.js:140 | collapsing whitespace keeps every non-space character, in order |
| Transcript.CollapseLoneSpaces | Speech2Text/public/js/script.js:140 | after collapsing, every space is one `' '` and none follows another |
| Transcript.EnsureEnd | Speech2Text/public/js/script.js:143-145 | the text ends in `.`, `!` or `?`; a period is added only when it did not |
| Transcript.SpaceAfterPunctSeparates | Speech2Text/public/js/script.js:148 | no sentence mark is followed by a letter afterwards |
| Transcript.BreakShape | Speech2Text/public/js/script.js:151 | the space after each sentence mark becomes one newline |
| Transcript.AddPunctuationShape | Speech2Text/public/js/script.js:138-154 | non-empty, not starting with a space, ending in a sentence mark. No mark is followed by a letter and no space by a space. The space after a mark is a newline |
| Transcript.AddPunctuationKeepsLetters | Speech2Text/public/js/script.js:138-154 | the non-space characters are those of the input, plus a final period when they did not end in a mark |
| Transcript.ProcessTranscriptSpec | Speech2Text/public/js/script.js:108-122 | empty stays empty. Punctuation yields a punctuated text with the input's characters. Without it, only case changes. With neither toggle the text is unchanged |
| Transcript.CapitalizationPrecedesPunctuation | Speech2Text/public/js/script.js:108-122 | capitalising before punctuating leaves the second sentence lower-case, unlike the other order |
| Transcript.WordCountIsWords | Speech2Text/public/js/script.js:194-200 | the count from `trim().split(/\s+/).filter(...)` equals the number of maximal non-space runs |
| Transcript.Words | Speech2Text/public/js/script.js:196-199 | every word is non-empty and holds no whitespace |
| Transcript.NoWordsIffBlank | Speech2Text/public/js/script.js:196-199 | there are no words exactly when the text is all whitespace |
| Transcript.PaddedValue | Speech2Text/public/js/script.js:175-177 | at least two digits, reading back as the number |
| Transcript.ClockReadsBack | Speech2Text/public/js/script.js:171-178 | "MM:SS": digits, a colon three from the end, seconds below 60, minutes*60+seconds the elapsed time |
| Transcript.LastInterimIsLast | Speech2Text/public/js/script.js:63-70 | all final: no interim. Otherwise the interim is the last non-final result's transcript |
| Transcript.FinalTextAppend | Speech2Text/public/js/script.js:63-67 | the finals of two runs are the finals of each, concatenated |
| Transcript.Pending | Speech2Text/public/js/script.js:63 | the results from `resultIndex` on, none when it is past the end |
| Transcript.PushedKeepsNewest | Speech2Text/public/js/script.js:224-227 | at most five items, the new one first, then the older ones with the oldest dropped past five |
| Transcript.CapitalizeAfterBreak | Speech2Text/public/js/script.js:125-135 | example, not a general property: two lower-case one-letter sentences on separate lines both come out capitalised |
| Transcript.PunctuateThree | Speech2Text/public/js/script.js:138-154 | example, not a general property: "a.b" becomes "a.\nb.": a space after the mark, then a newline for it, then the closing period |
| Transcript.WordsOfTrim | Speech2Text/public/js/script.js:196-198 | trimming before splitting changes none of the words |
| Transcript.FinalTextOne | Speech2Text/public/js/script.js:63-67 | a single final result contributes its transcript and one space; an interim one contributes nothing |
| Transcript.Recorder.constructor | Speech2Text/public/js/script.js:25-30 | empty transcript and history, zero counts, "00:00" |
| Transcript.Recorder.UpdateCounts | Speech2Text/public/js/script.js:194-202 | words is the word count of the output and chars its length in characters; nothing else changes |
| Transcript.Recorder.Start | Speech2Text/public/js/script.js:315-322 | with recognition available, the output and both transcripts are cleared |
| Transcript.Recorder.OnStart | Speech2Text/public/js/script.js:40-47 | recording, duration "00:00" |
| Transcript.Recorder.Tick | Speech2Text/public/js/script.js:171-178 | duration is the clock text of the elapsed seconds |
| Transcript.Recorder.OnResult | Speech2Text/public/js/script.js:59-90 | the final transcript is the processed finals of the pending results. The output adds the processed last interim. Counts are updated |
| Transcript.Recorder.AddToHistory | Speech2Text/public/js/script.js:214-232 | a blank output leaves the history. Otherwise the trimmed output with the timestamp, duration and word count is pushed |
| Transcript.Recorder.OnEnd | Speech2Text/public/js/script.js:49-57 | not recording, and the history step above |
| Transcript.Recorder.Clear | Speech2Text/public/js/script.js:330-336 | output and transcripts cleared, counts zero; history kept |
| Screenshots.FileNameFields | src/utils/screenshot.js:184-188 | splitting a name on `_` gives "screenshot", the timestamp's digits and the counter's digits with ".png" |
| Screenshots.FileNameStamp | src/utils/screenshot.js:184-188 | a capture's name passes the prefix filter, and its field 1 parses back to its timestamp |
| Screenshots.FileNameInjective | src/utils/screenshot.js:75-76 | equal names mean equal timestamps and counter values |
| Screenshots.Insert | src/utils/screenshot.js:185-190 | inserting keeps newest-first order and adds exactly the one name |
| Screenshots.SortNewestFirst | src/utils/screenshot.js:185-190 | the sorted names are a permutation of the input, newest first |
| Screenshots.AllScreenshotsSpec | src/utils/screenshot.js:175-210 | the full paths of exactly the prefixed names, each as often as listed, newest first |
| Screenshots.FilterKeepsScreenshots | src/utils/screenshot.js:184 | every listed name with the prefix is kept |
| Screenshots.NewerCaptureListedFirst | src/utils/screenshot.js:185-190 | of two captures in the listing, the later timestamp comes first |
| Screenshots.FirstBlocked | src/utils/screenshot.js:154-158 | the first tracked path whose removal throws, with none before it |
| Screenshots.ScreenshotStore.constructor | src/utils/screenshot.js:33-35 | counter 0, no tracked paths |
| Screenshots.ScreenshotStore.CleanupOld | src/utils/screenshot.js:150-169 | with no blocked path, the tracked files are removed and the list emptied. Otherwise the files before the blocked one are removed and the list kept |
| Screenshots.ScreenshotStore.Capture | src/utils/screenshot.js:41-145 | the name uses the counter before increment. A throw leaves the window hidden off-screen with nothing tracked. Otherwise the window is restored, the counter wraps at 2 with a clean-up, and the path is tracked last. Success iff the file exists. Without a wrap the path is appended and the written file added. On a wrap the clean-up removes the tracked files up to the first removal that throws; the list becomes just the new path if none throws, else the new path is appended. With no blocked removal 1-2 paths stay tracked |
| Screenshots.ScreenshotStore.Reset | src/utils/screenshot.js:215-237 | every listed screenshot that can be removed is gone; counter 0 and list empty even when removals fail |
| Preload.Send | V2/src/preload.js:19-59 | one message for an allow-listed channel, none otherwise |
| Preload.SendAllForwardsAllowed | V2/src/preload.js:19-59 | across any run of sends, the transport sees exactly the allow-listed requests, unaltered and in order |
| Preload.Receive | V2/src/preload.js:29-81 | an allow-listed channel gets a new wrapper and returns its remover; others change nothing |
| Preload.Remove | V2/src/preload.js:74-77 | the named wrapper leaves and every other listener stays |
| Preload.ReceiveThenRemove | V2/src/preload.js:62-81 | the handler is reached after earlier ones and other channels are untouched. The remover restores the registry exactly |
| Preload.Invoke | V2/src/preload.js:84-99 | an allowed channel makes one call and settles as the reply did. Any other channel makes no call and rejects "Invoke to <channel> is not allowed" |
| Preload.InvokeRejectionIndependent | V2/src/preload.js:98-99 | a rejected invoke is the same whatever the main process would answer, and its message names the channel |
| Preload.ChannelLists | V2/src/preload.js:19-43 | send channels are in no other list; receive and invoke share only "generate-solution" |
| MainProcess.MovedOneAxis | V2/src/main.js:221-239 | each arrow moves one axis by 30 in its direction; any other direction moves nothing |
| MainProcess.MoveUndone | V2/src/main.js:221-239 | a move followed by the opposite move restores the position |
| MainProcess.GenerateSolution | V2/src/main.js:386-409 | the AI is called iff the statement is truthy. Otherwise the "No problem statement" error. Its failure becomes "Error: " + message |
| MainProcess.OptimizeSolution | V2/src/main.js:448-475 | the problem is checked before the code; the AI is called only when both are truthy |
| MainProcess.ExtractCode | V2/src/main.js:416-437 | empty path, then missing file, are rejected before any AI call |
| MainProcess.RejectionsPrecedeAi | V2/src/main.js:388-458 | a rejected request's reply does not depend on the AI. With both inputs missing, the problem is reported |
| MainProcess.ExtractProblemCheck | V2/src/main.js:356-367 | an absent or empty list is rejected. Otherwise it passes iff every path exists, else the first missing path is named |
| MainProcess.ExtractProblem | V2/src/main.js:350-379 | the extraction runs exactly when the check passes, and its result or error becomes the reply |
| MainProcess.Main.constructor | V2/src/main.js:242-248 | visible, hidden from capture, at most the one hide command issued |
| MainProcess.Main.FindExecutable | V2/src/main.js:32-49 | the primary path if it exists, else the first existing alternative in order, else none |
| MainProcess.Main.ToggleVisibility | V2/src/main.js:211-218 | hidden if the flag said visible, shown otherwise, then the flag flips |
| MainProcess.Main.MoveWindow | V2/src/main.js:221-239 | the position becomes `Moved` of the old one; nothing else changes |
| MainProcess.Main.ToggleCaptureHiding | V2/src/main.js:259-267 | the flag flips. If the helper exists, exactly one command goes to it: unhide when hidden, hide otherwise |

## Left out

- Network and AI calls: the model's answers are parameters. Prompt texts are not modelled, only which request is made. Timeouts and the delays before capture are not modelled.
- Filesystem and image I/O:
  - reading files as base64, creating the screenshots directory;
  - `fs.statSync` sizes and the small-file warning;
  - the screenshot utility itself, whose outcome is a parameter;
  - `path.join` normalisation, modelled as `directory + "/" + name`.
- Screenshots.SortKey: a name whose timestamp does not parse sorts as timestamp 0. In the source the comparator returns NaN for such a name, and the resulting order depends on the engine.
- Screenshots.ScreenshotStore.Capture:
  - assumes the main window exists (`windows[0]`);
  - applies the window restore when the capture settles, though the source defers it by 100 ms;
  - does not model the exact error object of a failed capture, only its message.
- Electron wiring: `BrowserWindow` options, `globalShortcut` registration, the IPC transport, `contextBridge` and the development-mode exposure of `ipcRenderer`.
- `positionWindow` and the window-size fractions (V2/src/main.js:181-208) are not modelled.
- The helper processes' exit status and output (V2/src/main.js:64-74, 90-100) are not modelled. Only the command is recorded.
- MainProcess: the `set-api-key`, `get-current-provider` and `reset-screenshots` handlers only delegate, and are covered by `AIService.Service.SetApiKey`, `AIService.Service.CurrentProvider` and `Screenshots.ScreenshotStore.Reset`.
- main.js at the repository root repeats the V2 window functions, and is not part of this model.
- Console logging, notification auto-dismiss timers and clipboard copy are not modelled.
- Text.Upper and Text.Lower: `toUpperCase`/`toLowerCase` are modelled for ASCII letters only; other characters are left unchanged.
- The `/i` regular expressions fold ASCII case only, which is exact for their ASCII patterns.
- Renderer: `formatGeminiResponse` and the highlight helpers return their input. The placeholder images and keyboard shortcuts of the effect are not modelled, and nor is the JSX layout.
- Transcript:
  - the speaking-speed text needs the clock and `Math.round`, and is not modelled;
  - toasts, dark mode, the language selector, copy/save/download are not modelled;
  - the `visibilitychange` stop is not modelled;
  - `loadHistory`, which can load more than five items from `localStorage`, is not modelled, and nor is saving.
- Transcript.Recorder.UpdateCounts: the character count is the number of characters of the model's string. `text.length` counts UTF-16 code units, so a character outside the Basic Multilingual Plane counts once here and twice in the source.
- Transcript.Recorder.AddToHistory: the timestamp is a parameter instead of `new Date().toISOString()`.
- The stop button (Speech2Text/public/js/script.js:324-328) only asks the recogniser to stop; the end event it leads to is `Transcript.Recorder.OnEnd`.
- Transcript.Recorder.Tick: the elapsed seconds are a parameter instead of clock readings.
- Transcript.Recorder.OnResult: the code replaces `finalTranscript` with the processed finals of the results from `resultIndex` on. It does not accumulate earlier results, and the model follows the code. The `interimTranscript` variable is never written by `onresult`, and the model keeps it unchanged.
- AIService: the cross-provider retry in the catch of `extractProblemFromScreenshots` cannot fire. Gemini is only active when OpenAI has no key, so the model proves that branch dead instead of modelling a recursive call.
- AIService.OpenAISolution: a non-multiple-choice OpenAI answer calls `extractCodeFromSolution` (src/utils/openai.js:413), which no file of the repository defines, so it throws. The model returns that error, prefixed, and does not guess what the helper was meant to extract.
- AIService: the literal Gemini API keys are not reproduced; the key ring is a parameter.

## Findings

| source | as written | input that shows it | evidently intended | confidence | as-written member | corrected member |
|---|---|---|---|---|---|---|
| src/App.jsx:213 | `/```(?:java\|python\|javascript)?\s*([\s\S]*?)```/` tries `java` before `javascript`, so a `javascript` tag is matched as `java` | "```javascript\nf()\n```" shows the code "script\nf()" | the whole tag is skipped and the code is `f()` | not executed | Renderer.AsWrittenSplitsJavascriptTag, Renderer.AsWrittenJavascriptExample | Renderer.BlockCode, Renderer.BlockCodeRoundTrip, Renderer.JavascriptExample |

The solution view (`Renderer.RendererApp`) keeps the pattern as written, so the model shows what the component shows. `Renderer.BlockCode` is the corrected definition, with its round trip proved beside it.
