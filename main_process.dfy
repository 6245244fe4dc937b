/**
 * The V2 main process (V2/src/main.js): the window's position and the
 * visibility flag the shortcuts toggle, the hide-from-capture flag and the
 * helper commands it issues, the search for the helper executable, and
 * the input checks of the IPC handlers that run before any AI call. Which
 * files exist is a parameter (`existing`); the helper's commands are
 * recorded rather than run.
 */
module MainProcess {
  import opened Wrappers

  const MoveStep: int := 30

  /** `moveWindow(direction)` applied to the position (x, y). */
  function Moved(x: int, y: int, direction: string): (int, int) {
    match direction
    case "up" => (x, y - MoveStep)
    case "down" => (x, y + MoveStep)
    case "left" => (x - MoveStep, y)
    case "right" => (x + MoveStep, y)
    case _ => (x, y)
  }

  predicate IsDirection(direction: string) {
    direction == "up" || direction == "down" || direction == "left" || direction == "right"
  }

  function Opposite(direction: string): string {
    match direction
    case "up" => "down"
    case "down" => "up"
    case "left" => "right"
    case "right" => "left"
    case _ => direction
  }

  /**
   * Each arrow moves the window one step along one axis and leaves the
   * other axis alone; any other direction leaves the window where it is.
   */
  lemma MovedOneAxis(x: int, y: int, direction: string)
    ensures var (x', y') := Moved(x, y, direction);
      && (IsDirection(direction) ==>
            (x' == x && (y' - y == MoveStep || y - y' == MoveStep)) || (y' == y && (x' - x == MoveStep || x - x' == MoveStep)))
      && (direction == "up" <==> y' < y)
      && (direction == "down" <==> y' > y)
      && (direction == "left" <==> x' < x)
      && (direction == "right" <==> x' > x)
      && (!IsDirection(direction) ==> x' == x && y' == y)
  {
  }

  /** A move followed by the opposite move puts the window back. */
  lemma MoveUndone(x: int, y: int, direction: string)
    ensures var (x', y') := Moved(x, y, direction); Moved(x', y', Opposite(direction)) == (x, y)
  {
  }

  /** A command handed to the capture-hiding helper. */
  datatype CaptureCommand = HideCommand(executable: string) | UnhideCommand(executable: string)

  /** Handler replies that are objects: `{ error: true, message }` or what the AI layer returned. */
  datatype SolutionReply<R> = AiResult(result: R) | ErrorReply(message: string)

  /** A handler's reply and whether it went on to call the AI layer. */
  datatype Handled<T> = Handled(reply: T, aiCalled: bool)

  /** JavaScript falsiness of an optional string: absent or empty. */
  predicate Falsy(s: Option<string>) {
    s.None? || s.value == ""
  }

  const NoStatementMessage := "Error: No problem statement provided"
  const NoCodeMessage := "Error: No code provided to optimize"
  const NoPathsMessage := "Error: No screenshot paths provided"
  const NoPathMessage := "Error: No screenshot path provided"

  function NotFoundMessage(path: string): string {
    "Error: Screenshot file not found: " + path
  }

  /** What the handlers make of an AI call that threw. */
  function ErrorText(message: string): string {
    "Error: " + message
  }

  function SolutionOutcome<R>(ai: Attempt<R>): SolutionReply<R> {
    match ai
    case Ok(v) => AiResult(v)
    case Fail(m) => ErrorReply(ErrorText(m))
  }

  function TextOutcome(ai: Attempt<string>): string {
    match ai
    case Ok(v) => v
    case Fail(m) => ErrorText(m)
  }

  /** The `generate-solution` handler; `ai` is how `generateSolution` would settle. */
  function GenerateSolution<R>(statement: Option<string>, ai: Attempt<R>): (r: Handled<SolutionReply<R>>)
    ensures r.aiCalled <==> !Falsy(statement)
    ensures !r.aiCalled ==> r.reply == ErrorReply(NoStatementMessage)
    ensures r.aiCalled ==> r.reply == SolutionOutcome(ai)
  {
    if Falsy(statement) then Handled(ErrorReply(NoStatementMessage), false)
    else Handled(SolutionOutcome(ai), true)
  }

  /** The `optimize-solution` handler; `ai` is how `optimizeSolution` would settle. */
  function OptimizeSolution<R>(problem: Option<string>, code: Option<string>, ai: Attempt<R>): (r: Handled<SolutionReply<R>>)
    ensures r.aiCalled <==> !Falsy(problem) && !Falsy(code)
    ensures Falsy(problem) ==> r.reply == ErrorReply(NoStatementMessage)
    ensures !Falsy(problem) && Falsy(code) ==> r.reply == ErrorReply(NoCodeMessage)
    ensures r.aiCalled ==> r.reply == SolutionOutcome(ai)
  {
    if Falsy(problem) then Handled(ErrorReply(NoStatementMessage), false)
    else if Falsy(code) then Handled(ErrorReply(NoCodeMessage), false)
    else Handled(SolutionOutcome(ai), true)
  }

  /** The `extract-code` handler; `ai` is how `extractCodeFromScreenshot` would settle. */
  function ExtractCode(path: Option<string>, existing: set<string>, ai: Attempt<string>): (r: Handled<string>)
    ensures r.aiCalled <==> !Falsy(path) && path.value in existing
    ensures Falsy(path) ==> r.reply == NoPathMessage
    ensures !Falsy(path) && path.value !in existing ==> r.reply == NotFoundMessage(path.value)
    ensures r.aiCalled ==> r.reply == TextOutcome(ai)
  {
    if Falsy(path) then Handled(NoPathMessage, false)
    else if path.value !in existing then Handled(NotFoundMessage(path.value), false)
    else Handled(TextOutcome(ai), true)
  }

  /**
   * A rejected request gets the same reply whatever the AI layer would
   * have done, so the checks complete before any AI call; and when both
   * optimisation inputs are missing, the problem is the one reported.
   */
  lemma RejectionsPrecedeAi<R>(problem: Option<string>, code: Option<string>, path: Option<string>,
                               existing: set<string>, a1: Attempt<R>, a2: Attempt<R>,
                               t1: Attempt<string>, t2: Attempt<string>)
    ensures !GenerateSolution(problem, a1).aiCalled ==> GenerateSolution(problem, a1) == GenerateSolution(problem, a2)
    ensures !OptimizeSolution(problem, code, a1).aiCalled ==> OptimizeSolution(problem, code, a1) == OptimizeSolution(problem, code, a2)
    ensures !ExtractCode(path, existing, t1).aiCalled ==> ExtractCode(path, existing, t1) == ExtractCode(path, existing, t2)
    ensures Falsy(problem) && Falsy(code) ==> OptimizeSolution(problem, code, a1).reply == ErrorReply(NoStatementMessage)
  {
  }

  /**
   * The checks of the `extract-problem` handler: None means every path
   * exists and the extraction may run.
   */
  method ExtractProblemCheck(paths: Option<seq<string>>, existing: set<string>) returns (r: Option<string>)
    ensures (paths.None? || paths.value == []) ==> r == Some(NoPathsMessage)
    ensures paths.Some? && paths.value != [] ==>
      && (r.None? <==> forall k :: 0 <= k < |paths.value| ==> paths.value[k] in existing)
      && (r.Some? ==> exists k :: 0 <= k < |paths.value| && paths.value[k] !in existing
                        && (forall j :: 0 <= j < k ==> paths.value[j] in existing)
                        && r == Some(NotFoundMessage(paths.value[k])))
  {
    if paths.None? || |paths.value| == 0 {
      return Some(NoPathsMessage);
    }
    var ps := paths.value;
    var i := 0;
    while i < |ps|
      invariant 0 <= i <= |ps|
      invariant forall j :: 0 <= j < i ==> ps[j] in existing
    {
      if ps[i] !in existing {
        return Some(NotFoundMessage(ps[i]));
      }
      i := i + 1;
    }
    return None;
  }

  /** The `extract-problem` handler; `ai` is how `extractProblemFromScreenshots` would settle. */
  method ExtractProblem(paths: Option<seq<string>>, existing: set<string>, ai: Attempt<string>) returns (r: Handled<string>)
    ensures r.aiCalled <==> paths.Some? && paths.value != [] && forall k :: 0 <= k < |paths.value| ==> paths.value[k] in existing
    ensures r.aiCalled ==> r.reply == TextOutcome(ai)
    ensures (paths.None? || paths.value == []) ==> r.reply == NoPathsMessage
    ensures !r.aiCalled && paths.Some? && paths.value != [] ==>
      exists k :: 0 <= k < |paths.value| && paths.value[k] !in existing
        && (forall j :: 0 <= j < k ==> paths.value[j] in existing)
        && r.reply == NotFoundMessage(paths.value[k])
  {
    var rejection := ExtractProblemCheck(paths, existing);
    if rejection.Some? {
      return Handled(rejection.value, false);
    }
    return Handled(TextOutcome(ai), true);
  }

  /** The main process's window and flags. */
  class Main {
    /** `invisiwindPath` and `alternativePaths`. */
    const primaryPath: string
    const alternativePaths: seq<string>
    /** The window's position and whether it is on screen. */
    var x: int
    var y: int
    var shown: bool
    /** `isVisible` and `isHiddenFromCapture`. */
    var isVisible: bool
    var isHiddenFromCapture: bool
    /** Commands issued to the capture-hiding helper, oldest first. */
    var commands: seq<CaptureCommand>

    /**
     * The window as created and the ready handler's first step: visible,
     * and hidden from capture, with the hide command issued when the
     * helper was found.
     */
    constructor(primaryPath: string, alternativePaths: seq<string>, x: int, y: int, existing: set<string>)
      ensures this.primaryPath == primaryPath && this.alternativePaths == alternativePaths
      ensures this.x == x && this.y == y && shown && isVisible && isHiddenFromCapture
      ensures |commands| <= 1 && forall k :: 0 <= k < |commands| ==> commands[k].HideCommand?
    {
      this.primaryPath := primaryPath;
      this.alternativePaths := alternativePaths;
      this.x, this.y := x, y;
      shown, isVisible := true, true;
      commands := [];
      new;
      var found := FindExecutable(existing);
      if found.Some? {
        commands := [HideCommand(found.value)];
      }
      isHiddenFromCapture := true;
    }

    /**
     * `findInvisiwindExecutable`: the primary path if it exists, else the
     * first existing alternative, else nothing.
     */
    method FindExecutable(existing: set<string>) returns (r: Option<string>)
      ensures primaryPath in existing ==> r == Some(primaryPath)
      ensures primaryPath !in existing && r.Some? ==>
        exists k :: 0 <= k < |alternativePaths| && r.value == alternativePaths[k] && r.value in existing
          && forall j :: 0 <= j < k ==> alternativePaths[j] !in existing
      ensures primaryPath !in existing && r.None? ==>
        forall k :: 0 <= k < |alternativePaths| ==> alternativePaths[k] !in existing
      ensures r.Some? ==> r.value in existing
    {
      if primaryPath in existing {
        return Some(primaryPath);
      }
      var i := 0;
      while i < |alternativePaths|
        invariant 0 <= i <= |alternativePaths|
        invariant forall j :: 0 <= j < i ==> alternativePaths[j] !in existing
      {
        if alternativePaths[i] in existing {
          return Some(alternativePaths[i]);
        }
        i := i + 1;
      }
      return None;
    }

    /** `toggleVisibility`: hide when the flag says visible, show otherwise, then flip the flag. */
    method ToggleVisibility()
      modifies this
      ensures isVisible == !old(isVisible) && shown == isVisible
      ensures x == old(x) && y == old(y) && isHiddenFromCapture == old(isHiddenFromCapture) && commands == old(commands)
    {
      if isVisible {
        shown := false;
      } else {
        shown := true;
      }
      isVisible := !isVisible;
    }

    /** `moveWindow(direction)`. */
    method MoveWindow(direction: string)
      modifies this
      ensures (x, y) == Moved(old(x), old(y), direction)
      ensures shown == old(shown) && isVisible == old(isVisible)
      ensures isHiddenFromCapture == old(isHiddenFromCapture) && commands == old(commands)
    {
      if direction == "up" {
        y := y - MoveStep;
      } else if direction == "down" {
        y := y + MoveStep;
      } else if direction == "left" {
        x := x - MoveStep;
      } else if direction == "right" {
        x := x + MoveStep;
      }
    }

    /**
     * The Ctrl+Alt+H handler: unhide when hidden from capture, hide
     * otherwise, and flip the flag. The command goes out only when the
     * helper executable is found; the flag flips either way.
     */
    method ToggleCaptureHiding(existing: set<string>)
      modifies this
      ensures isHiddenFromCapture == !old(isHiddenFromCapture)
      ensures commands == old(commands) || |commands| == |old(commands)| + 1
      ensures |commands| == |old(commands)| + 1 ==>
        && commands[..|old(commands)|] == old(commands)
        && (commands[|old(commands)|].UnhideCommand? <==> old(isHiddenFromCapture))
        && commands[|old(commands)|].executable in existing
      ensures (primaryPath in existing || exists k :: 0 <= k < |alternativePaths| && alternativePaths[k] in existing)
        <==> |commands| == |old(commands)| + 1
      ensures x == old(x) && y == old(y) && shown == old(shown) && isVisible == old(isVisible)
    {
      var found := FindExecutable(existing);
      if found.Some? {
        var command := if isHiddenFromCapture then UnhideCommand(found.value) else HideCommand(found.value);
        commands := commands + [command];
        assert commands[..|old(commands)|] == old(commands);
      }
      isHiddenFromCapture := !isHiddenFromCapture;
    }
  }
}
