/**
 * Screenshot bookkeeping (src/utils/screenshot.js): the capture counter
 * and the tracked paths, the names the files get, which files the
 * directory listing reports and in what order, and the clean-up and reset
 * loops. The disk is a set of paths; the window the capture hides is part
 * of the same state.
 */
module Screenshots {
  import opened Wrappers
  import opened Text

  const MaxScreenshots: nat := 2
  const Prefix := "screenshot_"
  const MissingFileMessage := "Screenshot file does not exist after capture"

  // ---------------------------------------------------------------------
  // File names
  // ---------------------------------------------------------------------

  /** `screenshot_${timestamp}_${counter}.png`. */
  function FileName(timestamp: nat, counter: nat): string {
    "screenshot" + "_" + NatToString(timestamp) + "_" + NatToString(counter) + ".png"
  }

  /** `path.join(directory, name)` for a plain name. */
  function PathIn(directory: string, name: string): string {
    directory + "/" + name
  }

  /** `parseInt(name.split('_')[1])`: None stands for NaN, including a missing field. */
  function Stamp(name: string): Option<int> {
    var fields := Split(name, '_');
    if |fields| < 2 then None else ParseInt(fields[1])
  }

  lemma DigitsHaveNoUnderscore(s: string)
    requires AllDigits(s)
    ensures '_' !in s
  {
    assert forall k :: 0 <= k < |s| ==> s[k] != '_';
  }

  /** Where the separators of a file name lie. */
  lemma FileNameFields(timestamp: nat, counter: nat)
    ensures Split(FileName(timestamp, counter), '_') == ["screenshot", NatToString(timestamp), NatToString(counter) + ".png"]
  {
    var t, c := NatToString(timestamp), NatToString(counter);
    DigitsHaveNoUnderscore(t);
    var tail := c + ".png";
    PngTailHasNoUnderscore(c);
    SplitNoSeparator(tail, '_');
    SplitAfterField(t, '_', tail);
    SplitAfterField("screenshot", '_', t + ['_'] + tail);
    assert FileName(timestamp, counter) == "screenshot" + ['_'] + (t + ['_'] + tail);
  }

  lemma PngTailHasNoUnderscore(c: string)
    requires AllDigits(c)
    ensures '_' !in c + ".png"
  {
    DigitsHaveNoUnderscore(c);
    var tail := c + ".png";
    forall k | 0 <= k < |tail| ensures tail[k] != '_' {
      if k >= |c| {
        assert tail[k] == ".png"[k - |c|];
      }
    }
  }

  /**
   * A capture's file name is one the listing keeps, and its timestamp
   * field parses back to the capture's timestamp.
   */
  lemma FileNameStamp(timestamp: nat, counter: nat)
    ensures StartsWith(FileName(timestamp, counter), Prefix)
    ensures Stamp(FileName(timestamp, counter)) == Some(timestamp)
  {
    FileNameFields(timestamp, counter);
    ParseIntOfNat(timestamp, []);
    assert NatToString(timestamp) + [] == NatToString(timestamp);
    var n := FileName(timestamp, counter);
    assert n == Prefix + (NatToString(timestamp) + "_" + NatToString(counter) + ".png");
  }

  /** Different timestamps or counters give different file names. */
  lemma FileNameInjective(t1: nat, c1: nat, t2: nat, c2: nat)
    requires FileName(t1, c1) == FileName(t2, c2)
    ensures t1 == t2 && c1 == c2
  {
    FileNameFields(t1, c1);
    FileNameFields(t2, c2);
    ParseIntOfNat(t1, []);
    ParseIntOfNat(t2, []);
    assert NatToString(t1) + [] == NatToString(t1) && NatToString(t2) + [] == NatToString(t2);
    ParseIntOfNat(c1, ".png");
    ParseIntOfNat(c2, ".png");
  }

  // ---------------------------------------------------------------------
  // getAllScreenshots: filter, sort newest first, full paths
  // ---------------------------------------------------------------------

  predicate IsScreenshotName(name: string) { StartsWith(name, Prefix) }

  /**
   * The sort key. A name whose timestamp field does not parse compares as
   * equal to every other name in the source's comparator; here it sorts as
   * timestamp 0.
   */
  function SortKey(name: string): int {
    match Stamp(name)
    case Some(t) => t
    case None => 0
  }

  predicate NewestFirst(names: seq<string>) {
    forall i, j :: 0 <= i < j < |names| ==> SortKey(names[j]) <= SortKey(names[i])
  }

  /** Put `x` after every name of `sorted` that is at least as new, before the older ones. */
  function Insert(x: string, sorted: seq<string>): (r: seq<string>)
    requires NewestFirst(sorted)
    ensures NewestFirst(r) && multiset(r) == multiset(sorted) + multiset{x}
    decreases |sorted|
  {
    if sorted == [] then [x]
    else if SortKey(sorted[0]) < SortKey(x) then [x] + sorted
    else
      var rest := Insert(x, sorted[1..]);
      InsertBehindHead(x, sorted, rest);
      [sorted[0]] + rest
  }

  /** Keeping the head in front of the tail with `x` inserted keeps the order. */
  lemma InsertBehindHead(x: string, sorted: seq<string>, rest: seq<string>)
    requires NewestFirst(sorted) && sorted != [] && SortKey(x) <= SortKey(sorted[0])
    requires NewestFirst(rest) && multiset(rest) == multiset(sorted[1..]) + multiset{x}
    ensures NewestFirst([sorted[0]] + rest)
    ensures multiset([sorted[0]] + rest) == multiset(sorted) + multiset{x}
  {
    assert sorted == [sorted[0]] + sorted[1..];
    forall k | 0 <= k < |rest| ensures SortKey(rest[k]) <= SortKey(sorted[0]) {
      assert rest[k] in multiset(rest);
      if rest[k] != x {
        HeadBoundsTail(sorted, rest[k]);
      }
    }
    ConsNewestFirst(sorted[0], rest);
  }

  /** A name no older than any of a newest-first list can go in front of it. */
  lemma ConsNewestFirst(h: string, rest: seq<string>)
    requires NewestFirst(rest)
    requires forall k :: 0 <= k < |rest| ==> SortKey(rest[k]) <= SortKey(h)
    ensures NewestFirst([h] + rest)
  {
    var r := [h] + rest;
    forall i, j | 0 <= i < j < |r| ensures SortKey(r[j]) <= SortKey(r[i]) {
      assert r[j] == rest[j - 1];
      if i > 0 {
        assert r[i] == rest[i - 1];
      }
    }
  }

  /** In a newest-first list, nothing after the head is newer than the head. */
  lemma HeadBoundsTail(sorted: seq<string>, y: string)
    requires NewestFirst(sorted) && sorted != [] && y in multiset(sorted[1..])
    ensures SortKey(y) <= SortKey(sorted[0])
  {
    var m :| 0 <= m < |sorted[1..]| && sorted[1..][m] == y;
    assert sorted[1..][m] == sorted[m + 1];
  }

  /** A stable insertion sort, newest first. */
  function SortNewestFirst(names: seq<string>): (r: seq<string>)
    ensures NewestFirst(r) && multiset(r) == multiset(names)
    decreases |names|
  {
    if names == [] then []
    else
      assert names == names[..|names| - 1] + [names[|names| - 1]];
      Insert(names[|names| - 1], SortNewestFirst(names[..|names| - 1]))
  }

  /**
   * `getAllScreenshots`: None stands for a missing or unreadable directory,
   * which yields no paths.
   */
  function AllScreenshots(directory: string, listing: Option<seq<string>>): seq<string> {
    match listing
    case None => []
    case Some(names) => Map(n => PathIn(directory, n), SortNewestFirst(Filter(IsScreenshotName, names)))
  }

  /**
   * The listing yields the full paths of exactly the names that start
   * with the prefix, each as often as it is listed, newest first.
   */
  lemma AllScreenshotsSpec(directory: string, names: seq<string>)
    ensures var r := AllScreenshots(directory, Some(names));
      var kept := SortNewestFirst(Filter(IsScreenshotName, names));
      && r == Map(n => PathIn(directory, n), kept)
      && NewestFirst(kept)
      && multiset(kept) == multiset(Filter(IsScreenshotName, names))
      && (forall k :: 0 <= k < |kept| ==> IsScreenshotName(kept[k]) && kept[k] in names)
  {
    var kept := SortNewestFirst(Filter(IsScreenshotName, names));
    forall k | 0 <= k < |kept| ensures IsScreenshotName(kept[k]) && kept[k] in names {
      assert kept[k] in multiset(kept);
      assert kept[k] in Filter(IsScreenshotName, names);
    }
  }

  /** Every listed name that starts with the prefix is kept. */
  lemma {:induction false} FilterKeepsScreenshots(names: seq<string>, n: string)
    requires n in names && IsScreenshotName(n)
    ensures n in Filter(IsScreenshotName, names)
    decreases |names|
  {
    if names[0] != n {
      assert n in names[1..];
      FilterKeepsScreenshots(names[1..], n);
    }
  }

  /** Of two captures listed together, the later one comes first. */
  lemma NewerCaptureListedFirst(names: seq<string>, t1: nat, c1: nat, t2: nat, c2: nat, i: nat, j: nat)
    requires t1 < t2
    requires var kept := SortNewestFirst(Filter(IsScreenshotName, names));
      i < |kept| && j < |kept| && kept[i] == FileName(t1, c1) && kept[j] == FileName(t2, c2)
    ensures j < i
  {
    FileNameStamp(t1, c1);
    FileNameStamp(t2, c2);
  }

  // ---------------------------------------------------------------------
  // The module's state
  // ---------------------------------------------------------------------

  /** What the screenshot utility did with the requested file. */
  datatype Shot =
    | Written                 // the primary or the alternative capture saved the file
    | NotWritten              // the utility returned but no file is there
    | Failed(error: string)   // both capture methods threw

  /** The first tracked path whose removal throws, if any. */
  function FirstBlocked(paths: seq<string>, blocked: set<string>): (r: Option<nat>)
    ensures r.Some? ==> r.value < |paths| && paths[r.value] in blocked && forall j :: 0 <= j < r.value ==> paths[j] !in blocked
    ensures r.None? ==> forall j :: 0 <= j < |paths| ==> paths[j] !in blocked
    decreases |paths|
  {
    if paths == [] then None
    else if paths[0] in blocked then Some(0)
    else match FirstBlocked(paths[1..], blocked)
      case None => None
      case Some(k) => Some(k + 1)
  }

  function Elements(s: seq<string>): set<string> { set x | x in s }

  class ScreenshotStore {
    /** The screenshots directory. */
    const directory: string
    /** `screenshotCounter`. */
    var counter: nat
    /** `screenshotPaths`. */
    var paths: seq<string>
    /** The files on disk. */
    var files: set<string>
    /** The main window's position and visibility. */
    var windowX: int
    var windowY: int
    var windowShown: bool

    /**
     * The counter is 0 or 1, and at most one more path is tracked than
     * the counter's value.
     */
    predicate Valid()
      reads this
    {
      counter < MaxScreenshots && |paths| <= counter + 1
    }

    constructor(directory: string, files: set<string>, x: int, y: int, shown: bool)
      ensures Valid()
      ensures this.directory == directory && counter == 0 && paths == [] && this.files == files
      ensures windowX == x && windowY == y && windowShown == shown
    {
      this.directory := directory;
      counter := 0;
      paths := [];
      this.files := files;
      windowX, windowY, windowShown := x, y, shown;
    }

    /**
     * `cleanupOldScreenshots`: remove every tracked file that exists and
     * forget the tracked paths. A removal that throws (a file in `stuck`)
     * ends the loop, and the paths are then kept.
     */
    method CleanupOld(stuck: set<string>)
      modifies this
      ensures FirstBlocked(old(paths), old(files) * stuck).None? ==>
        paths == [] && files == old(files) - Elements(old(paths))
      ensures FirstBlocked(old(paths), old(files) * stuck).Some? ==>
        paths == old(paths) && files == old(files) - Elements(old(paths)[..FirstBlocked(old(paths), old(files) * stuck).value])
      ensures counter == old(counter) && windowX == old(windowX) && windowY == old(windowY) && windowShown == old(windowShown)
    {
      var blocked := FirstBlocked(paths, files * stuck);
      var i := 0;
      while i < |paths|
        invariant 0 <= i <= |paths|
        invariant paths == old(paths) && counter == old(counter)
        invariant windowX == old(windowX) && windowY == old(windowY) && windowShown == old(windowShown)
        invariant files == old(files) - Elements(paths[..i])
        invariant forall j :: 0 <= j < i ==> paths[j] !in old(files) * stuck
        invariant blocked.Some? ==> i <= blocked.value
      {
        var p := paths[i];
        assert paths[..i + 1] == paths[..i] + [p];
        if p in files {
          if p in stuck {
            assert blocked == Some(i);
            return;
          }
          files := files - {p};
        }
        i := i + 1;
      }
      assert paths[..i] == paths;
      paths := [];
    }

    /**
     * `captureScreenshot` at `timestamp`, on a display of the given size:
     * the window moves off-screen and hides, the file is named after the
     * counter, which then advances and wraps at two with a clean-up, and
     * the path is tracked. The window gets its position and visibility
     * back unless the capture threw, in which case it stays hidden
     * off-screen.
     */
    method Capture(timestamp: nat, displayWidth: int, displayHeight: int, shot: Shot, stuck: set<string>)
      returns (r: Attempt<string>)
      modifies this
      ensures var name := PathIn(directory, FileName(timestamp, old(counter)));
        && (shot.Failed? ==>
          && r == Fail(shot.error) && counter == old(counter) + 1
          && paths == old(paths) && files == old(files)
          && windowX == displayWidth + 100 && windowY == displayHeight + 100 && !windowShown)
        && (!shot.Failed? ==>
          && windowX == old(windowX) && windowY == old(windowY) && windowShown == old(windowShown)
          && counter == (if old(counter) + 1 >= MaxScreenshots then 0 else old(counter) + 1)
          && |paths| > 0 && paths[|paths| - 1] == name
          && (r == Ok(name) || r == Fail(MissingFileMessage))
          && (r.Ok? <==> name in files))
      ensures var name := PathIn(directory, FileName(timestamp, old(counter)));
        var written := old(files) + (if shot.Written? then {name} else {});
        var blocked := FirstBlocked(old(paths), written * stuck);
        && (!shot.Failed? && old(counter) + 1 < MaxScreenshots ==>
          paths == old(paths) + [name] && files == written)
        && (!shot.Failed? && old(counter) + 1 >= MaxScreenshots && blocked.None? ==>
          paths == [name] && files == written - Elements(old(paths)))
        && (!shot.Failed? && old(counter) + 1 >= MaxScreenshots && blocked.Some? ==>
          paths == old(paths) + [name] && files == written - Elements(old(paths)[..blocked.value]))
      ensures !shot.Failed? && old(Valid()) && FirstBlocked(old(paths), (old(files) + (if shot.Written? then {PathIn(directory, FileName(timestamp, old(counter)))} else {})) * stuck).None? ==>
        Valid() && 1 <= |paths| <= MaxScreenshots
    {
      var wasVisible := windowShown;
      var x, y := windowX, windowY;
      windowX, windowY := displayWidth + 100, displayHeight + 100;
      windowShown := false;
      var filepath := PathIn(directory, FileName(timestamp, counter));
      counter := counter + 1;
      if shot.Failed? {
        return Fail(shot.error);
      }
      if shot.Written? {
        files := files + {filepath};
      }
      assert files == old(files) + (if shot.Written? then {filepath} else {});
      windowX, windowY := x, y;
      if wasVisible {
        windowShown := true;
      }
      Track(filepath, stuck);
      if filepath in files {
        r := Ok(filepath);
      } else {
        r := Fail(MissingFileMessage);
      }
    }

    /**
     * The end of a capture that did not throw: the advanced counter wraps
     * at two with a clean-up, and the new path is tracked.
     */
    method Track(filepath: string, stuck: set<string>)
      modifies this
      ensures var blocked := FirstBlocked(old(paths), old(files) * stuck);
        && (old(counter) < MaxScreenshots ==>
          counter == old(counter) && paths == old(paths) + [filepath] && files == old(files))
        && (old(counter) >= MaxScreenshots && blocked.None? ==>
          counter == 0 && paths == [filepath] && files == old(files) - Elements(old(paths)))
        && (old(counter) >= MaxScreenshots && blocked.Some? ==>
          counter == 0 && paths == old(paths) + [filepath] && files == old(files) - Elements(old(paths)[..blocked.value]))
      ensures windowX == old(windowX) && windowY == old(windowY) && windowShown == old(windowShown)
    {
      if counter >= MaxScreenshots {
        counter := 0;
        CleanupOld(stuck);
      }
      paths := paths + [filepath];
    }

    /**
     * `resetScreenshots`: try to remove every listed screenshot, then zero
     * the counter and forget the tracked paths whatever the removals did.
     */
    method Reset(listing: Option<seq<string>>, stuck: set<string>)
      modifies this
      ensures counter == 0 && paths == [] && Valid()
      ensures files == old(files) - (Elements(AllScreenshots(directory, listing)) - stuck)
      ensures windowX == old(windowX) && windowY == old(windowY) && windowShown == old(windowShown)
    {
      var all := AllScreenshots(directory, listing);
      var i := 0;
      while i < |all|
        invariant 0 <= i <= |all|
        invariant files == old(files) - (Elements(all[..i]) - stuck)
        invariant windowX == old(windowX) && windowY == old(windowY) && windowShown == old(windowShown)
      {
        assert all[..i + 1] == all[..i] + [all[i]];
        if all[i] !in stuck {
          files := files - {all[i]};
        }
        i := i + 1;
      }
      assert all[..i] == all;
      counter := 0;
      paths := [];
    }
  }
}
