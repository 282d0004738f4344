/**
 * Best-effort cleanup of the working directory: try to remove every listed
 * file, logging (not raising) each failure, then make one attempt to remove
 * the directory itself, logging a failure there too.
 *
 * The filesystem is replaced by its answers: `listing` is the directory
 * listing, or None when listing the directory raises (it is the one call
 * not guarded by a `try`); `removed[i]` is whether removing the i-th listed
 * file succeeded, `directoryRemoved` whether the recursive directory
 * removal did.
 */
module Cleanup {
  import opened Artifacts
  import opened Wrappers

  datatype Event =
    | RemoveFile(path: string)
    | LogFileError(name: string)
    | RemoveDirectory(path: string)
    | LogDirectoryError

  /** One iteration of the file loop: the removal attempt, and the log line if it failed. */
  function FileStep(name: string, removed: bool): seq<Event> {
    [RemoveFile(JoinPath(PartsDir, name))] + (if removed then [] else [LogFileError(name)])
  }

  /** The file loop over the first |names| entries, built up one iteration at a time. */
  function FileSteps(names: seq<string>, removed: seq<bool>): seq<Event>
    requires |removed| == |names|
  {
    if names == [] then []
    else FileSteps(names[..|names| - 1], removed[..|names| - 1]) + FileStep(names[|names| - 1], removed[|names| - 1])
  }

  function DirectoryStep(directoryRemoved: bool): seq<Event> {
    [RemoveDirectory(PartsDir)] + (if directoryRemoved then [] else [LogDirectoryError])
  }

  function CleanupTrace(names: seq<string>, removed: seq<bool>, directoryRemoved: bool): seq<Event>
    requires |removed| == |names|
  {
    FileSteps(names, removed) + DirectoryStep(directoryRemoved)
  }

  /** What the cleanup does: nothing when the listing raises, otherwise the file loop and the directory removal. */
  function CleanupRun(listing: Option<seq<string>>, removed: seq<bool>, directoryRemoved: bool): seq<Event>
    requires listing.Some? ==> |removed| == |listing.value|
  {
    if listing.None? then [] else CleanupTrace(listing.value, removed, directoryRemoved)
  }

  /** `delete_robot_parts_folder`; `raised` tells whether an exception escapes it. */
  method DeleteRobotPartsFolder(listing: Option<seq<string>>, removed: seq<bool>, directoryRemoved: bool)
    returns (trace: seq<Event>, raised: bool)
    requires listing.Some? ==> |removed| == |listing.value|
    ensures trace == CleanupRun(listing, removed, directoryRemoved)
    ensures raised <==> listing.None?
  {
    trace := [];
    if listing.None? {
      raised := true;
      return;
    }
    var names := listing.value;
    var i := 0;
    while i < |names|
      invariant 0 <= i <= |names|
      invariant trace == FileSteps(names[..i], removed[..i])
    {
      trace := trace + [RemoveFile(JoinPath(PartsDir, names[i]))];
      if !removed[i] {
        trace := trace + [LogFileError(names[i])];
      }
      assert names[..i + 1][..i] == names[..i];
      assert removed[..i + 1][..i] == removed[..i];
      i := i + 1;
    }
    assert names[..i] == names && removed[..i] == removed;
    trace := trace + [RemoveDirectory(PartsDir)];
    if !directoryRemoved {
      trace := trace + [LogDirectoryError];
    }
    raised := false;
  }

  // ---------------------------------------------------------------------
  // reading the trace

  /** Paths whose removal was attempted, in order. */
  function Attempted(t: seq<Event>): seq<string> {
    if t == [] then [] else (if t[0].RemoveFile? then [t[0].path] else []) + Attempted(t[1..])
  }

  /** Names of the files whose failed removal was logged, in order. */
  function FileErrors(t: seq<Event>): seq<string> {
    if t == [] then [] else (if t[0].LogFileError? then [t[0].name] else []) + FileErrors(t[1..])
  }

  function DirectoryAttempts(t: seq<Event>): nat {
    if t == [] then 0 else (if t[0].RemoveDirectory? then 1 else 0) + DirectoryAttempts(t[1..])
  }

  /** Every listed name joined onto the working directory. */
  function PathsOf(names: seq<string>): seq<string> {
    if names == [] then [] else PathsOf(names[..|names| - 1]) + [JoinPath(PartsDir, names[|names| - 1])]
  }

  /** The listed names whose removal failed. */
  function Failed(names: seq<string>, removed: seq<bool>): seq<string>
    requires |removed| == |names|
  {
    if names == [] then []
    else Failed(names[..|names| - 1], removed[..|names| - 1])
         + (if removed[|names| - 1] then [] else [names[|names| - 1]])
  }

  lemma ReadersOfConcat(a: seq<Event>, b: seq<Event>)
    ensures Attempted(a + b) == Attempted(a) + Attempted(b)
    ensures FileErrors(a + b) == FileErrors(a) + FileErrors(b)
    ensures DirectoryAttempts(a + b) == DirectoryAttempts(a) + DirectoryAttempts(b)
  {
    AttemptedConcat(a, b);
    FileErrorsConcat(a, b);
    DirectoryAttemptsConcat(a, b);
  }

  lemma {:induction false} AttemptedConcat(a: seq<Event>, b: seq<Event>)
    ensures Attempted(a + b) == Attempted(a) + Attempted(b)
    decreases |a|
  {
    if a == [] {
      assert a + b == b;
    } else {
      assert (a + b)[1..] == a[1..] + b;
      AttemptedConcat(a[1..], b);
    }
  }

  lemma {:induction false} FileErrorsConcat(a: seq<Event>, b: seq<Event>)
    ensures FileErrors(a + b) == FileErrors(a) + FileErrors(b)
    decreases |a|
  {
    if a == [] {
      assert a + b == b;
    } else {
      assert (a + b)[1..] == a[1..] + b;
      FileErrorsConcat(a[1..], b);
    }
  }

  lemma {:induction false} DirectoryAttemptsConcat(a: seq<Event>, b: seq<Event>)
    ensures DirectoryAttempts(a + b) == DirectoryAttempts(a) + DirectoryAttempts(b)
    decreases |a|
  {
    if a == [] {
      assert a + b == b;
    } else {
      assert (a + b)[1..] == a[1..] + b;
      DirectoryAttemptsConcat(a[1..], b);
    }
  }

  lemma FileStepRead(name: string, removed: bool)
    ensures Attempted(FileStep(name, removed)) == [JoinPath(PartsDir, name)]
    ensures FileErrors(FileStep(name, removed)) == if removed then [] else [name]
    ensures DirectoryAttempts(FileStep(name, removed)) == 0
  {
    var step := FileStep(name, removed);
    if removed {
      assert step[1..] == [];
    } else {
      var tail := [LogFileError(name)];
      assert tail[1..] == [];
      assert FileErrors(tail) == [name] + FileErrors(tail[1..]);
      assert DirectoryAttempts(tail) == 0 + DirectoryAttempts(tail[1..]);
      assert Attempted(tail) == [] && FileErrors(tail) == [name] && DirectoryAttempts(tail) == 0;
      assert step[1..] == tail;
    }
  }

  lemma DirectoryStepRead(directoryRemoved: bool)
    ensures Attempted(DirectoryStep(directoryRemoved)) == []
    ensures FileErrors(DirectoryStep(directoryRemoved)) == []
    ensures DirectoryAttempts(DirectoryStep(directoryRemoved)) == 1
  {
    var step := DirectoryStep(directoryRemoved);
    if directoryRemoved {
      assert step[1..] == [];
    } else {
      var tail := [LogDirectoryError];
      assert tail[1..] == [];
      assert Attempted(tail) == [] && FileErrors(tail) == [] && DirectoryAttempts(tail) == 0;
      assert step[1..] == tail;
    }
  }

  lemma {:induction false} FileStepsRead(names: seq<string>, removed: seq<bool>)
    requires |removed| == |names|
    ensures Attempted(FileSteps(names, removed)) == PathsOf(names)
    ensures FileErrors(FileSteps(names, removed)) == Failed(names, removed)
    ensures DirectoryAttempts(FileSteps(names, removed)) == 0
    decreases |names|
  {
    if names != [] {
      var n := |names| - 1;
      FileStepsRead(names[..n], removed[..n]);
      ReadersOfConcat(FileSteps(names[..n], removed[..n]), FileStep(names[n], removed[n]));
      FileStepRead(names[n], removed[n]);
    }
  }

  /**
   * Every listed file is attempted, in listing order, whatever happened to
   * the files before it; exactly the failed ones are logged; the directory
   * removal is attempted exactly once, after every file, and the trace ends
   * with it (or with its error log).
   */
  lemma CleanupAttemptsEverything(names: seq<string>, removed: seq<bool>, directoryRemoved: bool)
    requires |removed| == |names|
    ensures var t := CleanupTrace(names, removed, directoryRemoved);
      && Attempted(t) == PathsOf(names)
      && FileErrors(t) == Failed(names, removed)
      && DirectoryAttempts(t) == 1
      && (t[|t| - 1] == RemoveDirectory(PartsDir)
          || (t[|t| - 2] == RemoveDirectory(PartsDir) && t[|t| - 1] == LogDirectoryError))
  {
    var d := DirectoryStep(directoryRemoved);
    FileStepsRead(names, removed);
    ReadersOfConcat(FileSteps(names, removed), d);
    DirectoryStepRead(directoryRemoved);
  }

  /** The log holds one line per failed removal: as many as there were failures. */
  lemma {:induction false} FailedCount(names: seq<string>, removed: seq<bool>)
    requires |removed| == |names|
    ensures |Failed(names, removed)| == multiset(removed)[false]
    ensures |PathsOf(names)| == |names|
    decreases |names|
  {
    if names != [] {
      var n := |names| - 1;
      FailedCount(names[..n], removed[..n]);
      assert removed == removed[..n] + [removed[n]];
      assert multiset(removed) == multiset(removed[..n]) + multiset{removed[n]};
    }
  }

  /**
   * Only an unreadable listing makes the cleanup raise, and then no file and
   * not the directory is removed; once the listing is read, the directory
   * removal is always attempted.
   */
  lemma ListingDecidesDirectoryRemoval(listing: Option<seq<string>>, removed: seq<bool>, directoryRemoved: bool)
    requires listing.Some? ==> |removed| == |listing.value|
    ensures var t := CleanupRun(listing, removed, directoryRemoved);
      DirectoryAttempts(t) == (if listing.None? then 0 else 1)
      && (listing.None? ==> Attempted(t) == [])
  {
    if listing.Some? {
      CleanupAttemptsEverything(listing.value, removed, directoryRemoved);
    }
  }
}
