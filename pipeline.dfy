/**
 * The task itself: configure the browser, open the site, download and open
 * the CSV, read each record and run five steps for it, read past the last
 * record, archive the documents, and, in a `finally`, wait and clean up the
 * working directory whether or not a step raised.
 *
 * Every step that talks to the browser, the network or the filesystem may
 * raise, and so may opening the CSV file, reading a record and looking up
 * its order number; which step does (if any) is the input `failure`, the
 * index of the raising step among the steps of the `try` body. A step that
 * raises is recorded as `Interrupted`: it was started, and none of its
 * effects count. Whether the cleanup itself raises is the input
 * `cleanupRaises`. It is meant to be the `raised` result of
 * `Cleanup.DeleteRobotPartsFolder` on the run's listing, but this module
 * takes it as a plain input and does not carry the cleanup's own trace.
 */
module Pipeline {
  import opened Artifacts
  import opened Wrappers
  import Submission
  import Archive

  /** One CSV record. */
  datatype Row = Row(orderNumber: string, head: string, body: string, legs: string, address: string)

  /**
   * A row together with what the site answers for it: whether the error
   * banner is up after each click on "order", and the order id it assigns.
   */
  datatype RowRun = RowRun(row: Row, stillError: seq<bool>, orderId: string)

  datatype Step =
    | ConfigureDelay(millis: nat)
    | OpenWebsite
    | DownloadCsv
    | OpenCsv
    | ReadRow(orderNumber: string)
    | EndOfCsv
    | FillForm(row: Row)
    | CreateOutputDirectory
    | Screenshot(orderNumber: string)
    | Submit(orderNumber: string, events: seq<Submission.Event>)
    | CreatePdf(orderNumber: string, orderId: string)
    | CreateZip
    | Sleep(seconds: nat)
    | DeleteRobotPartsFolder
    | Interrupted(step: Step)

  const Prologue: seq<Step> := [ConfigureDelay(100), OpenWebsite, DownloadCsv, OpenCsv]
  const StepsPerRow: nat := 6
  /** After the rows: the read that finds no further record, then the archive. */
  const Epilogue: seq<Step> := [EndOfCsv, CreateZip]

  /** The `finally` block: the wait, then the cleanup, interrupted when it raises. */
  function Finally(cleanupRaises: bool): seq<Step> {
    [Sleep(10), if cleanupRaises then Interrupted(DeleteRobotPartsFolder) else DeleteRobotPartsFolder]
  }

  predicate Answered(runs: seq<RowRun>) {
    forall i :: 0 <= i < |runs| ==> |runs[i].stillError| >= Submission.MaxAttempts
  }

  /** Reading the record and its order number, then the loop body for it. */
  function RowSteps(r: RowRun): seq<Step>
    requires |r.stillError| >= Submission.MaxAttempts
  {
    [ ReadRow(r.row.orderNumber),
      FillForm(r.row),
      CreateOutputDirectory,
      Screenshot(r.row.orderNumber),
      Submit(r.row.orderNumber, Submission.SubmitTrace(r.row.orderNumber, r.stillError)),
      CreatePdf(r.row.orderNumber, r.orderId) ]
  }

  function AllRows(runs: seq<RowRun>): (steps: seq<Step>)
    requires Answered(runs)
    ensures |steps| == StepsPerRow * |runs|
  {
    if runs == [] then [] else AllRows(runs[..|runs| - 1]) + RowSteps(runs[|runs| - 1])
  }

  /** The `try` body when nothing raises. */
  function Plan(runs: seq<RowRun>): seq<Step>
    requires Answered(runs)
  {
    Prologue + AllRows(runs) + Epilogue
  }

  /** The first n planned steps, the last of them interrupted when `raised`. */
  function Upto(plan: seq<Step>, n: nat, raised: bool): seq<Step>
    requires 1 <= n <= |plan|
  {
    if raised then plan[..n - 1] + [Interrupted(plan[n - 1])] else plan[..n]
  }

  predicate Raises(runs: seq<RowRun>, failure: Option<nat>)
    requires Answered(runs)
  {
    failure.Some? && failure.value < |Plan(runs)|
  }

  /** The steps of the `try` body that run: all of them, or those up to the one that raises, interrupted. */
  function TryTrace(runs: seq<RowRun>, failure: Option<nat>): seq<Step>
    requires Answered(runs)
  {
    if Raises(runs, failure) then Upto(Plan(runs), failure.value + 1, true) else Plan(runs)
  }

  /** The steps run: those of the `try` body, then the `finally` block. */
  function RunTrace(runs: seq<RowRun>, failure: Option<nat>, cleanupRaises: bool): seq<Step>
    requires Answered(runs)
  {
    TryTrace(runs, failure) + Finally(cleanupRaises)
  }

  /** Runs one step of the `try` body; it raises when it is the failing one. */
  method Perform(trace: seq<Step>, step: Step, failure: Option<nat>) returns (trace': seq<Step>, raised: bool)
    ensures raised <==> failure == Some(|trace|)
    ensures trace' == trace + [if raised then Interrupted(step) else step]
  {
    raised := failure == Some(|trace|);
    if raised {
      trace' := trace + [Interrupted(step)];
    } else {
      trace' := trace + [step];
    }
  }

  /** The four steps before the row loop, stopping at the one that raises. */
  method RunPrologue(failure: Option<nat>) returns (trace: seq<Step>, raised: bool)
    ensures 1 <= |trace| <= |Prologue| && trace == Upto(Prologue, |trace|, raised)
    ensures raised <==> failure == Some(|trace| - 1)
    ensures !raised ==> |trace| == |Prologue| && (failure.None? || failure.value >= |Prologue|)
  {
    trace, raised := Perform([], ConfigureDelay(100), failure);
    if !raised {
      trace, raised := Perform(trace, OpenWebsite, failure);
    }
    if !raised {
      trace, raised := Perform(trace, DownloadCsv, failure);
    }
    if !raised {
      trace, raised := Perform(trace, OpenCsv, failure);
    }
  }

  /** One pass of the row loop: reading the record, then its five steps, stopping at the one that raises. */
  method RunRow(trace: seq<Step>, r: RowRun, failure: Option<nat>) returns (trace': seq<Step>, raised: bool)
    requires |r.stillError| >= Submission.MaxAttempts
    requires failure.None? || failure.value >= |trace|
    ensures |trace| + 1 <= |trace'| <= |trace| + StepsPerRow
    ensures trace' == trace + Upto(RowSteps(r), |trace'| - |trace|, raised)
    ensures raised <==> failure == Some(|trace'| - 1)
    ensures !raised ==> |trace'| == |trace| + StepsPerRow
    ensures !raised ==> failure.None? || failure.value >= |trace'|
  {
    var steps := RowSteps(r);
    trace', raised := Perform(trace, ReadRow(r.row.orderNumber), failure);
    assert trace' == trace + Upto(steps, 1, raised);
    if !raised {
      trace', raised := Perform(trace', FillForm(r.row), failure);
      assert trace' == trace + Upto(steps, 2, raised);
    }
    if !raised {
      trace', raised := Perform(trace', CreateOutputDirectory, failure);
      assert trace' == trace + Upto(steps, 3, raised);
    }
    if !raised {
      trace', raised := Perform(trace', Screenshot(r.row.orderNumber), failure);
      assert trace' == trace + Upto(steps, 4, raised);
    }
    if !raised {
      var events := Submission.SubmitForm(r.row.orderNumber, r.stillError);
      trace', raised := Perform(trace', Submit(r.row.orderNumber, events), failure);
      assert trace' == trace + Upto(steps, 5, raised);
    }
    if !raised {
      trace', raised := Perform(trace', CreatePdf(r.row.orderNumber, r.orderId), failure);
      assert trace' == trace + Upto(steps, 6, raised);
    }
  }

  /**
   * `create_robot`: the steps it runs, and whether an exception escapes
   * (from the `try` body, or from the cleanup in the `finally` block).
   */
  method CreateRobot(runs: seq<RowRun>, failure: Option<nat>, cleanupRaises: bool) returns (trace: seq<Step>, raised: bool)
    requires Answered(runs)
    ensures trace == RunTrace(runs, failure, cleanupRaises)
    ensures raised == (Raises(runs, failure) || cleanupRaises)
  {
    trace, raised := RunTryBody(runs, failure);
    trace := trace + [Sleep(10)];
    if cleanupRaises {
      trace := trace + [Interrupted(DeleteRobotPartsFolder)];
    } else {
      trace := trace + [DeleteRobotPartsFolder];
    }
    raised := raised || cleanupRaises;
  }

  /**
   * The `try` body: the prologue, the row loop, the final read and the
   * archive step, stopping at the step that raises.
   */
  method RunTryBody(runs: seq<RowRun>, failure: Option<nat>) returns (trace: seq<Step>, raised: bool)
    requires Answered(runs)
    ensures raised == Raises(runs, failure)
    ensures trace == TryTrace(runs, failure)
  {
    ghost var plan := Plan(runs);
    PlanShape(runs);
    trace, raised := RunPrologue(failure);
    UptoOfPrefix(Prologue, plan, |trace|, raised);
    trace, raised := RunRows(trace, raised, runs, failure);
    trace, raised := RunEpilogue(trace, raised, runs, failure);
  }

  /** After the row loop: the final read and the archive step; nothing is run when a step already raised. */
  method RunEpilogue(trace0: seq<Step>, raised0: bool, runs: seq<RowRun>, failure: Option<nat>)
    returns (trace: seq<Step>, raised: bool)
    requires Answered(runs)
    requires 1 <= |trace0| < |Plan(runs)| && trace0 == Upto(Plan(runs), |trace0|, raised0)
    requires raised0 <==> failure == Some(|trace0| - 1)
    requires !raised0 ==> |trace0| == |Plan(runs)| - |Epilogue| && (failure.None? || failure.value >= |trace0|)
    ensures raised == Raises(runs, failure)
    ensures trace == TryTrace(runs, failure)
  {
    ghost var plan := Plan(runs);
    PlanEnds(runs);
    trace, raised := trace0, raised0;
    if !raised {
      trace, raised := Perform(trace, EndOfCsv, failure);
      UptoNext(plan, |plan| - 2, raised);
    }
    if !raised {
      trace, raised := Perform(trace, CreateZip, failure);
      UptoNext(plan, |plan| - 1, raised);
    }
  }

  /** The row loop, entered with the prologue's trace; it does nothing when the prologue raised. */
  method RunRows(trace0: seq<Step>, raised0: bool, runs: seq<RowRun>, failure: Option<nat>)
    returns (trace: seq<Step>, raised: bool)
    requires Answered(runs)
    requires 1 <= |trace0| <= |Prologue| && trace0 == Upto(Plan(runs), |trace0|, raised0)
    requires raised0 <==> failure == Some(|trace0| - 1)
    requires !raised0 ==> |trace0| == |Prologue| && (failure.None? || failure.value >= |Prologue|)
    ensures 1 <= |trace| < |Plan(runs)| && trace == Upto(Plan(runs), |trace|, raised)
    ensures raised <==> failure == Some(|trace| - 1)
    ensures !raised ==> |trace| == |Plan(runs)| - |Epilogue| && (failure.None? || failure.value >= |trace|)
  {
    ghost var plan := Plan(runs);
    PlanShape(runs);
    trace, raised := trace0, raised0;
    var i := 0;
    while i < |runs| && !raised
      invariant 0 <= i <= |runs|
      invariant 1 <= |trace| < |plan| && trace == Upto(plan, |trace|, raised)
      invariant raised <==> failure == Some(|trace| - 1)
      invariant !raised ==> |trace| == |Prologue| + StepsPerRow * i
      invariant !raised ==> failure.None? || failure.value >= |trace|
    {
      ghost var before := trace;
      trace, raised := RunRow(trace, runs[i], failure);
      RowKeepsPrefix(runs, i, before, trace, raised);
      i := i + 1;
    }
  }

  /** Running the plan's next step, to completion or interrupted, extends its prefix by one. */
  lemma UptoNext(plan: seq<Step>, n: nat, raised: bool)
    requires n < |plan|
    ensures plan[..n] + [if raised then Interrupted(plan[n]) else plan[n]] == Upto(plan, n + 1, raised)
  {
    assert plan[..n + 1] == plan[..n] + [plan[n]];
  }

  /** A plan's first n steps are those of any longer plan that starts with it. */
  lemma UptoOfPrefix(a: seq<Step>, b: seq<Step>, n: nat, raised: bool)
    requires 1 <= n <= |a| <= |b| && a == b[..|a|]
    ensures Upto(a, n, raised) == Upto(b, n, raised)
  {
    assert a[..n] == b[..n] && a[..n - 1] == b[..n - 1];
  }

  /** A row's steps, possibly interrupted, extend the plan's prefix to a longer prefix. */
  lemma RowKeepsPrefix(runs: seq<RowRun>, i: nat, before: seq<Step>, after: seq<Step>, raised: bool)
    requires Answered(runs) && i < |runs|
    requires |before| == |Prologue| + StepsPerRow * i && before == Plan(runs)[..|before|]
    requires |before| + 1 <= |after| <= |before| + StepsPerRow
    requires after == before + Upto(RowSteps(runs[i]), |after| - |before|, raised)
    ensures |after| < |Plan(runs)| && after == Upto(Plan(runs), |after|, raised)
  {
    PlanShape(runs);
    PlanRow(runs, i);
    UptoGrows(Plan(runs), before, RowSteps(runs[i]), |after| - |before|, raised);
  }

  /** The same for the interrupted form of the prefix. */
  lemma UptoGrows(plan: seq<Step>, before: seq<Step>, steps: seq<Step>, k: nat, raised: bool)
    requires |before| + |steps| <= |plan| && before == plan[..|before|]
    requires plan[|before|..|before| + |steps|] == steps && 1 <= k <= |steps|
    ensures before + Upto(steps, k, raised) == Upto(plan, |before| + k, raised)
  {
    PrefixGrows(plan, before, steps, k - 1);
    PrefixGrows(plan, before, steps, k);
    assert steps[k - 1] == plan[|before| + k - 1];
  }

  /** A prefix of the plan followed by a prefix of the steps the plan holds next is again a prefix of the plan. */
  lemma PrefixGrows(plan: seq<Step>, before: seq<Step>, steps: seq<Step>, k: nat)
    requires |before| + |steps| <= |plan| && before == plan[..|before|]
    requires plan[|before|..|before| + |steps|] == steps && k <= |steps|
    ensures before + steps[..k] == plan[..|before| + k]
  {
    assert forall j :: |before| <= j < |before| + k ==> plan[j] == steps[j - |before|];
  }

  lemma PlanEnds(runs: seq<RowRun>)
    requires Answered(runs)
    ensures |Plan(runs)| >= |Epilogue|
    ensures Plan(runs)[|Plan(runs)| - 2] == EndOfCsv && Plan(runs)[|Plan(runs)| - 1] == CreateZip
  {
  }

  lemma PlanShape(runs: seq<RowRun>)
    requires Answered(runs)
    ensures |Plan(runs)| == |Prologue| + StepsPerRow * |runs| + |Epilogue|
    ensures Plan(runs)[..|Prologue|] == Prologue
    ensures Plan(runs)[|Plan(runs)| - 2] == EndOfCsv && Plan(runs)[|Plan(runs)| - 1] == CreateZip
  {
  }

  /** The rows' steps sit in row order: row i occupies positions 6i to 6i + 5. */
  lemma {:induction false} AllRowsAt(runs: seq<RowRun>, i: nat)
    requires Answered(runs) && i < |runs|
    ensures AllRows(runs)[StepsPerRow * i..StepsPerRow * i + StepsPerRow] == RowSteps(runs[i])
    decreases |runs|
  {
    var n := |runs| - 1;
    AllRowsSnoc(runs);
    var prev, last := AllRows(runs[..n]), RowSteps(runs[n]);
    RowOffsets(i, n);
    if i < n {
      AllRowsAt(runs[..n], i);
      assert runs[..n][i] == runs[i];
    }
    BlockOfSnoc(prev, last, StepsPerRow * i, RowSteps(runs[i]));
  }

  lemma RowOffsets(i: nat, n: nat)
    requires i <= n
    ensures i < n ==> StepsPerRow * i + StepsPerRow <= StepsPerRow * n
    ensures i == n ==> StepsPerRow * i == StepsPerRow * n
  {
  }

  /** A block of a sequence, or the block appended last, is a block of the longer sequence. */
  lemma BlockOfSnoc(prev: seq<Step>, last: seq<Step>, lo: nat, block: seq<Step>)
    requires |block| == |last|
    requires (lo + |block| <= |prev| && prev[lo..lo + |block|] == block) || (lo == |prev| && last == block)
    ensures (prev + last)[lo..lo + |block|] == block
  {
    if lo + |block| <= |prev| {
      assert (prev + last)[lo..lo + |block|] == prev[lo..lo + |block|];
    } else {
      assert (prev + last)[lo..lo + |block|] == last;
    }
  }

  lemma AllRowsSnoc(runs: seq<RowRun>)
    requires Answered(runs) && runs != []
    ensures Answered(runs[..|runs| - 1])
    ensures AllRows(runs) == AllRows(runs[..|runs| - 1]) + RowSteps(runs[|runs| - 1])
  {
    assert Answered(runs[..|runs| - 1]);
  }

  lemma SliceOfLeft(a: seq<Step>, b: seq<Step>, lo: nat, hi: nat)
    requires lo <= hi <= |a|
    ensures (a + b)[lo..hi] == a[lo..hi]
  {
  }

  lemma SliceOfRight(a: seq<Step>, b: seq<Step>)
    ensures (a + b)[|a|..|a| + |b|] == b
  {
  }

  lemma PlanRow(runs: seq<RowRun>, i: nat)
    requires Answered(runs) && i < |runs|
    ensures var at := |Prologue| + StepsPerRow * i;
      Plan(runs)[at..at + StepsPerRow] == RowSteps(runs[i])
  {
    AllRowsAt(runs, i);
    var rows := AllRows(runs);
    var lo := StepsPerRow * i;
    assert Plan(runs) == Prologue + (rows + Epilogue);
    SliceOfLeft(rows, Epilogue, lo, lo + StepsPerRow);
    assert (Prologue + (rows + Epilogue))[|Prologue| + lo..|Prologue| + lo + StepsPerRow]
        == (rows + Epilogue)[lo..lo + StepsPerRow];
  }

  // ---------------------------------------------------------------------
  // the cleanup always ends the run

  /** A step of the `finally` block, whether it completed or raised. */
  predicate IsFinally(s: Step) {
    match s
    case Sleep(_) => true
    case DeleteRobotPartsFolder => true
    case Interrupted(inner) => IsFinally(inner)
    case _ => false
  }

  lemma {:induction false} NoFinallyInRows(runs: seq<RowRun>)
    requires Answered(runs)
    ensures forall k :: 0 <= k < |AllRows(runs)| ==> !IsFinally(AllRows(runs)[k])
    decreases |runs|
  {
    if runs != [] {
      var n := |runs| - 1;
      AllRowsSnoc(runs);
      NoFinallyInRows(runs[..n]);
      var prev, last := AllRows(runs[..n]), RowSteps(runs[n]);
      forall k | 0 <= k < |AllRows(runs)|
        ensures !IsFinally(AllRows(runs)[k])
      {
        if k < |prev| {
          assert AllRows(runs)[k] == prev[k];
        } else {
          NoFinallyInRow(runs[n]);
          assert AllRows(runs)[k] == last[k - |prev|];
        }
      }
    }
  }

  lemma NoFinallyInRow(r: RowRun)
    requires |r.stillError| >= Submission.MaxAttempts
    ensures forall k :: 0 <= k < |RowSteps(r)| ==> !IsFinally(RowSteps(r)[k])
  {
  }

  lemma NoFinallyInPlan(runs: seq<RowRun>)
    requires Answered(runs)
    ensures forall k :: 0 <= k < |Plan(runs)| ==> !IsFinally(Plan(runs)[k])
  {
    var plan := Plan(runs);
    NoFinallyInRows(runs);
    forall k | 0 <= k < |plan| ensures !IsFinally(plan[k]) {
      if |Prologue| <= k < |Prologue| + |AllRows(runs)| {
        assert plan[k] == AllRows(runs)[k - |Prologue|];
      }
    }
  }

  /**
   * Whichever step raises, and also when none does, the run ends with the
   * ten-second wait and the cleanup (interrupted exactly when the cleanup
   * raises), and neither occurs earlier.
   */
  lemma CleanupEndsEveryRun(runs: seq<RowRun>, failure: Option<nat>, cleanupRaises: bool)
    requires Answered(runs)
    ensures var t := RunTrace(runs, failure, cleanupRaises);
      && |t| >= 3
      && t[|t| - 2] == Sleep(10)
      && (t[|t| - 1] == DeleteRobotPartsFolder <==> !cleanupRaises)
      && (t[|t| - 1] == Interrupted(DeleteRobotPartsFolder) <==> cleanupRaises)
      && forall k :: 0 <= k < |t| - 2 ==> !IsFinally(t[k])
  {
    NoFinallyInTry(runs, failure);
    FinallyFollows(TryTrace(runs, failure), cleanupRaises);
  }

  lemma NoFinallyInTry(runs: seq<RowRun>, failure: Option<nat>)
    requires Answered(runs)
    ensures |TryTrace(runs, failure)| >= 1
    ensures forall k :: 0 <= k < |TryTrace(runs, failure)| ==> !IsFinally(TryTrace(runs, failure)[k])
  {
    var plan := Plan(runs);
    PlanShape(runs);
    NoFinallyInPlan(runs);
    var body := TryTrace(runs, failure);
    forall k | 0 <= k < |body| ensures !IsFinally(body[k]) {
      assert body[k] == plan[k] || body[k] == Interrupted(plan[k]);
    }
  }

  lemma FinallyFollows(body: seq<Step>, cleanupRaises: bool)
    requires |body| >= 1 && forall k :: 0 <= k < |body| ==> !IsFinally(body[k])
    ensures var t := body + Finally(cleanupRaises);
      && |t| >= 3
      && t[|t| - 2] == Sleep(10)
      && (t[|t| - 1] == DeleteRobotPartsFolder <==> !cleanupRaises)
      && (t[|t| - 1] == Interrupted(DeleteRobotPartsFolder) <==> cleanupRaises)
      && forall k :: 0 <= k < |t| - 2 ==> !IsFinally(t[k])
  {
    var t := body + Finally(cleanupRaises);
    forall k | 0 <= k < |t| - 2 ensures !IsFinally(t[k]) {
      assert t[k] == body[k];
    }
  }

  /**
   * When a step raises, the steps before it ran in full, it is recorded as
   * interrupted, and only the completed steps count as having written files.
   */
  lemma RaisingStepEndsTheTry(runs: seq<RowRun>, failure: Option<nat>, cleanupRaises: bool)
    requires Answered(runs) && Raises(runs, failure)
    ensures var t := RunTrace(runs, failure, cleanupRaises);
      var f := failure.value;
      && |t| == f + 3
      && t[..f] == Plan(runs)[..f]
      && t[f] == Interrupted(Plan(runs)[f])
      && WrittenFiles(t) == WrittenFiles(Plan(runs)[..f])
  {
    var plan := Plan(runs);
    var f := failure.value;
    var t := RunTrace(runs, failure, cleanupRaises);
    var tail := [Interrupted(plan[f])] + Finally(cleanupRaises);
    assert t == plan[..f] + tail;
    WrittenFilesConcat(plan[..f], tail);
    WrittenFilesCons(Interrupted(plan[f]), Finally(cleanupRaises));
    FinallyWritesNothing(cleanupRaises);
  }

  /**
   * When opening the CSV file raises (the file is missing), the prologue
   * ends interrupted and only the `finally` block follows: no row runs and
   * no archive is made.
   */
  lemma MissingCsvFile(runs: seq<RowRun>, cleanupRaises: bool)
    requires Answered(runs)
    ensures RunTrace(runs, Some(|Prologue| - 1), cleanupRaises)
         == [ConfigureDelay(100), OpenWebsite, DownloadCsv, Interrupted(OpenCsv)] + Finally(cleanupRaises)
  {
    var plan := Plan(runs);
    PlanShape(runs);
    assert plan[..|Prologue| - 1] == Prologue[..|Prologue| - 1];
  }

  /**
   * When reading past the last good record raises (a malformed line), every
   * row has run, the read is interrupted, and the `finally` block follows
   * without `create_zip_file` having run.
   */
  lemma BadRecordAfterRows(runs: seq<RowRun>, cleanupRaises: bool)
    requires Answered(runs)
    ensures RunTrace(runs, Some(|Prologue| + StepsPerRow * |runs|), cleanupRaises)
         == Prologue + AllRows(runs) + [Interrupted(EndOfCsv)] + Finally(cleanupRaises)
  {
  }

  // ---------------------------------------------------------------------
  // what the run writes, and what the archive takes

  /**
   * The files a step writes to the working directory, in order: the preview
   * screenshot; and, for the document step, the receipt image, the resized
   * preview (written over the screenshot), the combined image and the PDF.
   * An interrupted step counts as writing nothing.
   */
  function Written(s: Step): (files: seq<Artifact>)
    ensures forall i :: 0 <= i < |files| ==> (files[i].OrderPdf? <==> s.CreatePdf? && i == |files| - 1)
    ensures s.CreatePdf? ==> |files| > 0 && files[|files| - 1].KeyOf() == s.orderId
  {
    match s
    case Screenshot(n) => [RobotImage(n)]
    case CreatePdf(n, id) => [ReceiptImage(id), RobotImage(n), CombinedImage(id), OrderPdf(id)]
    case _ => []
  }

  function WrittenFiles(t: seq<Step>): seq<Artifact> {
    if t == [] then [] else Written(t[0]) + WrittenFiles(t[1..])
  }

  lemma WrittenFilesCons(s: Step, t: seq<Step>)
    ensures WrittenFiles([s] + t) == Written(s) + WrittenFiles(t)
  {
    assert ([s] + t)[0] == s && ([s] + t)[1..] == t;
  }

  lemma FinallyWritesNothing(cleanupRaises: bool)
    ensures WrittenFiles(Finally(cleanupRaises)) == []
  {
    var last := Finally(cleanupRaises)[1];
    WrittenFilesCons(last, []);
    WrittenFilesCons(Sleep(10), [last]);
    assert Finally(cleanupRaises) == [Sleep(10)] + [last];
  }

  /** The prologue, the final read and the archive step write no file. */
  lemma FramingWritesNothing(cleanupRaises: bool)
    ensures WrittenFiles(Prologue) == []
    ensures WrittenFiles(Epilogue + Finally(cleanupRaises)) == []
  {
    WrittenFilesCons(OpenCsv, []);
    WrittenFilesCons(DownloadCsv, [OpenCsv]);
    WrittenFilesCons(OpenWebsite, [DownloadCsv, OpenCsv]);
    WrittenFilesCons(ConfigureDelay(100), [OpenWebsite, DownloadCsv, OpenCsv]);
    FinallyWritesNothing(cleanupRaises);
    WrittenFilesCons(CreateZip, Finally(cleanupRaises));
    WrittenFilesCons(EndOfCsv, [CreateZip] + Finally(cleanupRaises));
    assert Epilogue + Finally(cleanupRaises) == [EndOfCsv] + ([CreateZip] + Finally(cleanupRaises));
  }

  /** One document per row, keyed by the order id the site assigned, in row order. */
  function Documents(runs: seq<RowRun>): seq<Artifact> {
    if runs == [] then [] else Documents(runs[..|runs| - 1]) + [OrderPdf(runs[|runs| - 1].orderId)]
  }

  lemma {:induction false} WrittenFilesConcat(a: seq<Step>, b: seq<Step>)
    ensures WrittenFiles(a + b) == WrittenFiles(a) + WrittenFiles(b)
    decreases |a|
  {
    if a == [] {
      assert a + b == b;
    } else {
      assert (a + b)[0] == a[0];
      assert (a + b)[1..] == a[1..] + b;
      WrittenFilesConcat(a[1..], b);
    }
  }

  /** A row writes its preview under the order number, then its images and document under the order id. */
  lemma RowWrites(r: RowRun)
    requires |r.stillError| >= Submission.MaxAttempts
    ensures WrittenFiles(RowSteps(r))
         == [RobotImage(r.row.orderNumber),
             ReceiptImage(r.orderId), RobotImage(r.row.orderNumber), CombinedImage(r.orderId), OrderPdf(r.orderId)]
  {
    var s := RowSteps(r);
    var pdf := Written(s[5]);
    assert s[5..][1..] == [];
    assert WrittenFiles(s[5..]) == pdf + [];
    assert s[4..][1..] == s[5..];
    assert WrittenFiles(s[4..]) == [] + WrittenFiles(s[5..]);
    assert s[3..][1..] == s[4..];
    assert WrittenFiles(s[3..]) == [RobotImage(r.row.orderNumber)] + WrittenFiles(s[4..]);
    assert s[2..][1..] == s[3..];
    assert WrittenFiles(s[2..]) == [] + WrittenFiles(s[3..]);
    assert s[1..][1..] == s[2..];
    assert WrittenFiles(s[1..]) == [] + WrittenFiles(s[2..]);
    assert WrittenFiles(s) == [] + WrittenFiles(s[1..]);
  }

  lemma RowDocument(r: RowRun)
    requires |r.stillError| >= Submission.MaxAttempts
    ensures Archive.OrderDocuments(WrittenFiles(RowSteps(r))) == [OrderPdf(r.orderId)]
  {
    RowWrites(r);
    var images := [RobotImage(r.row.orderNumber), ReceiptImage(r.orderId), RobotImage(r.row.orderNumber),
                   CombinedImage(r.orderId)];
    assert WrittenFiles(RowSteps(r)) == images + [OrderPdf(r.orderId)];
    Archive.OrderDocumentsSplit(images, [OrderPdf(r.orderId)]);
    Archive.NoOrderDocuments(images);
    Archive.AllOrderDocuments([OrderPdf(r.orderId)]);
  }

  lemma {:induction false} RowsWriteDocuments(runs: seq<RowRun>)
    requires Answered(runs)
    ensures Archive.OrderDocuments(WrittenFiles(AllRows(runs))) == Documents(runs)
    decreases |runs|
  {
    if runs != [] {
      var n := |runs| - 1;
      assert Answered(runs[..n]);
      RowsWriteDocuments(runs[..n]);
      var r := runs[n];
      WrittenFilesConcat(AllRows(runs[..n]), RowSteps(r));
      RowWrites(r);
      RowDocument(r);
      Archive.OrderDocumentsSplit(WrittenFiles(AllRows(runs[..n])), WrittenFiles(RowSteps(r)));
    }
  }

  /**
   * In a run where nothing raises, the documents written are one per row,
   * named by that row's order id, in row order; selecting the ".pdf" names
   * among the files written gives exactly their names, and no image.
   */
  lemma CompleteRunArchivesEveryDocument(runs: seq<RowRun>, failure: Option<nat>, cleanupRaises: bool)
    requires Answered(runs) && !Raises(runs, failure)
    ensures Archive.OrderDocuments(WrittenFiles(RunTrace(runs, failure, cleanupRaises))) == Documents(runs)
    ensures Archive.Selected(Archive.FileNames(WrittenFiles(RunTrace(runs, failure, cleanupRaises))))
            == Archive.FileNames(Documents(runs))
  {
    var t := RunTrace(runs, failure, cleanupRaises);
    CompleteRunWrites(runs, failure, cleanupRaises);
    RowsWriteDocuments(runs);
    Archive.SelectedArtifacts(WrittenFiles(t));
  }

  /** Only the row steps write files: the prologue, the final read, the archive step and the cleanup write none. */
  lemma CompleteRunWrites(runs: seq<RowRun>, failure: Option<nat>, cleanupRaises: bool)
    requires Answered(runs) && !Raises(runs, failure)
    ensures WrittenFiles(RunTrace(runs, failure, cleanupRaises)) == WrittenFiles(AllRows(runs))
  {
    var t := RunTrace(runs, failure, cleanupRaises);
    var tail := Epilogue + Finally(cleanupRaises);
    assert t == Prologue + AllRows(runs) + tail;
    WrittenFilesConcat(Prologue + AllRows(runs), tail);
    WrittenFilesConcat(Prologue, AllRows(runs));
    FramingWritesNothing(cleanupRaises);
  }

  /**
   * Giving up on the submission does not skip the order: when all ten
   * clicks leave the error banner up, the error is logged and the document
   * step for that row still runs, right after.
   */
  lemma DocumentFollowsFailedSubmit(runs: seq<RowRun>, failure: Option<nat>, cleanupRaises: bool, i: nat)
    requires Answered(runs) && !Raises(runs, failure) && i < |runs|
    requires forall j :: 0 <= j < Submission.MaxAttempts ==> runs[i].stillError[j]
    ensures var t := RunTrace(runs, failure, cleanupRaises);
      var at := |Prologue| + StepsPerRow * i + 4;
      && at + 1 < |t|
      && t[at].Submit? && Submission.Logged(t[at].events)
      && t[at + 1] == CreatePdf(runs[i].row.orderNumber, runs[i].orderId)
  {
    var t := RunTrace(runs, failure, cleanupRaises);
    var at := |Prologue| + StepsPerRow * i;
    PlanRow(runs, i);
    PlanShape(runs);
    RowOffsets(i, |runs|);
    var r := runs[i];
    Submission.SubmitBoundsAndLog(r.row.orderNumber, r.stillError);
    assert t[at + 4] == Plan(runs)[at + 4] == RowSteps(r)[4];
    assert t[at + 5] == Plan(runs)[at + 5] == RowSteps(r)[5];
  }
}
