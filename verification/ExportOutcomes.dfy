/** What an export job's row says: the status its own starter and runner reported last. */
module ExportOutcomes {
  import opened Wrappers
  import opened ExportModel
  import opened ExportTheorems
  import opened ExportRuns

  /** Which reports about one job a run contains. */
  datatype Reports = Reports(started: bool, packaging: bool, succeeded: bool, failed: bool, startFailed: bool)

  function ReportsOf(run: seq<Action>, i: TaskId): Reports {
    Reports(RunnerStart(i) in run, RunnerPackage(i) in run, RunnerMark(i, true) in run, RunnerMark(i, false) in run,
            MarkFailed(i) in run)
  }

  /** The status those reports leave. */
  function Reported(r: Reports): Status {
    if r.succeeded then SucceededRow
    else if r.failed || r.startFailed then FailedRow
    else if r.packaging then PackagingRow
    else if r.started then RunningRow
    else QueuedRow
  }

  function With(r: Reports, a: Action, i: TaskId): Reports {
    Reports(r.started || a == RunnerStart(i), r.packaging || a == RunnerPackage(i),
            r.succeeded || a == RunnerMark(i, true), r.failed || a == RunnerMark(i, false),
            r.startFailed || a == MarkFailed(i))
  }

  /** The reports are in step with where the task stands, and the row with the reports. */
  predicate InStep(s: State, i: TaskId, r: Reports) {
    if i >= |s.tasks| then r == Reports(false, false, false, false, false)
    else
      var t := s.tasks[i];
      && (r.started <==> !t.runner.Absent? && !t.runner.Queued?)
      && (r.packaging ==> r.started)
      && (r.succeeded || r.failed <==> r.started && !t.runner.Running?)
      && !(r.succeeded && r.failed)
      && (r.startFailed <==> t.starter.FailMarked? || t.starter.FailFinished? || t.starter.Raised?)
      && (t.hasRow ==> t.job in s.rows && s.rows[t.job] == Reported(r))
  }

  lemma OwnStepInStep(s: State, a: Action, r: Reports)
    requires Enabled(s, a) && !a.Call? && TaskOk(s, a.i) && InStep(s, a.i, r)
    ensures InStep(Apply(s, a), a.i, With(r, a, a.i))
  {
  }

  lemma StepInStep(s: State, a: Action, i: TaskId, r: Reports)
    requires Inv(s) && Enabled(s, a) && InStep(s, i, r)
    ensures InStep(Apply(s, a), i, With(r, a, i))
  {
    if !a.Call? && a.i == i {
      assert TaskOk(s, i);
      OwnStepInStep(s, a, r);
    } else {
      assert With(r, a, i) == r;
      if i < |s.tasks| {
        OthersKeepCall(s, a, i);
        if s.tasks[i].hasRow {
          OthersKeepRow(s, a, i);
        }
      }
    }
  }

  lemma {:induction false} RunInStep(run: seq<Action>, i: TaskId)
    requires IsRun(INITIAL, run)
    ensures InStep(After(INITIAL, run), i, ReportsOf(run, i))
    decreases |run|
  {
    if run != [] {
      var n := |run| - 1;
      LastStep(run);
      RunInStep(run[..n], i);
      RunKeepsInv(INITIAL, run[..n]);
      StepInStep(After(INITIAL, run[..n]), run[n], i, ReportsOf(run[..n], i));
      assert run == run[..n] + [run[n]];
    }
  }

  /** In every state of every interleaving a job's row holds what its own starter and runner reported,
      whatever other tasks did: succeeded exactly when the runner's mark was ok, failed exactly when
      it was not or the start failed. */
  lemma RowSaysWhatWasReported(run: seq<Action>, i: TaskId)
    requires IsRun(INITIAL, run)
    requires i < |After(INITIAL, run).tasks| && After(INITIAL, run).tasks[i].hasRow
    ensures var s := After(INITIAL, run);
      var job := s.tasks[i].job;
      && job in s.rows && s.rows[job] == Reported(ReportsOf(run, i))
      && (s.rows[job] == SucceededRow <==> RunnerMark(i, true) in run)
      && (s.rows[job] == FailedRow <==> RunnerMark(i, false) in run || MarkFailed(i) in run)
  {
    RunInStep(run, i);
    RunKeepsInv(INITIAL, run);
    assert TaskOk(After(INITIAL, run), i);
  }

  /** The outcome a runner marks is the job's status in every later state. */
  lemma MarkedOutcomeStays(run0: seq<Action>, i: TaskId, ok: bool, run: seq<Action>)
    requires IsRun(INITIAL, run0) && Enabled(After(INITIAL, run0), RunnerMark(i, ok))
    requires IsRun(Apply(After(INITIAL, run0), RunnerMark(i, ok)), run)
    ensures var s := After(Apply(After(INITIAL, run0), RunnerMark(i, ok)), run);
      && i < |s.tasks| && s.tasks[i].job == After(INITIAL, run0).tasks[i].job && s.tasks[i].job in s.rows
      && s.rows[s.tasks[i].job] == if ok then SucceededRow else FailedRow
  {
    var a := RunnerMark(i, ok);
    var s0 := After(INITIAL, run0);
    RunKeepsInv(INITIAL, run0);
    assert TaskOk(s0, i);
    OneStep(s0, a);
    RunSplits(INITIAL, run0, [a]);
    RunSplits(INITIAL, run0 + [a], run);
    KeepsJob(Apply(s0, a), run, i);
    assert (run0 + [a] + run)[|run0|] == a;
    RowSaysWhatWasReported(run0 + [a] + run, i);
  }

  /** A start that fails after creating its row leaves the job failed for good. */
  lemma FailedStartStaysFailed(run0: seq<Action>, i: TaskId, run: seq<Action>)
    requires IsRun(INITIAL, run0) && Enabled(After(INITIAL, run0), MarkFailed(i))
    requires After(INITIAL, run0).tasks[i].hasRow && IsRun(Apply(After(INITIAL, run0), MarkFailed(i)), run)
    ensures var s := After(Apply(After(INITIAL, run0), MarkFailed(i)), run);
      && i < |s.tasks| && s.tasks[i].job == After(INITIAL, run0).tasks[i].job && s.tasks[i].job in s.rows
      && s.rows[s.tasks[i].job] == FailedRow
  {
    var a := MarkFailed(i);
    var s0 := After(INITIAL, run0);
    OneStep(s0, a);
    RunSplits(INITIAL, run0, [a]);
    RunSplits(INITIAL, run0 + [a], run);
    KeepsJob(Apply(s0, a), run, i);
    assert (run0 + [a] + run)[|run0|] == a;
    RowSaysWhatWasReported(run0 + [a] + run, i);
  }

  lemma StepKeepsJob(s: State, a: Action, i: TaskId)
    requires Enabled(s, a) && i < |s.tasks|
    ensures var s' := Apply(s, a);
      i < |s'.tasks| && s'.tasks[i].job == s.tasks[i].job && (s.tasks[i].hasRow ==> s'.tasks[i].hasRow)
  {
  }

  lemma {:induction false} KeepsJob(s: State, run: seq<Action>, i: TaskId)
    requires IsRun(s, run) && i < |s.tasks|
    ensures var s' := After(s, run);
      i < |s'.tasks| && s'.tasks[i].job == s.tasks[i].job && (s.tasks[i].hasRow ==> s'.tasks[i].hasRow)
    decreases |run|
  {
    if run != [] {
      StepKeepsJob(s, run[0], i);
      KeepsJob(Apply(s, run[0]), run[1..], i);
    }
  }

  /** What a joiner reads once the completion it joined is finished: success exactly when the shared
      runner reported success. */
  lemma JoinersSeeOutcome(run: seq<Action>, j: TaskId)
    requires IsRun(INITIAL, run)
    requires var s := After(INITIAL, run);
      j < |s.tasks| && s.tasks[j].starter.Joined? && s.tasks[j].starter.shared.completion in s.finished
    ensures var s := After(INITIAL, run);
      var e := s.tasks[j].starter.shared;
      && e.completion < |s.tasks|
      && (s.tasks[e.completion].hasRow ==>
            e.job in s.rows
            && s.rows[e.job] == if RunnerMark(e.completion, true) in run then SucceededRow else FailedRow)
  {
    JoinersSeeTerminalJobs(run, j);
    var s := After(INITIAL, run);
    var e := s.tasks[j].starter.shared;
    if s.tasks[e.completion].hasRow {
      RowSaysWhatWasReported(run, e.completion);
    }
  }
}
