/** The shape of export runs: prefixes, extensions, and the runs that show what can go wrong. */
module ExportRuns {
  import opened Wrappers
  import opened ExportModel

  lemma {:induction false} RunSplits(s: State, a: seq<Action>, b: seq<Action>)
    requires IsRun(s, a) && IsRun(After(s, a), b)
    ensures IsRun(s, a + b) && After(s, a + b) == After(After(s, a), b)
    decreases |a|
  {
    if a == [] {
      assert a + b == b;
    } else {
      assert (a + b)[0] == a[0] && (a + b)[1..] == a[1..] + b;
      RunSplits(Apply(s, a[0]), a[1..], b);
    }
  }

  lemma OneStep(s: State, a: Action)
    requires Enabled(s, a)
    ensures IsRun(s, [a]) && After(s, [a]) == Apply(s, a)
  {
    assert [a][1..] == [];
    assert IsRun(Apply(s, a), []);
  }

  lemma {:induction false} PrefixIsRun(s: State, run: seq<Action>, n: nat)
    requires IsRun(s, run) && n <= |run|
    ensures IsRun(s, run[..n]) && IsRun(After(s, run[..n]), run[n..])
    decreases n
  {
    if n > 0 {
      PrefixIsRun(Apply(s, run[0]), run[1..], n - 1);
      assert run[..n][1..] == run[1..][..n - 1] && run[1..][n - 1..] == run[n..];
    }
  }

  /** The state before action `n` of a run. */
  function Before(run: seq<Action>, n: nat): State
    requires IsRun(INITIAL, run) && n <= |run|
  {
    PrefixIsRun(INITIAL, run, n);
    After(INITIAL, run[..n])
  }

  lemma LastStep(run: seq<Action>)
    requires IsRun(INITIAL, run) && run != []
    ensures var n := |run| - 1;
      IsRun(INITIAL, run[..n]) && Enabled(After(INITIAL, run[..n]), run[n])
      && After(INITIAL, run) == Apply(After(INITIAL, run[..n]), run[n])
  {
    var n := |run| - 1;
    PrefixIsRun(INITIAL, run, n);
    assert run[n..] == [run[n]];
    OneStep(After(INITIAL, run[..n]), run[n]);
    RunSplits(INITIAL, run[..n], [run[n]]);
    assert run[..n] + [run[n]] == run;
  }

  // ----- witnesses -------------------------------------------------------------------------

  /** Appending an enabled action to a run. */
  lemma Extend(run: seq<Action>, s: State, a: Action, s': State) returns (longer: seq<Action>)
    requires IsRun(INITIAL, run) && After(INITIAL, run) == s && Enabled(s, a) && Apply(s, a) == s'
    ensures longer == run + [a] && IsRun(INITIAL, longer) && After(INITIAL, longer) == s'
  {
    OneStep(s, a);
    RunSplits(INITIAL, run, [a]);
    longer := run + [a];
  }

  function Arrival(k: Key, job: JobId): Task {
    Task(k, job, Admitting, Absent, false)
  }

  function Submission(k: Key, job: JobId): Task {
    Task(k, job, Accepted, Queued, true)
  }

  lemma RunToInstalled(k: Key, job: JobId) returns (run: seq<Action>)
    ensures IsRun(INITIAL, run)
    ensures After(INITIAL, run) ==
            State(map[k := Entry(job, 0)], {}, {}, map[], [Arrival(k, job).(starter := Installed)])
  {
    var t := Arrival(k, job);
    var s1 := State(map[], {}, {}, map[], [t]);
    run := Extend([], INITIAL, Call(k, job), s1);
    run := Extend(run, s1, Admit(0), State(map[k := Entry(job, 0)], {}, {}, map[], [t.(starter := Installed)]));
  }

  lemma RunToSubmission(k: Key, job: JobId) returns (run: seq<Action>)
    ensures IsRun(INITIAL, run)
    ensures After(INITIAL, run) ==
            State(map[k := Entry(job, 0)], {}, {}, map[job := QueuedRow], [Submission(k, job)])
  {
    var e := map[k := Entry(job, 0)];
    var t := Arrival(k, job);
    var s2 := State(e, {}, {}, map[], [t.(starter := Installed)]);
    var s3 := State(e, {}, {}, map[job := QueuedRow], [t.(starter := RowCreated, hasRow := true)]);
    run := RunToInstalled(k, job);
    run := Extend(run, s2, CreateRow(0, true), s3);
    run := Extend(run, s3, Accept(0), State(e, {}, {}, map[job := QueuedRow], [Submission(k, job)]));
  }

  lemma RunToMarked(k: Key, job: JobId) returns (run: seq<Action>)
    ensures IsRun(INITIAL, run)
    ensures After(INITIAL, run) ==
            State(map[k := Entry(job, 0)], {}, {}, map[job := SucceededRow], [Submission(k, job).(runner := Marked)])
  {
    var e := map[k := Entry(job, 0)];
    var q := Submission(k, job);
    var s2 := State(e, {}, {}, map[job := RunningRow], [q.(runner := Running)]);
    run := RunToSubmission(k, job);
    run := Extend(run, State(e, {}, {}, map[job := QueuedRow], [q]), RunnerStart(0), s2);
    run := Extend(run, s2, RunnerMark(0, true), State(e, {}, {}, map[job := SucceededRow], [q.(runner := Marked)]));
  }

  lemma RunToEarlyFinish(k: Key, job: JobId) returns (run: seq<Action>)
    ensures IsRun(INITIAL, run)
    ensures After(INITIAL, run) ==
            State(map[], {0}, {}, map[job := SucceededRow], [Submission(k, job).(runner := Cleaned)])
  {
    var e := map[k := Entry(job, 0)];
    var q := Submission(k, job);
    var rows := map[job := SucceededRow];
    var s4 := State(e, {0}, {}, rows, [q.(runner := Finished(false))]);
    run := RunToMarked(k, job);
    run := Extend(run, State(e, {}, {}, rows, [q.(runner := Marked)]), RunnerFinish(0), s4);
    run := Extend(run, s4, RunnerClean(0), State(map[], {0}, {}, rows, [q.(runner := Cleaned)]));
  }

  /** The leak exists: a runner that finishes before its starter recorded the worker leaves its
      finished future in `export_workers`. */
  lemma FinishedFutureCanStay(k: Key, job: JobId) returns (run: seq<Action>)
    ensures IsRun(INITIAL, run)
    ensures var s := After(INITIAL, run);
      && |s.tasks| == 1 && s.tasks[0].starter.Returned? && s.tasks[0].runner.Over?
      && s.workers == {0} && s.inflight == map[]
  {
    var q := Submission(k, job).(runner := Cleaned);
    var rows := map[job := SucceededRow];
    var s2 := State(map[], {0}, {}, rows, [q.(starter := RefSet)]);
    var s3 := State(map[], {0}, {0}, rows, [q.(starter := Returned)]);
    var s4 := State(map[], {0}, {0}, rows, [q.(starter := Returned, runner := Over)]);
    run := RunToEarlyFinish(k, job);
    run := Extend(run, State(map[], {0}, {}, rows, [q]), SetRef(0), s2);
    run := Extend(run, s2, Track(0), s3);
    run := Extend(run, s3, FutureDone(0), s4);
  }

  lemma RunToJoined(k: Key, job: JobId, other: JobId) returns (run: seq<Action>)
    ensures IsRun(INITIAL, run)
    ensures var e := Entry(job, 0);
      After(INITIAL, run) ==
      State(map[k := e], {}, {}, map[],
            [Arrival(k, job).(starter := Installed), Arrival(k, other).(starter := Joined(e))])
  {
    var e := Entry(job, 0);
    var t := Arrival(k, job).(starter := Installed);
    var s2 := State(map[k := e], {}, {}, map[], [t, Arrival(k, other)]);
    run := RunToInstalled(k, job);
    run := Extend(run, State(map[k := e], {}, {}, map[], [t]), Call(k, other), s2);
    run := Extend(run, s2, Admit(1), State(map[k := e], {}, {}, map[], [t, Arrival(k, other).(starter := Joined(e))]));
  }

  /** A joiner can be left without a job: the starter it joined failed to create the row. */
  lemma JoinerCanFindNoRow(k: Key, job: JobId, other: JobId) returns (run: seq<Action>)
    ensures IsRun(INITIAL, run)
    ensures var s := After(INITIAL, run);
      && |s.tasks| == 2 && s.tasks[1].key == k && s.tasks[1].job == other
      && s.tasks[1].starter == Joined(Entry(job, 0)) && 0 in s.finished && job !in s.rows
  {
    var e := Entry(job, 0);
    var t := Arrival(k, job);
    var u := Arrival(k, other).(starter := Joined(e));
    var s2 := State(map[k := e], {}, {}, map[], [t.(starter := Failing(None)), u]);
    var s3 := State(map[k := e], {}, {}, map[], [t.(starter := FailMarked(None)), u]);
    run := RunToJoined(k, job, other);
    run := Extend(run, State(map[k := e], {}, {}, map[], [t.(starter := Installed), u]), CreateRow(0, false), s2);
    run := Extend(run, s2, MarkFailed(0), s3);
    run := Extend(run, s3, FinishFailed(0), State(map[k := e], {0}, {}, map[], [t.(starter := FailFinished(None)), u]));
  }
}
