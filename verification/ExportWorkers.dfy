/** When a finished export future stays in `export_workers`. */
module ExportWorkers {
  import opened Wrappers
  import opened ExportModel
  import opened ExportTheorems
  import opened ExportRuns

  /** The starter adds the future although its runner has already cleaned up, or is about to without
      knowing it, and although the queue has not marked it done. */
  predicate AddsLate(s: State, a: Action, i: TaskId) {
    a == Track(i) && i < |s.tasks| && (s.tasks[i].runner == Finished(false) || s.tasks[i].runner.Cleaned?)
  }

  /** A failed start was handed this very future by the queue and takes it out. */
  predicate TakesOut(s: State, a: Action, i: TaskId) {
    a.CleanFailed? && a.i < |s.tasks| && s.tasks[a.i].starter == FailFinished(Some(i))
  }

  /** Among the first `n` moments one puts something in and no later one takes it out. */
  ghost predicate Lasts(puts: nat -> bool, takes: nat -> bool, n: nat) {
    exists p: nat :: p < n && puts(p) && forall q: nat | p < q < n :: !takes(q)
  }

  function LateIn(run: seq<Action>, i: TaskId): nat -> bool
    requires IsRun(INITIAL, run)
  {
    (p: nat) => p < |run| && IsRun(INITIAL, run) && AddsLate(Before(run, p), run[p], i)
  }

  function OutIn(run: seq<Action>, i: TaskId): nat -> bool
    requires IsRun(INITIAL, run)
  {
    (q: nat) => q < |run| && IsRun(INITIAL, run) && TakesOut(Before(run, q), run[q], i)
  }

  /** Some action of the run adds the future late and none takes it out again. */
  ghost predicate LeftBehind(run: seq<Action>, i: TaskId)
    requires IsRun(INITIAL, run)
  {
    Lasts(LateIn(run, i), OutIn(run, i), |run|)
  }

  /** How `late`, the history of one future, shows in the state. */
  predicate Follows(s: State, i: TaskId, late: bool) {
    && (late ==> i in s.workers)
    && (i in s.workers ==>
          && i < |s.tasks|
          && var r := s.tasks[i].runner;
             if late then r == Finished(false) || r.Cleaned? || r.Over?
             else r.Queued? || r.Running? || r.Marked? || r == Finished(true))
  }

  lemma OwnStepFollows(s: State, a: Action, late: bool)
    requires Enabled(s, a) && !a.Call? && TaskOk(s, a.i) && WorkerOk(s, a.i) && Follows(s, a.i, late)
    ensures Follows(Apply(s, a), a.i, (late && !TakesOut(s, a, a.i)) || AddsLate(s, a, a.i))
  {
  }

  lemma OtherStepFollows(s: State, a: Action, i: TaskId, late: bool)
    requires WorkersOk(s) && Enabled(s, a) && (a.Call? || a.i != i) && Follows(s, i, late)
    ensures Follows(Apply(s, a), i, (late && !TakesOut(s, a, i)) || AddsLate(s, a, i))
  {
  }

  lemma StepFollows(s: State, a: Action, i: TaskId, late: bool)
    requires Inv(s) && Enabled(s, a) && Follows(s, i, late)
    ensures Follows(Apply(s, a), i, (late && !TakesOut(s, a, i)) || AddsLate(s, a, i))
  {
    if !a.Call? && a.i == i {
      assert TaskOk(s, i) && WorkerOk(s, i);
      OwnStepFollows(s, a, late);
    } else {
      OtherStepFollows(s, a, i, late);
    }
  }

  lemma LastsGrows(puts: nat -> bool, takes: nat -> bool, n: nat)
    ensures Lasts(puts, takes, n + 1) <==> (Lasts(puts, takes, n) && !takes(n)) || puts(n)
  {
  }

  lemma LastsSame(puts: nat -> bool, takes: nat -> bool, puts': nat -> bool, takes': nat -> bool, n: nat)
    requires forall p: nat | p < n :: puts(p) == puts'(p) && takes(p) == takes'(p)
    ensures Lasts(puts, takes, n) <==> Lasts(puts', takes', n)
  {
  }

  lemma SameEvent(run: seq<Action>, n: nat, i: TaskId, p: nat)
    requires IsRun(INITIAL, run) && p < n <= |run|
    ensures IsRun(INITIAL, run[..n])
    ensures LateIn(run[..n], i)(p) == LateIn(run, i)(p) && OutIn(run[..n], i)(p) == OutIn(run, i)(p)
  {
    PrefixIsRun(INITIAL, run, n);
    assert run[..n][..p] == run[..p];
  }

  /** One more action. */
  lemma LeftBehindGrows(run: seq<Action>, i: TaskId)
    requires IsRun(INITIAL, run) && run != []
    ensures var n := |run| - 1;
      && IsRun(INITIAL, run[..n])
      && (LeftBehind(run, i) <==> (LeftBehind(run[..n], i) && !OutIn(run, i)(n)) || LateIn(run, i)(n))
  {
    var n := |run| - 1;
    PrefixIsRun(INITIAL, run, n);
    var shorter := run[..n];
    forall p: nat | p < n
      ensures LateIn(shorter, i)(p) == LateIn(run, i)(p) && OutIn(shorter, i)(p) == OutIn(run, i)(p)
    {
      SameEvent(run, n, i, p);
    }
    LastsSame(LateIn(shorter, i), OutIn(shorter, i), LateIn(run, i), OutIn(run, i), n);
    LastsGrows(LateIn(run, i), OutIn(run, i), n);
  }

  lemma {:induction false} RunFollows(run: seq<Action>, i: TaskId)
    requires IsRun(INITIAL, run)
    ensures Follows(After(INITIAL, run), i, LeftBehind(run, i))
    decreases |run|
  {
    if run != [] {
      var n := |run| - 1;
      LastStep(run);
      RunFollows(run[..n], i);
      RunKeepsInv(INITIAL, run[..n]);
      StepFollows(After(INITIAL, run[..n]), run[n], i, LeftBehind(run[..n], i));
      LeftBehindGrows(run, i);
    }
  }

  /** When a task is over, its future is still in `export_workers` exactly when the starter added it
      after the runner's cleanup, or after the runner looked for it in vain, and before the queue
      marked it done, and no failed start took it out since. */
  lemma FutureStaysIff(run: seq<Action>, i: TaskId)
    requires IsRun(INITIAL, run)
    requires var s := After(INITIAL, run);
      i < |s.tasks| && s.tasks[i].starter.Returned? && s.tasks[i].runner.Over?
    ensures i in After(INITIAL, run).workers <==> LeftBehind(run, i)
  {
    RunFollows(run, i);
  }
}
