/** What every interleaving of export starters and runners guarantees. */
module ExportTheorems {
  import opened Wrappers
  import opened ExportModel

  // ----- the invariant ---------------------------------------------------------------------

  predicate Terminal(r: Status) { r.SucceededRow? || r.FailedRow? }

  /** Installed by its starter and not yet finished. */
  predicate Unfinished(t: Task) {
    || t.starter.Installed? || t.starter.RowCreated? || t.starter.Failing? || t.starter.FailMarked?
    || t.runner.Queued? || t.runner.Running? || t.runner.Marked?
  }

  /** Finished, with its guarded pop still to come. */
  predicate Cleaning(t: Task) { t.starter.FailFinished? || t.runner.Finished? }

  /** No step of this task is left that touches the map. */
  predicate Settled(t: Task) { !t.starter.Admitting? && !Unfinished(t) && !Cleaning(t) }

  predicate Submitted(p: Starter) { p.Accepted? || p.RefSet? || p.Returned? }

  predicate TaskOk(s: State, i: TaskId)
    requires i < |s.tasks|
  {
    var t := s.tasks[i];
    && (Submitted(t.starter) <==> !t.runner.Absent?)
    && (Unfinished(t) ==> i !in s.finished && t.key in s.inflight && s.inflight[t.key] == Entry(t.job, i))
    && (t.starter.Admitting? ==> i !in s.finished)
    && (Cleaning(t) || t.runner.Cleaned? || t.runner.Over? || t.starter.Raised? ==> i in s.finished)
    && (t.hasRow ==> t.job in s.rows)
    && (t.starter.RowCreated? || Submitted(t.starter) ==> t.hasRow)
    && (t.starter.Admitting? || t.starter.Installed? || t.starter.Joined? ==> !t.hasRow)
    && (t.hasRow && (i in s.finished || t.runner.Marked? || t.starter.FailMarked?) ==> Terminal(s.rows[t.job]))
  }

  /** Only futures of returned starters are tracked, and a runner that found its worker recorded
      runs beside a starter that has recorded it. */
  predicate WorkerOk(s: State, i: TaskId)
    requires i < |s.tasks|
  {
    var t := s.tasks[i];
    && (i in s.workers ==> t.starter.Returned?)
    && (t.runner == Finished(true) ==> t.starter.RefSet? || t.starter.Returned?)
  }

  predicate TasksOk(s: State) {
    forall i | 0 <= i < |s.tasks| :: TaskOk(s, i)
  }

  predicate WorkersOk(s: State) {
    && (forall i | 0 <= i < |s.tasks| :: WorkerOk(s, i))
    && (forall i | i in s.finished :: i < |s.tasks|)
    && (forall i | i in s.workers :: i < |s.tasks|)
  }

  /** Every entry belongs to a task that is still going to remove it. */
  predicate EntryOk(s: State, k: Key)
    requires k in s.inflight
  {
    var i := s.inflight[k].completion;
    && i < |s.tasks| && s.tasks[i].key == k && s.tasks[i].job == s.inflight[k].job
    && (Unfinished(s.tasks[i]) || Cleaning(s.tasks[i]))
  }

  predicate EntriesOk(s: State) {
    forall k | k in s.inflight :: EntryOk(s, k)
  }

  predicate RowApart(s: State, i: TaskId, j: TaskId)
    requires i < |s.tasks| && j < |s.tasks|
  {
    s.tasks[i].hasRow && s.tasks[j].hasRow ==> s.tasks[i].job != s.tasks[j].job
  }

  /** A job row has one creator. */
  predicate RowsOk(s: State) {
    forall i, j | 0 <= i < |s.tasks| && 0 <= j < |s.tasks| && i != j :: RowApart(s, i, j)
  }

  /** Rows are created by starters only. */
  predicate Owned(s: State, r: JobId) {
    exists i :: 0 <= i < |s.tasks| && s.tasks[i].hasRow && s.tasks[i].job == r
  }

  predicate OwnersOk(s: State) {
    forall r | r in s.rows :: Owned(s, r)
  }

  predicate JoinOk(s: State, i: TaskId)
    requires i < |s.tasks|
  {
    s.tasks[i].starter.Joined? ==>
      var e := s.tasks[i].starter.shared;
      && e.completion < |s.tasks| && s.tasks[e.completion].job == e.job && s.tasks[e.completion].key == s.tasks[i].key
      && !s.tasks[e.completion].starter.Admitting?
  }

  predicate JoinsOk(s: State) {
    forall i | 0 <= i < |s.tasks| :: JoinOk(s, i)
  }

  predicate Inv(s: State) {
    TasksOk(s) && WorkersOk(s) && EntriesOk(s) && RowsOk(s) && OwnersOk(s) && JoinsOk(s)
  }

  /** What a step of one task leaves alone of another. */
  lemma OthersKeepCall(s: State, a: Action, i: TaskId)
    requires TasksOk(s) && Enabled(s, a) && i < |s.tasks| && (a.Call? || a.i != i)
    ensures var s', t := Apply(s, a), s.tasks[i];
      && |s.tasks| <= |s'.tasks| && s'.tasks[i] == t
      && (i in s'.finished <==> i in s.finished)
  {
    if !a.Call? {
      assert TaskOk(s, a.i);
    }
  }

  lemma OthersKeepRow(s: State, a: Action, i: TaskId)
    requires TasksOk(s) && RowsOk(s) && Enabled(s, a) && i < |s.tasks| && (a.Call? || a.i != i)
    requires s.tasks[i].hasRow
    ensures var s', j := Apply(s, a), s.tasks[i].job;
      j in s.rows && j in s'.rows && s'.rows[j] == s.rows[j]
  {
    assert TaskOk(s, i);
    if !a.Call? {
      assert TaskOk(s, a.i) && RowApart(s, i, a.i);
    }
  }

  lemma OthersKeepEntry(s: State, a: Action, i: TaskId)
    requires TasksOk(s) && EntriesOk(s) && Enabled(s, a) && i < |s.tasks| && (a.Call? || a.i != i)
    requires Unfinished(s.tasks[i])
    ensures var s', k := Apply(s, a), s.tasks[i].key;
      k in s.inflight && k in s'.inflight && s'.inflight[k] == s.inflight[k]
  {
    assert TaskOk(s, i);
    if !a.Call? {
      assert TaskOk(s, a.i);
    }
  }

  lemma OthersFrame(s: State, a: Action, i: TaskId)
    requires TasksOk(s) && EntriesOk(s) && RowsOk(s) && Enabled(s, a) && i < |s.tasks| && (a.Call? || a.i != i)
    ensures var s', t := Apply(s, a), s.tasks[i];
      && |s.tasks| <= |s'.tasks| && s'.tasks[i] == t
      && (i in s'.finished <==> i in s.finished)
      && (t.hasRow ==> t.job in s.rows && t.job in s'.rows && s'.rows[t.job] == s.rows[t.job])
      && (Unfinished(t) ==> t.key in s.inflight && t.key in s'.inflight && s'.inflight[t.key] == s.inflight[t.key])
  {
    OthersKeepCall(s, a, i);
    if s.tasks[i].hasRow {
      OthersKeepRow(s, a, i);
    }
    if Unfinished(s.tasks[i]) {
      OthersKeepEntry(s, a, i);
    }
  }

  lemma OthersKeepTask(s: State, a: Action, i: TaskId)
    requires TasksOk(s) && EntriesOk(s) && RowsOk(s) && Enabled(s, a) && i < |s.tasks| && (a.Call? || a.i != i)
    ensures |s.tasks| <= |Apply(s, a).tasks| && TaskOk(Apply(s, a), i)
  {
    assert TaskOk(s, i);
    OthersFrame(s, a, i);
  }

  lemma OwnStepKeepsTask(s: State, a: Action)
    requires Enabled(s, a) && !a.Call? && TaskOk(s, a.i)
    ensures TaskOk(Apply(s, a), a.i)
  {
  }

  lemma StepKeepsTasks(s: State, a: Action)
    requires Inv(s) && Enabled(s, a)
    ensures TasksOk(Apply(s, a))
  {
    var s' := Apply(s, a);
    forall i | 0 <= i < |s'.tasks| ensures TaskOk(s', i) {
      if !a.Call? && i == a.i {
        assert TaskOk(s, i);
        OwnStepKeepsTask(s, a);
      } else if i < |s.tasks| {
        OthersKeepTask(s, a, i);
      }
    }
  }

  lemma StepKeepsWorkers(s: State, a: Action)
    requires TasksOk(s) && WorkersOk(s) && Enabled(s, a)
    ensures WorkersOk(Apply(s, a))
  {
    var s' := Apply(s, a);
    if !a.Call? {
      assert TaskOk(s, a.i);
    }
    forall i | 0 <= i < |s'.tasks| ensures WorkerOk(s', i) {
      if i < |s.tasks| {
        assert WorkerOk(s, i);
      }
    }
  }

  /** The three sections that change the map. */
  predicate ChangesMap(a: Action) { a.Admit? || a.CleanFailed? || a.RunnerClean? }

  lemma OtherStepsKeepMap(s: State, a: Action)
    requires Enabled(s, a) && !ChangesMap(a)
    ensures Apply(s, a).inflight == s.inflight
  {
  }

  /** A task that has still to pop its entry does so by its own cleanup only. */
  lemma OtherStepsKeepOwners(s: State, a: Action, i: TaskId)
    requires TasksOk(s) && Enabled(s, a) && i < |s.tasks|
    requires Unfinished(s.tasks[i]) || Cleaning(s.tasks[i])
    ensures var s', t := Apply(s, a), s.tasks[i];
      && |s.tasks| <= |s'.tasks| && s'.tasks[i].key == t.key && s'.tasks[i].job == t.job
      && (Unfinished(s'.tasks[i]) || Cleaning(s'.tasks[i]) || ((a.CleanFailed? || a.RunnerClean?) && a.i == i))
  {
    assert TaskOk(s, i);
  }

  lemma StepKeepsEntry(s: State, a: Action, k: Key)
    requires TasksOk(s) && EntriesOk(s) && Enabled(s, a) && k in Apply(s, a).inflight
    ensures EntryOk(Apply(s, a), k)
  {
    if !ChangesMap(a) {
      OtherStepsKeepMap(s, a);
    }
    if k in s.inflight && Apply(s, a).inflight[k] == s.inflight[k] {
      assert EntryOk(s, k);
      OtherStepsKeepOwners(s, a, s.inflight[k].completion);
    }
  }

  lemma StepKeepsEntries(s: State, a: Action)
    requires TasksOk(s) && EntriesOk(s) && Enabled(s, a)
    ensures EntriesOk(Apply(s, a))
  {
    var s' := Apply(s, a);
    forall k | k in s'.inflight ensures EntryOk(s', k) {
      StepKeepsEntry(s, a, k);
    }
  }

  /** Only a creation that found no row sets `hasRow`. */
  lemma StepCreates(s: State, a: Action, i: TaskId)
    requires Enabled(s, a) && i < |Apply(s, a).tasks| && Apply(s, a).tasks[i].hasRow
    ensures i < |s.tasks| && Apply(s, a).tasks[i].job == s.tasks[i].job
    ensures s.tasks[i].hasRow || (a.CreateRow? && a.i == i && s.tasks[i].job !in s.rows)
  {
  }

  lemma StepKeepsRows(s: State, a: Action)
    requires TasksOk(s) && RowsOk(s) && Enabled(s, a)
    ensures RowsOk(Apply(s, a))
  {
    var s' := Apply(s, a);
    forall i, j | 0 <= i < |s'.tasks| && 0 <= j < |s'.tasks| && i != j ensures RowApart(s', i, j) {
      if s'.tasks[i].hasRow && s'.tasks[j].hasRow {
        StepCreates(s, a, i);
        StepCreates(s, a, j);
        assert TaskOk(s, i) && TaskOk(s, j) && RowApart(s, i, j);
      }
    }
  }

  lemma StepKeepsOwners(s: State, a: Action)
    requires TasksOk(s) && OwnersOk(s) && Enabled(s, a)
    ensures OwnersOk(Apply(s, a))
  {
    var s' := Apply(s, a);
    forall r | r in s'.rows ensures Owned(s', r) {
      if r in s.rows {
        assert Owned(s, r);
        var i :| 0 <= i < |s.tasks| && s.tasks[i].hasRow && s.tasks[i].job == r;
        assert s'.tasks[i].hasRow && s'.tasks[i].job == r;
      } else {
        assert TaskOk(s, a.i);
        assert s'.tasks[a.i].hasRow && s'.tasks[a.i].job == r;
      }
    }
  }

  /** Keys and jobs of tasks never change, and no task goes back to admission. */
  lemma StepKeepsIdentity(s: State, a: Action, i: TaskId)
    requires Enabled(s, a) && i < |s.tasks|
    ensures var t, t' := s.tasks[i], Apply(s, a).tasks[i];
      t'.key == t.key && t'.job == t.job && (t'.starter.Admitting? ==> t.starter.Admitting?)
  {
  }

  lemma StepKeepsJoin(s: State, a: Action, i: TaskId)
    requires TasksOk(s) && EntriesOk(s) && JoinsOk(s) && Enabled(s, a) && i < |s.tasks|
    ensures |Apply(s, a).tasks| >= |s.tasks| && JoinOk(Apply(s, a), i)
  {
    var s' := Apply(s, a);
    assert JoinOk(s, i);
    if s'.tasks[i].starter.Joined? {
      var e := s'.tasks[i].starter.shared;
      if a.Admit? && a.i == i {
        assert EntryOk(s, s.tasks[i].key) && TaskOk(s, e.completion);
      }
      StepKeepsIdentity(s, a, e.completion);
      StepKeepsIdentity(s, a, i);
    }
  }

  lemma StepKeepsJoins(s: State, a: Action)
    requires TasksOk(s) && EntriesOk(s) && JoinsOk(s) && Enabled(s, a)
    ensures JoinsOk(Apply(s, a))
  {
    forall i | 0 <= i < |Apply(s, a).tasks| ensures JoinOk(Apply(s, a), i) {
      if i < |s.tasks| {
        StepKeepsJoin(s, a, i);
      }
    }
  }

  /** Every step keeps the invariant. */
  lemma StepKeepsInv(s: State, a: Action)
    requires Inv(s) && Enabled(s, a)
    ensures Inv(Apply(s, a))
  {
    StepKeepsTasks(s, a);
    StepKeepsWorkers(s, a);
    StepKeepsEntries(s, a);
    StepKeepsRows(s, a);
    StepKeepsOwners(s, a);
    StepKeepsJoins(s, a);
  }

  lemma {:induction false} RunKeepsInv(s: State, run: seq<Action>)
    requires Inv(s) && IsRun(s, run)
    ensures Inv(After(s, run))
    decreases |run|
  {
    if run != [] {
      StepKeepsInv(s, run[0]);
      RunKeepsInv(Apply(s, run[0]), run[1..]);
    }
  }

  // ----- single flight ---------------------------------------------------------------------

  /** Of one key at most one completion is installed and unfinished, and it is the one in the map;
      in particular no two runners of one key work at the same time. */
  lemma SingleFlight(run: seq<Action>, i: TaskId, j: TaskId)
    requires IsRun(INITIAL, run)
    requires var s := After(INITIAL, run);
      && i < |s.tasks| && j < |s.tasks| && Unfinished(s.tasks[i]) && Unfinished(s.tasks[j])
      && s.tasks[i].key == s.tasks[j].key
    ensures var s := After(INITIAL, run);
      i == j && s.tasks[i].key in s.inflight && s.inflight[s.tasks[i].key] == Entry(s.tasks[i].job, i)
  {
    RunKeepsInv(INITIAL, run);
    var s := After(INITIAL, run);
    assert TaskOk(s, i) && TaskOk(s, j);
  }

  /** What a step does to one entry. */
  lemma StepOnEntry(s: State, a: Action, k: Key)
    requires TasksOk(s) && Enabled(s, a) && k in s.inflight && s.inflight[k].completion < |s.tasks|
    ensures var e, s' := s.inflight[k], Apply(s, a);
      && (Alive(s, e) ==> k in s'.inflight && s'.inflight[k] == e)
      && (k !in s'.inflight ==> (a.CleanFailed? || a.RunnerClean?) && a.i == e.completion)
      && (k in s'.inflight && s'.inflight[k] != e ==> a.Admit? && s'.inflight[k].completion == a.i)
  {
    if ChangesMap(a) {
      assert TaskOk(s, a.i);
    } else {
      OtherStepsKeepMap(s, a);
    }
  }

  /** No step of any task removes or replaces the entry of a completion that is not finished, and
      only the task itself or a new installer ever removes a finished one. */
  lemma NoEviction(run: seq<Action>, a: Action, k: Key)
    requires IsRun(INITIAL, run) && Enabled(After(INITIAL, run), a)
    requires k in After(INITIAL, run).inflight
    ensures var s := After(INITIAL, run);
      var e := s.inflight[k];
      var s' := Apply(s, a);
      && (Alive(s, e) ==> k in s'.inflight && s'.inflight[k] == e)
      && (k !in s'.inflight ==> (a.CleanFailed? || a.RunnerClean?) && a.i == e.completion)
      && (k in s'.inflight && s'.inflight[k] != e ==> a.Admit? && s'.inflight[k].completion == a.i)
  {
    RunKeepsInv(INITIAL, run);
    assert EntryOk(After(INITIAL, run), k);
    StepOnEntry(After(INITIAL, run), a, k);
  }

  /** A key none of whose tasks is in progress has no entry. */
  lemma QuietKeyHasNoEntry(run: seq<Action>, k: Key)
    requires IsRun(INITIAL, run)
    requires var s := After(INITIAL, run); forall i | 0 <= i < |s.tasks| && s.tasks[i].key == k :: Settled(s.tasks[i])
    ensures k !in After(INITIAL, run).inflight
  {
    RunKeepsInv(INITIAL, run);
  }

  // ----- joiners -----------------------------------------------------------------------------

  /** Whoever joined a completion finds, once it is finished, the job it was told in a terminal
      state if its row was created; and when job ids are not reused, there is a row at all exactly
      in that case. */
  lemma JoinersSeeTerminalJobs(run: seq<Action>, j: TaskId)
    requires IsRun(INITIAL, run)
    requires var s := After(INITIAL, run);
      j < |s.tasks| && s.tasks[j].starter.Joined? && s.tasks[j].starter.shared.completion in s.finished
    ensures var s := After(INITIAL, run);
      var e := s.tasks[j].starter.shared;
      && e.completion < |s.tasks| && s.tasks[e.completion].job == e.job && s.tasks[e.completion].key == s.tasks[j].key
      && (s.tasks[e.completion].hasRow ==> e.job in s.rows && Terminal(s.rows[e.job]))
      && ((forall i | 0 <= i < |s.tasks| && i != e.completion :: s.tasks[i].job != e.job) ==>
            (e.job in s.rows <==> s.tasks[e.completion].hasRow))
  {
    RunKeepsInv(INITIAL, run);
    var s := After(INITIAL, run);
    var e := s.tasks[j].starter.shared;
    assert JoinOk(s, j) && TaskOk(s, e.completion);
    if e.job in s.rows {
      assert Owned(s, e.job);
    }
  }

  /** A job row is settled once: after a completion is finished no step changes its job's row. */
  lemma FinishedJobsStaySettled(run: seq<Action>, a: Action, i: TaskId)
    requires IsRun(INITIAL, run) && Enabled(After(INITIAL, run), a)
    requires var s := After(INITIAL, run); i < |s.tasks| && i in s.finished && s.tasks[i].hasRow
    ensures var s := After(INITIAL, run);
      var s' := Apply(s, a);
      && s.tasks[i].job in s.rows && Terminal(s.rows[s.tasks[i].job])
      && s.tasks[i].job in s'.rows && s'.rows[s.tasks[i].job] == s.rows[s.tasks[i].job]
  {
    RunKeepsInv(INITIAL, run);
    var s := After(INITIAL, run);
    assert TaskOk(s, i);
    if a.Call? || a.i != i {
      OthersFrame(s, a, i);
    }
  }

  /** When nothing is in progress the map is empty, every installed completion is finished and
      every created job row is terminal. */
  lemma QuietMeansClean(run: seq<Action>)
    requires IsRun(INITIAL, run)
    requires var s := After(INITIAL, run); forall i | 0 <= i < |s.tasks| :: Settled(s.tasks[i])
    ensures var s := After(INITIAL, run);
      && s.inflight == map[]
      && forall i | 0 <= i < |s.tasks| && s.tasks[i].hasRow ::
           i in s.finished && s.tasks[i].job in s.rows && Terminal(s.rows[s.tasks[i].job])
  {
    RunKeepsInv(INITIAL, run);
    var s := After(INITIAL, run);
    forall i | 0 <= i < |s.tasks| && s.tasks[i].hasRow
      ensures i in s.finished && s.tasks[i].job in s.rows && Terminal(s.rows[s.tasks[i].job])
    {
      assert TaskOk(s, i);
    }
  }
}
