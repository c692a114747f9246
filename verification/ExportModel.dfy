/** Export single-flight as a step machine: both starters (`start_export_job`,
    `start_ready_external_export_job`) and their runners share `export_inflight`. The number of
    a task is the identity of the completion object its starter creates. */
module ExportModel {
  import opened Wrappers

  type TaskId = nat
  type JobId = string

  /** What `_export_key` identifies. */
  datatype Key = Key(problemId: int, sourceCommit: string, packageFormat: string)

  datatype Entry = Entry(job: JobId, completion: TaskId)

  datatype Status = QueuedRow | RunningRow | PackagingRow | SucceededRow | FailedRow

  datatype Starter =
    | Admitting
    | Joined(shared: Entry)
    | Installed
    | RowCreated
    | Accepted
    | RefSet
    | Returned
    | Failing(worker: Option<TaskId>)
    | FailMarked(worker: Option<TaskId>)
    | FailFinished(worker: Option<TaskId>)
    | Raised

  datatype Runner =
    | Absent
    | Queued
    | Running
    | Marked
    | Finished(knowsWorker: bool)
    | Cleaned
    | Over

  /** `hasRow` is the starter's `job_created`. */
  datatype Task = Task(key: Key, job: JobId, starter: Starter, runner: Runner, hasRow: bool)

  datatype State = State(
    inflight: map<Key, Entry>,
    finished: set<TaskId>,
    workers: set<TaskId>,
    rows: map<JobId, Status>,
    tasks: seq<Task>)

  datatype Action =
    | Call(key: Key, job: JobId)
    | Admit(i: TaskId)
    | CreateRow(i: TaskId, ok: bool)
    | Accept(i: TaskId)
    | Reject(i: TaskId, worker: Option<TaskId>)
    | SetRef(i: TaskId)
    | Track(i: TaskId)
    | MarkFailed(i: TaskId)
    | FinishFailed(i: TaskId)
    | CleanFailed(i: TaskId)
    | RunnerStart(i: TaskId)
    | RunnerPackage(i: TaskId)
    | RunnerMark(i: TaskId, ok: bool)
    | RunnerFinish(i: TaskId)
    | RunnerClean(i: TaskId)
    | FutureDone(i: TaskId)

  const INITIAL: State := State(map[], {}, {}, map[], [])

  function SetStarter(s: State, i: TaskId, p: Starter): State
    requires i < |s.tasks|
  {
    s.(tasks := s.tasks[i := s.tasks[i].(starter := p)])
  }

  function SetRunner(s: State, i: TaskId, p: Runner): State
    requires i < |s.tasks|
  {
    s.(tasks := s.tasks[i := s.tasks[i].(runner := p)])
  }

  predicate Alive(s: State, e: Entry) { e.completion !in s.finished }

  /** The locked check-and-install section: join a live completion, else replace the entry. */
  function AdmitOrJoin(s: State, i: TaskId): State
    requires i < |s.tasks|
  {
    var t := s.tasks[i];
    if t.key in s.inflight && Alive(s, s.inflight[t.key]) then SetStarter(s, i, Joined(s.inflight[t.key]))
    else SetStarter(s.(inflight := s.inflight[t.key := Entry(t.job, i)]), i, Installed)
  }

  /** The guarded pop: only the entry of this very completion is removed. */
  function PopOwn(s: State, i: TaskId): map<Key, Entry>
    requires i < |s.tasks|
  {
    var k := s.tasks[i].key;
    if k in s.inflight && s.inflight[k].completion == i then s.inflight - {k} else s.inflight
  }

  function Dropped(w: Option<TaskId>): set<TaskId> {
    if w.Some? then {w.value} else {}
  }

  predicate Enabled(s: State, a: Action) {
    match a
    case Call(_, _) => true
    case Admit(i) => i < |s.tasks| && s.tasks[i].starter.Admitting?
    case CreateRow(i, _) => i < |s.tasks| && s.tasks[i].starter.Installed?
    case Accept(i) => i < |s.tasks| && s.tasks[i].starter.RowCreated?
    case Reject(i, _) => i < |s.tasks| && s.tasks[i].starter.RowCreated?
    case SetRef(i) => i < |s.tasks| && s.tasks[i].starter.Accepted?
    case Track(i) => i < |s.tasks| && s.tasks[i].starter.RefSet?
    case MarkFailed(i) => i < |s.tasks| && s.tasks[i].starter.Failing?
    case FinishFailed(i) => i < |s.tasks| && s.tasks[i].starter.FailMarked?
    case CleanFailed(i) => i < |s.tasks| && s.tasks[i].starter.FailFinished?
    case RunnerStart(i) => i < |s.tasks| && s.tasks[i].runner.Queued?
    case RunnerPackage(i) => i < |s.tasks| && s.tasks[i].runner.Running?
    case RunnerMark(i, _) => i < |s.tasks| && s.tasks[i].runner.Running?
    case RunnerFinish(i) => i < |s.tasks| && s.tasks[i].runner.Marked?
    case RunnerClean(i) => i < |s.tasks| && s.tasks[i].runner.Finished?
    case FutureDone(i) => i < |s.tasks| && s.tasks[i].runner.Cleaned?
  }

  function Apply(s: State, a: Action): State
    requires Enabled(s, a)
  {
    match a
    case Call(key, job) => s.(tasks := s.tasks + [Task(key, job, Admitting, Absent, false)])
    case Admit(i) => AdmitOrJoin(s, i)
    case CreateRow(i, ok) =>
      // inserting an existing job id fails
      var t := s.tasks[i];
      if ok && t.job !in s.rows then
        s.(rows := s.rows[t.job := QueuedRow], tasks := s.tasks[i := t.(starter := RowCreated, hasRow := true)])
      else SetStarter(s, i, Failing(None))
    case Accept(i) => s.(tasks := s.tasks[i := s.tasks[i].(starter := Accepted, runner := Queued)])
    case Reject(i, worker) => SetStarter(s, i, Failing(worker))
    case SetRef(i) => SetStarter(s, i, RefSet)
    case Track(i) =>
      SetStarter(s.(workers := if s.tasks[i].runner.Over? then s.workers - {i} else s.workers + {i}), i, Returned)
    case MarkFailed(i) =>
      var t := s.tasks[i];
      SetStarter(if t.hasRow then s.(rows := s.rows[t.job := FailedRow]) else s, i, FailMarked(t.starter.worker))
    case FinishFailed(i) =>
      SetStarter(s.(finished := s.finished + {i}), i, FailFinished(s.tasks[i].starter.worker))
    case CleanFailed(i) =>
      SetStarter(s.(inflight := PopOwn(s, i), workers := s.workers - Dropped(s.tasks[i].starter.worker)), i, Raised)
    case RunnerStart(i) => SetRunner(s.(rows := s.rows[s.tasks[i].job := RunningRow]), i, Running)
    case RunnerPackage(i) => s.(rows := s.rows[s.tasks[i].job := PackagingRow])
    case RunnerMark(i, ok) =>
      SetRunner(s.(rows := s.rows[s.tasks[i].job := if ok then SucceededRow else FailedRow]), i, Marked)
    case RunnerFinish(i) =>
      var knows := s.tasks[i].starter.RefSet? || s.tasks[i].starter.Returned?;
      SetRunner(s.(finished := s.finished + {i}), i, Finished(knows))
    case RunnerClean(i) =>
      var knows := s.tasks[i].runner.knowsWorker;
      SetRunner(s.(inflight := PopOwn(s, i), workers := if knows then s.workers - {i} else s.workers), i, Cleaned)
    case FutureDone(i) => SetRunner(s, i, Over)
  }

  predicate IsRun(s: State, run: seq<Action>)
    decreases |run|
  {
    run == [] || (Enabled(s, run[0]) && IsRun(Apply(s, run[0]), run[1..]))
  }

  function After(s: State, run: seq<Action>): State
    requires IsRun(s, run)
    decreases |run|
  {
    if run == [] then s else After(Apply(s, run[0]), run[1..])
  }
}
