/** The tracking state of `ApplicationRuntime` and the sections of the starters and runners that
    change it, each proved to be one action of the export machine. */
module ExportRuntime {
  import opened Wrappers
  import opened ExportModel
  import opened ExportTheorems

  class Tracking {
    var exportInflight: map<Key, Entry>
    var exportWorkers: set<TaskId>
    // completions that have been finished, job rows, and the starters and runners in progress
    var finished: set<TaskId>
    var rows: map<JobId, Status>
    var tasks: seq<Task>

    function View(): (s: State)
      reads this
    {
      State(exportInflight, finished, exportWorkers, rows, tasks)
    }

    constructor ()
      ensures View() == INITIAL && Inv(View())
    {
      exportInflight, exportWorkers, finished, rows, tasks := map[], {}, {}, map[], [];
    }

    /** Under `export_lock`: return the live entry to join, or install this task's completion. */
    method Admit(i: TaskId) returns (joined: Option<Entry>)
      requires Inv(View()) && Enabled(View(), ExportModel.Admit(i))
      modifies this
      ensures Inv(View()) && View() == Apply(old(View()), ExportModel.Admit(i))
      ensures joined.Some? ==>
        exportInflight == old(exportInflight) && joined.value.completion !in finished
        && tasks[i].key in exportInflight && exportInflight[tasks[i].key] == joined.value
      ensures joined.None? ==> exportInflight == old(exportInflight)[tasks[i].key := Entry(tasks[i].job, i)]
    {
      StepKeepsInv(View(), ExportModel.Admit(i));
      var key := tasks[i].key;
      if key in exportInflight {
        var existing := exportInflight[key];
        if existing.completion !in finished {
          tasks := tasks[i := tasks[i].(starter := Joined(existing))];
          return Some(existing);
        }
        exportInflight := exportInflight - {key};
      }
      exportInflight := exportInflight[key := Entry(tasks[i].job, i)];
      assert exportInflight == old(exportInflight)[key := Entry(tasks[i].job, i)];
      tasks := tasks[i := tasks[i].(starter := Installed)];
      joined := None;
    }

    /** Under `export_lock`, after an accepted submission: record the worker unless it is done. */
    method Track(i: TaskId)
      requires Inv(View()) && Enabled(View(), ExportModel.Track(i))
      modifies this
      ensures Inv(View()) && View() == Apply(old(View()), ExportModel.Track(i))
    {
      StepKeepsInv(View(), ExportModel.Track(i));
      var alive := !tasks[i].runner.Over?;
      exportWorkers := exportWorkers + {i};
      if !alive {
        exportWorkers := exportWorkers - {i};
        assert exportWorkers == old(exportWorkers) - {i};
      }
      tasks := tasks[i := tasks[i].(starter := Returned)];
    }

    /** The failing starter's cleanup section. */
    method CleanFailed(i: TaskId)
      requires Inv(View()) && Enabled(View(), ExportModel.CleanFailed(i))
      modifies this
      ensures Inv(View()) && View() == Apply(old(View()), ExportModel.CleanFailed(i))
      ensures tasks[i].key in exportInflight ==> exportInflight[tasks[i].key].completion != i
    {
      StepKeepsInv(View(), ExportModel.CleanFailed(i));
      var worker := tasks[i].starter.worker;
      if worker.Some? {
        exportWorkers := exportWorkers - {worker.value};
      } else {
        assert exportWorkers - {} == exportWorkers;
      }
      var key := tasks[i].key;
      if key in exportInflight && exportInflight[key].completion == i {
        exportInflight := exportInflight - {key};
      }
      tasks := tasks[i := tasks[i].(starter := Raised)];
    }

    /** The runner's `finally`: finish the completion, then read the recorded worker. */
    method RunnerFinish(i: TaskId)
      requires Inv(View()) && Enabled(View(), ExportModel.RunnerFinish(i))
      modifies this
      ensures Inv(View()) && View() == Apply(old(View()), ExportModel.RunnerFinish(i))
      ensures tasks[i].job in rows && Terminal(rows[tasks[i].job])
    {
      StepKeepsInv(View(), ExportModel.RunnerFinish(i));
      assert TaskOk(View(), i);
      finished := finished + {i};
      var knows := tasks[i].starter.RefSet? || tasks[i].starter.Returned?;
      tasks := tasks[i := tasks[i].(runner := Finished(knows))];
    }

    /** The runner's cleanup section. */
    method RunnerClean(i: TaskId)
      requires Inv(View()) && Enabled(View(), ExportModel.RunnerClean(i))
      modifies this
      ensures Inv(View()) && View() == Apply(old(View()), ExportModel.RunnerClean(i))
      ensures tasks[i].key in exportInflight ==> exportInflight[tasks[i].key].completion != i
    {
      StepKeepsInv(View(), ExportModel.RunnerClean(i));
      var key := tasks[i].key;
      if key in exportInflight && exportInflight[key].completion == i {
        exportInflight := exportInflight - {key};
      }
      if tasks[i].runner.knowsWorker {
        exportWorkers := exportWorkers - {i};
      }
      tasks := tasks[i := tasks[i].(runner := Cleaned)];
    }
  }
}
