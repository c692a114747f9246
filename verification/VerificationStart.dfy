/** The exits of `start_verification_job`. The services it calls decide their outcome; a call that
    fails a verification returns. */
module VerificationStart {
  type WorkspaceKey = string
  type VerificationId = string
  type Worker = nat

  datatype Status = Admitted | Failed

  datatype Admission = AdmitRaises | AlreadyExists | IsAdmitted

  datatype Submission =
    | SubmitRaises
    | Rejected(worker: Worker, dedupe: bool)
    | Accepted(worker: Worker, alive: bool)

  datatype Exit = ReturnedFalse | ReturnedTrue | Raised

  class Tracking {
    var inflight: set<WorkspaceKey>
    var workers: set<Worker>
    var status: map<VerificationId, Status>

    constructor ()
      ensures inflight == {} && workers == {} && status == map[]
    {
      inflight, workers, status := {}, {}, map[];
    }

    /** `fail_verification`. */
    method FailVerification(id: VerificationId)
      modifies this`status
      ensures status == old(status)[id := Failed]
    {
      status := status[id := Failed];
    }

    /** One call, its own steps only. A key already held changes nothing. A call that admitted its
        verification but got no worker accepted leaves it failed and its key released; a call that
        did not get it admitted leaves no trace. */
    method Start(
      key: WorkspaceKey, id: VerificationId, admission: Admission, rememberRaises: bool, submission: Submission)
      returns (exit: Exit)
      modifies this
      ensures key in old(inflight) ==>
        exit.ReturnedFalse? && inflight == old(inflight) && workers == old(workers) && status == old(status)
      ensures key !in old(inflight) && !admission.IsAdmitted? ==>
        exit.Raised? && inflight == old(inflight) && workers == old(workers) && status == old(status)
      ensures key !in old(inflight) && admission.IsAdmitted? && (rememberRaises || !submission.Accepted?) ==>
        && status == old(status)[id := Failed] && inflight == old(inflight)
        && workers == (if !rememberRaises && submission.Rejected? && !submission.dedupe
                       then old(workers) - {submission.worker} else old(workers))
        && exit == (if !rememberRaises && submission.Rejected? && submission.dedupe then ReturnedFalse else Raised)
      ensures key !in old(inflight) && admission.IsAdmitted? && !rememberRaises && submission.Accepted? ==>
        && exit.ReturnedTrue? && status == old(status)[id := Admitted]
        && inflight == old(inflight) + (if submission.alive then {key} else {})
        && (submission.alive ==> workers == old(workers) + {submission.worker})
        && (!submission.alive ==> workers == old(workers) - {submission.worker})
    {
      if key in inflight {
        return ReturnedFalse;
      }
      inflight := inflight + {key};
      if admission.AdmitRaises? {
        inflight := inflight - {key};
        return Raised;
      }
      if admission.AlreadyExists? {
        inflight := inflight - {key};
        return Raised;
      }
      status := status[id := Admitted];
      if rememberRaises {
        FailVerification(id);
        inflight := inflight - {key};
        return Raised;
      }
      var raised := submission.SubmitRaises?;
      if submission.Rejected? {
        inflight := inflight - {key};
        if submission.dedupe {
          FailVerification(id);
          return ReturnedFalse;
        }
        raised := true;
      }
      if submission.Accepted? {
        workers := workers + {submission.worker};
        if !submission.alive {
          workers := workers - {submission.worker};
          inflight := inflight - {key};
        }
      }
      if raised {
        FailVerification(id);
        if submission.Rejected? {
          workers := workers - {submission.worker};
        }
        inflight := inflight - {key};
        return Raised;
      }
      exit := ReturnedTrue;
    }
  }
}
