/** Streaming admission release: a handler, a generator and a response may each release the one
    admission of a file download. */
module FileDownload {
  // ----- the step machine ------------------------------------------------------------------

  /** A caller of the release object: it has not called, it has set the flag and still has to call
      `leave_callback`, or it is through. */
  datatype Caller = NotYet | Won | Over

  datatype Handler = Working | Failed(c: Caller) | HandedOff

  /** A started generator is executing on a pool thread or suspended at a chunk; `Ending` is its
      `finally`. */
  datatype Generator = NotCreated | NotStarted | Executing | Suspended | Ending(c: Caller) | ClosedUnstarted

  /** `Awaiting`: the response's own close is executing the generator's `finally`. */
  datatype Response = NotCalled | Sending | Closing | Awaiting | Final(c: Caller)

  /** `leaves` counts the calls of `leave_callback` for this download; `raced` is history: the
      response could not close the generator because it was executing. */
  datatype Download = Download(
    released: bool, leaves: nat, handler: Handler, generator: Generator, response: Response, raced: bool)

  datatype State = State(active: int, downloads: seq<Download>)

  datatype Action =
    | Admit
    | Refuse
    | Fail(d: nat)
    | HandOff(d: nat)
    | Respond(d: nat)
    | StartStream(d: nat)
    | Yield(d: nat)
    | Resume(d: nat)
    | EndStream(d: nat)
    | FinishSending(d: nat)
    | CloseUnstarted(d: nat)
    | CloseStream(d: nat)
    | CloseDone(d: nat)
    | CloseRaced(d: nat)
    | HandlerClaims(d: nat)
    | HandlerLeaves(d: nat)
    | GeneratorClaims(d: nat)
    | GeneratorLeaves(d: nat)
    | ResponseClaims(d: nat)
    | ResponseLeaves(d: nat)

  const INITIAL: State := State(0, [])

  /** The locked test-and-set of the release object. */
  function Claim(x: Download): Caller {
    if x.released then Over else Won
  }

  predicate CanMove(x: Download, a: Action) {
    match a
    case Fail(_) => x.handler.Working?
    case HandOff(_) => x.handler.Working?
    case Respond(_) => x.handler.HandedOff? && x.response.NotCalled?
    case StartStream(_) => x.response.Sending? && x.generator.NotStarted?
    case Yield(_) => x.generator.Executing?
    case Resume(_) => x.response.Sending? && x.generator.Suspended?
    case EndStream(_) => x.generator.Executing?
    case FinishSending(_) => x.response.Sending?
    case CloseUnstarted(_) => x.response.Closing? && x.generator.NotStarted?
    case CloseStream(_) => x.response.Closing? && x.generator.Suspended?
    case CloseDone(_) => (x.response.Closing? || x.response.Awaiting?) && x.generator == Ending(Over)
    case CloseRaced(_) =>
      x.response.Closing? && (x.generator.Executing? || (x.generator.Ending? && !x.generator.c.Over?))
    case HandlerClaims(_) => x.handler == Failed(NotYet)
    case HandlerLeaves(_) => x.handler == Failed(Won)
    case GeneratorClaims(_) => x.generator == Ending(NotYet)
    case GeneratorLeaves(_) => x.generator == Ending(Won)
    case ResponseClaims(_) => x.response == Final(NotYet)
    case ResponseLeaves(_) => x.response == Final(Won)
    case _ => false
  }

  predicate Enabled(s: State, a: Action) {
    a.Admit? || a.Refuse? || (a.d < |s.downloads| && CanMove(s.downloads[a.d], a))
  }

  function Moved(x: Download, a: Action): Download {
    match a
    case Fail(_) => x.(handler := Failed(NotYet))
    case HandOff(_) => x.(handler := HandedOff, generator := NotStarted)
    case Respond(_) => x.(response := Sending)
    case StartStream(_) => x.(generator := Executing)
    case Yield(_) => x.(generator := Suspended)
    case Resume(_) => x.(generator := Executing)
    case EndStream(_) => x.(generator := Ending(NotYet))
    case FinishSending(_) => x.(response := Closing)
    case CloseUnstarted(_) => x.(generator := ClosedUnstarted, response := Final(NotYet))
    case CloseStream(_) => x.(generator := Ending(NotYet), response := Awaiting)
    case CloseDone(_) => x.(response := Final(NotYet))
    case CloseRaced(_) => x.(response := Final(NotYet), raced := true)
    case HandlerClaims(_) => x.(released := true, handler := Failed(Claim(x)))
    case HandlerLeaves(_) => x.(leaves := x.leaves + 1, handler := Failed(Over))
    case GeneratorClaims(_) => x.(released := true, generator := Ending(Claim(x)))
    case GeneratorLeaves(_) => x.(leaves := x.leaves + 1, generator := Ending(Over))
    case ResponseClaims(_) => x.(released := true, response := Final(Claim(x)))
    case ResponseLeaves(_) => x.(leaves := x.leaves + 1, response := Final(Over))
    case _ => x
  }

  predicate Leaves(a: Action) { a.HandlerLeaves? || a.GeneratorLeaves? || a.ResponseLeaves? }

  function Apply(s: State, a: Action): State
    requires Enabled(s, a)
  {
    match a
    case Admit =>
      State(s.active + 1, s.downloads + [Download(false, 0, Working, NotCreated, NotCalled, false)])
    case Refuse => s
    case _ =>
      State(if Leaves(a) then s.active - 1 else s.active, s.downloads[a.d := Moved(s.downloads[a.d], a)])
  }

  predicate IsRun(s: State, run: seq<Action>)
    decreases |run|
  {
    run == [] || (Enabled(s, run[0]) && IsRun(Apply(s, run[0]), run[1..]))
  }

  function After(s: State, run: seq<Action>): State
    requires IsRun(s, run)
    decreases |run|
  {
    if run == [] then s else After(Apply(s, run[0]), run[1..])
  }

  // ----- the invariant ---------------------------------------------------------------------

  function Pending(x: Download): nat {
    (if x.handler == Failed(Won) then 1 else 0) + (if x.generator == Ending(Won) then 1 else 0)
    + (if x.response == Final(Won) then 1 else 0)
  }

  predicate DownloadOk(x: Download) {
    && x.leaves + Pending(x) == (if x.released then 1 else 0)
    && (x.handler.HandedOff? <==> !x.generator.NotCreated?)
    && (!x.handler.HandedOff? ==> x.response.NotCalled?)
    && (x.response.NotCalled? && x.handler.HandedOff? ==> x.generator.NotStarted?)
    && (x.handler == Failed(Over) || x.generator == Ending(Over) || x.response == Final(Over) ==> x.released)
    && (x.generator.ClosedUnstarted? ==> x.response.Final?)
    && (x.response.Final? && !x.raced ==> x.generator.ClosedUnstarted? || x.generator == Ending(Over))
    && (x.response.Awaiting? ==> x.generator.Ending?)
    && (x.raced ==> x.response.Final? && (x.generator.Executing? || x.generator.Suspended? || x.generator.Ending?))
  }

  /** Downloads whose admission has not been given back. */
  function Outstanding(ds: seq<Download>): nat {
    if ds == [] then 0
    else Outstanding(ds[..|ds| - 1]) + (if ds[|ds| - 1].leaves == 0 then 1 else 0)
  }

  predicate Inv(s: State) {
    s.active == Outstanding(s.downloads) && forall d | 0 <= d < |s.downloads| :: DownloadOk(s.downloads[d])
  }

  lemma {:induction false} OutstandingUpdate(ds: seq<Download>, d: nat, x: Download)
    requires d < |ds|
    ensures Outstanding(ds[d := x]) ==
            Outstanding(ds) - (if ds[d].leaves == 0 then 1 else 0) + (if x.leaves == 0 then 1 else 0)
    decreases |ds|
  {
    var last := |ds| - 1;
    if d < last {
      OutstandingUpdate(ds[..last], d, x);
      assert ds[d := x][..last] == ds[..last][d := x];
    } else {
      assert ds[d := x][..last] == ds[..last];
    }
  }

  /** One step of one download; a leave is its first. */
  lemma MoveKeepsDownload(x: Download, a: Action)
    requires DownloadOk(x) && CanMove(x, a)
    ensures DownloadOk(Moved(x, a))
    ensures Moved(x, a).leaves == x.leaves + (if Leaves(a) then 1 else 0)
    ensures Leaves(a) ==> x.leaves == 0
  {
  }

  lemma UpdateKeepsInv(s: State, d: nat, x: Download, leaves: bool)
    requires Inv(s) && d < |s.downloads| && DownloadOk(x)
    requires x.leaves == s.downloads[d].leaves + (if leaves then 1 else 0) && (leaves ==> s.downloads[d].leaves == 0)
    ensures Inv(State(if leaves then s.active - 1 else s.active, s.downloads[d := x]))
  {
    OutstandingUpdate(s.downloads, d, x);
  }

  lemma StepKeepsInv(s: State, a: Action)
    requires Inv(s) && Enabled(s, a)
    ensures Inv(Apply(s, a))
  {
    if a.Admit? {
      var s' := Apply(s, a);
      assert s'.downloads[..|s.downloads|] == s.downloads;
    } else if !a.Refuse? {
      MoveKeepsDownload(s.downloads[a.d], a);
      UpdateKeepsInv(s, a.d, Moved(s.downloads[a.d], a), Leaves(a));
    }
  }

  lemma {:induction false} RunKeepsInv(s: State, run: seq<Action>)
    requires Inv(s) && IsRun(s, run)
    ensures Inv(After(s, run))
    decreases |run|
  {
    if run != [] {
      StepKeepsInv(s, run[0]);
      RunKeepsInv(Apply(s, run[0]), run[1..]);
    }
  }

  // ----- what every interleaving guarantees --------------------------------------------------

  lemma SomeOutstanding(ds: seq<Download>, d: nat)
    requires d < |ds| && ds[d].leaves == 0
    ensures Outstanding(ds) > 0
  {
    OutstandingUpdate(ds, d, ds[d].(leaves := 1));
  }

  /** The admission count is the number of downloads not yet given back, no download is given back
      twice, and giving back never underflows the counter. */
  lemma CountIsExact(run: seq<Action>, a: Action)
    requires IsRun(INITIAL, run) && Enabled(After(INITIAL, run), a)
    ensures var s := After(INITIAL, run);
      && s.active == Outstanding(s.downloads)
      && (forall d | 0 <= d < |s.downloads| :: s.downloads[d].leaves <= 1)
      && (Leaves(a) ==> s.active > 0)
  {
    RunKeepsInv(INITIAL, run);
    if Leaves(a) {
      var ds := After(INITIAL, run).downloads;
      MoveKeepsDownload(ds[a.d], a);
      SomeOutstanding(ds, a.d);
    }
  }

  predicate RacedIn(s: State, d: nat) { d < |s.downloads| && s.downloads[d].raced }

  lemma {:induction false} RacedByAction(s: State, run: seq<Action>, d: nat)
    requires IsRun(s, run) && RacedIn(After(s, run), d) && !RacedIn(s, d)
    ensures CloseRaced(d) in run
    decreases |run|
  {
    if run != [] && run[0] != CloseRaced(d) {
      RacedByAction(Apply(s, run[0]), run[1..], d);
    }
  }

  /** By the time a handler has failed, or a response call has ended, the admission has been given
      back exactly once, unless the generator is in the middle of doing so; and that takes a
      response whose close found the generator executing. */
  lemma ReleasedExactlyOnce(run: seq<Action>, d: nat)
    requires IsRun(INITIAL, run) && d < |After(INITIAL, run).downloads|
    ensures var x := After(INITIAL, run).downloads[d];
      && (x.handler == Failed(Over) ==> x.leaves == 1)
      && (x.response == Final(Over) ==> x.released && (x.leaves == 1 <==> x.generator != Ending(Won)))
      && (x.response == Final(Over) && CloseRaced(d) !in run ==> x.leaves == 1)
  {
    RunKeepsInv(INITIAL, run);
    var x := After(INITIAL, run).downloads[d];
    assert DownloadOk(x);
    if x.raced {
      RacedByAction(INITIAL, run, d);
    }
  }

  lemma {:induction false} RunSplits(s: State, a: seq<Action>, b: seq<Action>)
    requires IsRun(s, a) && IsRun(After(s, a), b)
    ensures IsRun(s, a + b) && After(s, a + b) == After(After(s, a), b)
    decreases |a|
  {
    if a == [] {
      assert a + b == b;
    } else {
      assert (a + b)[0] == a[0] && (a + b)[1..] == a[1..] + b;
      RunSplits(Apply(s, a[0]), a[1..], b);
    }
  }

  /** A run with a single admitted download goes on with one of its steps. */
  lemma Extend(run: seq<Action>, x: Download, a: Action) returns (longer: seq<Action>)
    requires IsRun(INITIAL, run) && After(INITIAL, run) == State(1, [x])
    requires !a.Admit? && !a.Refuse? && a.d == 0 && CanMove(x, a) && !Leaves(a)
    ensures IsRun(INITIAL, longer) && After(INITIAL, longer) == State(1, [Moved(x, a)])
  {
    var s := State(1, [x]);
    assert Apply(s, a) == State(1, [Moved(x, a)]);
    assert [a][1..] == [] && IsRun(Apply(s, a), []);
    RunSplits(INITIAL, run, [a]);
    longer := run + [a];
  }

  lemma RunToRace() returns (run: seq<Action>)
    ensures IsRun(INITIAL, run)
    ensures After(INITIAL, run) == State(1, [Download(false, 0, HandedOff, Executing, Final(NotYet), true)])
  {
    run := [Admit];
    assert [Admit][1..] == [] && IsRun(Apply(INITIAL, Admit), []);
    var x := Download(false, 0, Working, NotCreated, NotCalled, false);
    run := Extend(run, x, HandOff(0));
    run := Extend(run, Download(false, 0, HandedOff, NotStarted, NotCalled, false), Respond(0));
    run := Extend(run, Download(false, 0, HandedOff, NotStarted, Sending, false), StartStream(0));
    run := Extend(run, Download(false, 0, HandedOff, Executing, Sending, false), FinishSending(0));
    run := Extend(run, Download(false, 0, HandedOff, Executing, Closing, false), CloseRaced(0));
  }

  /** The exception is real: a response can end while the generator it could not close has set the
      flag and not yet given the admission back. */
  lemma RacedResponseEndsEarly() returns (run: seq<Action>)
    ensures IsRun(INITIAL, run)
    ensures After(INITIAL, run) == State(1, [Download(true, 0, HandedOff, Ending(Won), Final(Over), true)])
  {
    run := RunToRace();
    run := Extend(run, Download(false, 0, HandedOff, Executing, Final(NotYet), true), EndStream(0));
    run := Extend(run, Download(false, 0, HandedOff, Ending(NotYet), Final(NotYet), true), GeneratorClaims(0));
    run := Extend(run, Download(true, 0, HandedOff, Ending(Won), Final(NotYet), true), ResponseClaims(0));
  }

  // ----- the objects -------------------------------------------------------------------------

  /** The callback counter of the judgehost service. */
  class Judgehost {
    var activeCallbacks: nat
    var open: bool

    constructor ()
      ensures activeCallbacks == 0 && open
    {
      activeCallbacks, open := 0, true;
    }

    method EnterCallback() returns (admitted: bool)
      modifies this
      ensures admitted == old(open) && open == old(open)
      ensures activeCallbacks == old(activeCallbacks) + (if admitted then 1 else 0)
    {
      admitted := open;
      if admitted {
        activeCallbacks := activeCallbacks + 1;
      }
    }

    /** Fails on underflow. */
    method LeaveCallback() returns (ok: bool)
      modifies this
      ensures ok == (old(activeCallbacks) > 0) && open == old(open)
      ensures activeCallbacks == old(activeCallbacks) - (if ok then 1 else 0)
    {
      if activeCallbacks == 0 {
        return false;
      }
      activeCallbacks := activeCallbacks - 1;
      ok := true;
    }
  }

  /** `_CallbackAdmissionRelease`. */
  class AdmissionRelease {
    const service: Judgehost
    var released: bool

    constructor (service: Judgehost)
      ensures this.service == service && !released
    {
      this.service := service;
      released := false;
    }

    /** The first call gives the admission back; later calls do nothing. */
    method Call() returns (ok: bool)
      modifies this, service
      ensures released && service.open == old(service.open)
      ensures ok == (old(released) || old(service.activeCallbacks) > 0)
      ensures service.activeCallbacks == old(service.activeCallbacks) - (if old(released) || !ok then 0 else 1)
    {
      if released {
        return true;
      }
      released := true;
      ok := service.LeaveCallback();
    }
  }

  /** How one download goes: the handler fails, or the response sends with the generator never
      started, run to its end, or abandoned in the middle. */
  datatype Course = HandlerFails | NeverStarted | Exhausted | Abandoned

  /** One download from `_begin_file_download` to the end of its handler or response call, on every
      course: refused without admission, or admitted and given back. */
  method Serve(service: Judgehost, course: Course) returns (served: bool, ok: bool)
    modifies service
    ensures served == old(service.open) && service.open == old(service.open) && ok
    ensures service.activeCallbacks == old(service.activeCallbacks)
  {
    ok := true;
    served := service.EnterCallback();
    if !served {
      return;
    }
    var release := new AdmissionRelease(service);
    if course.HandlerFails? {
      // not handed off: the handler's finally releases
      ok := release.Call();
      return;
    }
    if course.Exhausted? {
      // the generator's finally, when the last chunk has been sent
      ok := release.Call();
    } else if course.Abandoned? {
      // closing a started generator runs its finally
      ok := release.Call();
    }
    // the response's own finally
    var last := release.Call();
    ok := ok && last;
  }
}
