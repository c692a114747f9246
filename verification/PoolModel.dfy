/** The connection pool and exclusive writer of the database layer as a step machine.
    Every atomic section of `conn`, `_exclusive_writer`, `writer_connection`, `close_connections`
    and `reopen` is one action; the code releases its locks exactly between actions. */
module PoolModel {
  import opened Wrappers
  import opened Sqlite

  type ConnId = nat
  type CallId = nat
  type ThreadId = nat

  const MAX_IDLE_CONNECTIONS: nat := 16

  /** Where one call stands, together with its local variables. */
  datatype Phase =
    // a read lease
    | Connecting(gen: nat)
    | Unprepared(gen: nat, conn: ConnId)
    | Reading(gen: nat, conn: ConnId)
    | Returning(gen: nat, conn: ConnId, reusable: bool)
    | Settled(gen: nat, conn: ConnId, reusable: bool)
    | Retiring(conn: ConnId)
    // a write lease
    | AwaitWrite
    | Entered
    | Opened
    | Writing
    | Leaving
    | Releasing
    // a drain
    | AwaitClose(permanent: bool)
    | HoldingClose(permanent: bool)
    | Drained(list: seq<ConnId>)
    | Closing(list: seq<ConnId>, next: nat)
    // a reopen
    | AwaitReopen
    | Done

  datatype Call = Call(thread: ThreadId, phase: Phase)

  datatype State = State(
    idle: seq<ConnId>,
    generation: nat,
    closed: bool,
    writeLock: Option<CallId>,
    writerThread: Option<ThreadId>,
    writeConn: Option<ConnId>,
    conns: seq<Conn>,
    gone: set<ConnId>,
    committed: seq<Write>,
    calls: seq<Call>)

  datatype Action =
    | BeginLease(t: ThreadId)
    | Connect(k: CallId, ok: bool)
    | PrepareLease(k: CallId, ok: bool)
    | ReadStmt(k: CallId, st: Stmt)
    | FinishRead(k: CallId, ok: bool)
    | Settle(k: CallId, ok: bool)
    | ReturnLease(k: CallId)
    | CloseLease(k: CallId)
    | BeginWrite(t: ThreadId)
    | EnterWrite(k: CallId)
    | OpenWriter(k: CallId, ok: bool)
    | PrepareWriter(k: CallId, ok: bool)
    | WriteStmt(k: CallId, st: Stmt)
    | FinishWrite(k: CallId, ok: bool)
    | LeaveWrite(k: CallId)
    | ReleaseWrite(k: CallId)
    | BeginClose(t: ThreadId, permanent: bool)
    | HoldClose(k: CallId)
    | Drain(k: CallId)
    | DetachWriter(k: CallId)
    | CloseNext(k: CallId)
    | ReleaseClose(k: CallId)
    | BeginReopen(t: ThreadId)
    | Reopen(k: CallId)

  const INITIAL: State := State([], 0, false, None, None, None, [], {}, [], [])

  // ----- threads are sequential ------------------------------------------------------------

  predicate InBody(p: Phase) { p.Reading? || p.Writing? }

  /** A thread may start a call only from the body of the calls it is already in. */
  predicate MayStart(s: State, t: ThreadId) {
    forall j | 0 <= j < |s.calls| && s.calls[j].thread == t && !s.calls[j].phase.Done? ::
      InBody(s.calls[j].phase)
  }

  /** A thread runs its innermost call. */
  predicate Innermost(s: State, k: CallId)
    requires k < |s.calls|
  {
    forall j | k < j < |s.calls| && s.calls[j].thread == s.calls[k].thread :: s.calls[j].phase.Done?
  }

  // ----- one action ------------------------------------------------------------------------

  function At(s: State, k: CallId): Phase
    requires k < |s.calls|
  {
    s.calls[k].phase
  }

  function Goto(s: State, k: CallId, p: Phase): State
    requires k < |s.calls|
  {
    s.(calls := s.calls[k := s.calls[k].(phase := p)])
  }

  function Spawn(s: State, t: ThreadId, p: Phase): State {
    s.(calls := s.calls + [Call(t, p)])
  }

  function SetConn(s: State, c: ConnId, x: Conn): State
    requires c < |s.conns|
  {
    s.(conns := s.conns[c := x])
  }

  /** `_prepare_connection` issues `PRAGMA foreign_keys=ON`. */
  function Prepared(c: Conn): Conn {
    Exec(Session(c, []), ForeignKeys(true)).conn
  }

  function Pinned(s: State, c: ConnId, st: Stmt): State
    requires c < |s.conns|
  {
    var x := Exec(Session(s.conns[c], s.committed), st);
    s.(conns := s.conns[c := x.conn], committed := x.committed)
  }

  function StartLease(s: State, t: ThreadId): State {
    if s.closed then Spawn(s, t, Done)
    else if s.idle == [] then Spawn(s, t, Connecting(s.generation))
    else
      var last := |s.idle| - 1;
      Spawn(s.(idle := s.idle[..last]), t, Unprepared(s.generation, s.idle[last]))
  }

  predicate Pools(s: State, gen: nat, reusable: bool) {
    reusable && gen == s.generation && |s.idle| < MAX_IDLE_CONNECTIONS
  }

  function FinishReturn(s: State, k: CallId): State
    requires k < |s.calls| && At(s, k).Settled?
  {
    var p := At(s, k);
    if Pools(s, p.gen, p.reusable) then Goto(s.(idle := s.idle + [p.conn]), k, Done)
    else Goto(s, k, Retiring(p.conn))
  }

  function Enter(s: State, k: CallId): State
    requires k < |s.calls|
  {
    if s.closed then Goto(s, k, Done)
    else Goto(s.(writeLock := Some(k), writerThread := Some(s.calls[k].thread)), k, Entered)
  }

  function EnsureWriter(s: State, k: CallId, ok: bool): State
    requires k < |s.calls|
  {
    if s.writeConn.Some? then Goto(s, k, Opened)
    else if !ok then Goto(s, k, Leaving)
    else Goto(s.(conns := s.conns + [Fresh(s.generation)], writeConn := Some(|s.conns|)), k, Opened)
  }

  /** A failing writer retires its connection; closing rolls back. */
  function RetireWriter(s: State, k: CallId): State
    requires k < |s.calls| && s.writeConn.Some?
  {
    Goto(s.(writeConn := None, gone := s.gone + {s.writeConn.value}), k, Leaving)
  }

  function DrainIdle(s: State, k: CallId): State
    requires k < |s.calls| && At(s, k).HoldingClose?
  {
    Goto(s.(closed := s.closed || At(s, k).permanent, generation := s.generation + 1, idle := []),
         k, Drained(s.idle))
  }

  function Detach(s: State, k: CallId): State
    requires k < |s.calls| && At(s, k).Drained?
  {
    var p := At(s, k);
    if s.writeConn.Some? then Goto(s.(writeConn := None), k, Closing(p.list + [s.writeConn.value], 0))
    else Goto(s, k, Closing(p.list, 0))
  }

  predicate Enabled(s: State, a: Action) {
    match a
    case BeginLease(t) => MayStart(s, t)
    case BeginWrite(t) => MayStart(s, t)
    case BeginClose(t, _) => MayStart(s, t)
    case BeginReopen(t) => MayStart(s, t)
    case Connect(k, _) => k < |s.calls| && Innermost(s, k) && At(s, k).Connecting?
    case PrepareLease(k, _) => k < |s.calls| && Innermost(s, k) && At(s, k).Unprepared? && At(s, k).conn < |s.conns|
    case ReadStmt(k, _) => k < |s.calls| && Innermost(s, k) && At(s, k).Reading? && At(s, k).conn < |s.conns|
    case FinishRead(k, _) => k < |s.calls| && Innermost(s, k) && At(s, k).Reading?
    case Settle(k, _) => k < |s.calls| && Innermost(s, k) && At(s, k).Returning? && At(s, k).conn < |s.conns|
    case ReturnLease(k) => k < |s.calls| && Innermost(s, k) && At(s, k).Settled?
    case CloseLease(k) => k < |s.calls| && Innermost(s, k) && At(s, k).Retiring?
    case EnterWrite(k) => k < |s.calls| && Innermost(s, k) && At(s, k).AwaitWrite? && s.writeLock.None?
    case OpenWriter(k, _) => k < |s.calls| && Innermost(s, k) && At(s, k).Entered?
    case PrepareWriter(k, _) =>
      k < |s.calls| && Innermost(s, k) && At(s, k).Opened? && s.writeConn.Some? && s.writeConn.value < |s.conns|
    case WriteStmt(k, _) =>
      k < |s.calls| && Innermost(s, k) && At(s, k).Writing? && s.writeConn.Some? && s.writeConn.value < |s.conns|
    case FinishWrite(k, _) =>
      k < |s.calls| && Innermost(s, k) && At(s, k).Writing? && s.writeConn.Some? && s.writeConn.value < |s.conns|
    case LeaveWrite(k) => k < |s.calls| && Innermost(s, k) && At(s, k).Leaving?
    case ReleaseWrite(k) => k < |s.calls| && Innermost(s, k) && At(s, k).Releasing?
    case HoldClose(k) => k < |s.calls| && Innermost(s, k) && At(s, k).AwaitClose? && s.writeLock.None?
    case Drain(k) => k < |s.calls| && Innermost(s, k) && At(s, k).HoldingClose?
    case DetachWriter(k) => k < |s.calls| && Innermost(s, k) && At(s, k).Drained?
    case CloseNext(k) => k < |s.calls| && Innermost(s, k) && At(s, k).Closing? && At(s, k).next < |At(s, k).list|
    case ReleaseClose(k) => k < |s.calls| && Innermost(s, k) && At(s, k).Closing? && At(s, k).next == |At(s, k).list|
    case Reopen(k) => k < |s.calls| && Innermost(s, k) && At(s, k).AwaitReopen? && s.writeLock.None?
  }

  function Apply(s: State, a: Action): State
    requires Enabled(s, a)
  {
    match a
    case BeginLease(t) => StartLease(s, t)
    case Connect(k, ok) =>
      if ok then Goto(s.(conns := s.conns + [Fresh(s.generation)]), k, Unprepared(At(s, k).gen, |s.conns|))
      else Goto(s, k, Done)
    case PrepareLease(k, ok) =>
      var p := At(s, k);
      if ok then Goto(SetConn(s, p.conn, Prepared(s.conns[p.conn]).(queryOnly := true)), k, Reading(p.gen, p.conn))
      else Goto(s, k, Returning(p.gen, p.conn, false))
    case ReadStmt(k, st) => Pinned(s, At(s, k).conn, st)
    case FinishRead(k, ok) => Goto(s, k, Returning(At(s, k).gen, At(s, k).conn, ok))
    case Settle(k, ok) =>
      var p := At(s, k);
      if ok then Goto(SetConn(s, p.conn, RolledBack(s.conns[p.conn])), k, Settled(p.gen, p.conn, p.reusable))
      else Goto(s.(gone := s.gone + {p.conn}), k, Done)
    case ReturnLease(k) => FinishReturn(s, k)
    case CloseLease(k) => Goto(s.(gone := s.gone + {At(s, k).conn}), k, Done)
    case BeginWrite(t) => Spawn(s, t, if s.writerThread == Some(t) then Done else AwaitWrite)
    case EnterWrite(k) => Enter(s, k)
    case OpenWriter(k, ok) => EnsureWriter(s, k, ok)
    case PrepareWriter(k, ok) =>
      if ok then Goto(SetConn(s, s.writeConn.value, Prepared(s.conns[s.writeConn.value])), k, Writing)
      else RetireWriter(s, k)
    case WriteStmt(k, st) => Pinned(s, s.writeConn.value, st)
    case FinishWrite(k, ok) =>
      if ok then Goto(SetConn(s, s.writeConn.value, RolledBack(s.conns[s.writeConn.value])), k, Leaving)
      else RetireWriter(s, k)
    case LeaveWrite(k) => Goto(s.(writerThread := None), k, Releasing)
    case ReleaseWrite(k) => Goto(s.(writeLock := None), k, Done)
    case BeginClose(t, permanent) => Spawn(s, t, if s.writerThread == Some(t) then Done else AwaitClose(permanent))
    case HoldClose(k) => Goto(s.(writeLock := Some(k)), k, HoldingClose(At(s, k).permanent))
    case Drain(k) => DrainIdle(s, k)
    case DetachWriter(k) => Detach(s, k)
    case CloseNext(k) =>
      var p := At(s, k);
      Goto(s.(gone := s.gone + {p.list[p.next]}), k, Closing(p.list, p.next + 1))
    case ReleaseClose(k) => Goto(s.(writeLock := None), k, Done)
    case BeginReopen(t) => Spawn(s, t, if s.writerThread == Some(t) then Done else AwaitReopen)
    case Reopen(k) => Goto(s.(closed := false), k, Done)
  }

  // ----- runs ------------------------------------------------------------------------------

  predicate IsRun(s: State, run: seq<Action>)
    decreases |run|
  {
    run == [] || (Enabled(s, run[0]) && IsRun(Apply(s, run[0]), run[1..]))
  }

  function After(s: State, run: seq<Action>): State
    requires IsRun(s, run)
    decreases |run|
  {
    if run == [] then s else After(Apply(s, run[0]), run[1..])
  }
}
