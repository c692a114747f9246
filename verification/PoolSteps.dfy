/** Every action of the pool keeps the invariant. */
module PoolSteps {
  import opened Wrappers
  import opened Sqlite
  import opened PoolModel
  import opened PoolInvariant

  // ----- a connection in one place is in no other --------------------------------------------

  predicate HoldsOne(p: Phase) { p.Unprepared? || p.Reading? || p.Returning? || p.Settled? || p.Retiring? }

  /** Outside call `k`, nothing refers to `c`. */
  predicate Only(s: State, k: CallId, c: ConnId) {
    && c !in s.idle
    && forall j | 0 <= j < |s.calls| && j != k && HoldsOne(s.calls[j].phase) :: s.calls[j].phase.conn != c
  }

  lemma LeaseIsSole(s: State, k: CallId)
    requires OnePlace(s) && k < |s.calls| && HoldsOne(At(s, k))
    ensures var c := At(s, k).conn; c < |s.conns| && Only(s, k, c) && s.writeConn != Some(c)
  {
    var c := At(s, k).conn;
    assert Has(s, Held(k, 0), c);
    forall i | 0 <= i < |s.idle| ensures s.idle[i] != c {
      assert Has(s, Idle(i), s.idle[i]);
    }
    assert Has(s, Cached, c) == (s.writeConn == Some(c));
    forall j | 0 <= j < |s.calls| && j != k && HoldsOne(s.calls[j].phase) ensures s.calls[j].phase.conn != c {
      assert Has(s, Held(j, 0), s.calls[j].phase.conn);
    }
  }

  lemma WriterIsSole(s: State)
    requires OnePlace(s) && s.writeConn.Some?
    ensures s.writeConn.value < |s.conns| && Only(s, |s.calls|, s.writeConn.value)
  {
    var c := s.writeConn.value;
    assert Has(s, Cached, c);
    forall i | 0 <= i < |s.idle| ensures s.idle[i] != c {
      assert Has(s, Idle(i), s.idle[i]);
    }
    forall j | 0 <= j < |s.calls| && HoldsOne(s.calls[j].phase) ensures s.calls[j].phase.conn != c {
      assert Has(s, Held(j, 0), s.calls[j].phase.conn);
    }
  }

  // ----- read leases ---------------------------------------------------------------------------

  lemma BeginLeasePlaces(s: State, t: ThreadId)
    requires OnePlace(s) && Enabled(s, BeginLease(t))
    ensures OnePlace(Apply(s, BeginLease(t)))
  {
    var s' := Apply(s, BeginLease(t));
    if s.closed || s.idle == [] {
      SamePlaces(s, s');
    } else {
      var last := |s.idle| - 1;
      assert Has(s, Idle(last), s.idle[last]);
      OneMoves(s, s', s.idle[last], Idle(last), Held(|s.calls|, 0));
    }
  }

  lemma BeginLeaseLeases(s: State, t: ThreadId)
    requires ConnsOk(s) && LeasesOk(s) && Enabled(s, BeginLease(t))
    ensures LeasesOk(Apply(s, BeginLease(t)))
  {
  }

  lemma BeginLeaseCore(s: State, t: ThreadId)
    requires Core(s) && Enabled(s, BeginLease(t))
    ensures ConnsOk(Apply(s, BeginLease(t))) && LockOk(Apply(s, BeginLease(t))) && WriterOk(Apply(s, BeginLease(t)))
  {
  }

  lemma ConnectPlaces(s: State, k: CallId, ok: bool)
    requires OnePlace(s) && Enabled(s, Connect(k, ok))
    ensures OnePlace(Apply(s, Connect(k, ok)))
  {
    var s' := Apply(s, Connect(k, ok));
    if ok {
      OneOpens(s, s', Held(k, 0));
    } else {
      SamePlaces(s, s');
    }
  }

  lemma ConnectCore(s: State, k: CallId, ok: bool)
    requires Core(s) && Enabled(s, Connect(k, ok))
    ensures Core(Apply(s, Connect(k, ok)))
  {
  }

  lemma StmtPlaces(s: State, c: ConnId, st: Stmt)
    requires OnePlace(s) && c < |s.conns|
    ensures OnePlace(Pinned(s, c, st))
  {
    SamePlaces(s, Pinned(s, c, st));
  }

  lemma PrepareLeasePlaces(s: State, k: CallId, ok: bool)
    requires OnePlace(s) && Enabled(s, PrepareLease(k, ok))
    ensures OnePlace(Apply(s, PrepareLease(k, ok)))
  {
    SamePlaces(s, Apply(s, PrepareLease(k, ok)));
  }

  lemma PrepareLeaseLeases(s: State, k: CallId, ok: bool)
    requires ConnsOk(s) && LeasesOk(s) && Enabled(s, PrepareLease(k, ok))
    requires Only(s, k, At(s, k).conn) && s.writeConn != Some(At(s, k).conn)
    ensures LeasesOk(Apply(s, PrepareLease(k, ok)))
  {
  }

  lemma PrepareLeaseCore(s: State, k: CallId, ok: bool)
    requires Core(s) && Enabled(s, PrepareLease(k, ok))
    requires Only(s, k, At(s, k).conn) && s.writeConn != Some(At(s, k).conn)
    ensures var s' := Apply(s, PrepareLease(k, ok)); ConnsOk(s') && LockOk(s') && WriterOk(s')
  {
  }

  lemma ReadStmtCore(s: State, k: CallId, st: Stmt)
    requires Core(s) && Enabled(s, ReadStmt(k, st))
    requires Only(s, k, At(s, k).conn) && s.writeConn != Some(At(s, k).conn)
    ensures Core(Apply(s, ReadStmt(k, st)))
  {
  }

  lemma FinishReadKeeps(s: State, k: CallId, ok: bool)
    requires OnePlace(s) && Core(s) && Enabled(s, FinishRead(k, ok))
    ensures OnePlace(Apply(s, FinishRead(k, ok))) && Core(Apply(s, FinishRead(k, ok)))
  {
    SamePlaces(s, Apply(s, FinishRead(k, ok)));
  }

  lemma SettlePlaces(s: State, k: CallId, ok: bool)
    requires OnePlace(s) && Enabled(s, Settle(k, ok))
    ensures OnePlace(Apply(s, Settle(k, ok)))
  {
    if ok {
      SamePlaces(s, Apply(s, Settle(k, ok)));
    } else {
      assert Has(s, Held(k, 0), At(s, k).conn);
      OneMoves(s, Apply(s, Settle(k, ok)), At(s, k).conn, Held(k, 0), Gone);
    }
  }

  lemma SettleLeases(s: State, k: CallId, ok: bool)
    requires ConnsOk(s) && LeasesOk(s) && Enabled(s, Settle(k, ok))
    requires Only(s, k, At(s, k).conn) && s.writeConn != Some(At(s, k).conn)
    ensures LeasesOk(Apply(s, Settle(k, ok)))
  {
  }

  lemma SettleCore(s: State, k: CallId, ok: bool)
    requires Core(s) && Enabled(s, Settle(k, ok))
    requires Only(s, k, At(s, k).conn) && s.writeConn != Some(At(s, k).conn)
    ensures ConnsOk(Apply(s, Settle(k, ok))) && LockOk(Apply(s, Settle(k, ok))) && WriterOk(Apply(s, Settle(k, ok)))
  {
  }

  lemma ReturnLeasePlaces(s: State, k: CallId)
    requires OnePlace(s) && Enabled(s, ReturnLease(k))
    ensures OnePlace(Apply(s, ReturnLease(k)))
  {
    var p := At(s, k);
    if Pools(s, p.gen, p.reusable) {
      assert Has(s, Held(k, 0), p.conn);
      OneMoves(s, Apply(s, ReturnLease(k)), p.conn, Held(k, 0), Idle(|s.idle|));
    } else {
      SamePlaces(s, Apply(s, ReturnLease(k)));
    }
  }

  lemma ReturnLeaseLock(s: State, k: CallId)
    requires Core(s) && Enabled(s, ReturnLease(k))
    ensures var s' := Apply(s, ReturnLease(k)); LockOk(s') && WriterOk(s')
  {
  }

  /** The generation check: a lease that reads the current generation holds a connection opened
      under it, so the pool stays current; and a closed database pools nothing. */
  lemma ReturnLeaseCurrent(s: State, k: CallId)
    requires ConnsOk(s) && LeasesOk(s) && Enabled(s, ReturnLease(k))
    ensures var s' := Apply(s, ReturnLease(k)); ConnsOk(s') && LeasesOk(s')
  {
    assert LeaseOk(s, At(s, k));
  }

  lemma ReturnLeaseCore(s: State, k: CallId)
    requires Core(s) && Enabled(s, ReturnLease(k))
    ensures Core(Apply(s, ReturnLease(k)))
  {
    ReturnLeaseLock(s, k);
    ReturnLeaseCurrent(s, k);
  }

  lemma CloseLeaseKeeps(s: State, k: CallId)
    requires OnePlace(s) && Core(s) && Enabled(s, CloseLease(k))
    ensures OnePlace(Apply(s, CloseLease(k))) && Core(Apply(s, CloseLease(k)))
  {
    var c := At(s, k).conn;
    assert Has(s, Held(k, 0), c);
    OneMoves(s, Apply(s, CloseLease(k)), c, Held(k, 0), Gone);
  }

  // ----- write leases --------------------------------------------------------------------------

  lemma QueueKeeps(s: State, t: ThreadId, p: Phase)
    requires OnePlace(s) && Core(s) && MayStart(s, t)
    requires p.AwaitWrite? || p.AwaitClose? || p.AwaitReopen?
    ensures var s' := Spawn(s, t, if s.writerThread == Some(t) then Done else p); OnePlace(s') && Core(s')
  {
    SamePlaces(s, Spawn(s, t, if s.writerThread == Some(t) then Done else p));
  }

  lemma EnterWriteKeeps(s: State, k: CallId)
    requires OnePlace(s) && Core(s) && Enabled(s, EnterWrite(k))
    ensures OnePlace(Apply(s, EnterWrite(k))) && Core(Apply(s, EnterWrite(k)))
  {
    SamePlaces(s, Apply(s, EnterWrite(k)));
  }

  lemma OpenWriterKeeps(s: State, k: CallId, ok: bool)
    requires OnePlace(s) && Core(s) && Enabled(s, OpenWriter(k, ok))
    ensures OnePlace(Apply(s, OpenWriter(k, ok))) && Core(Apply(s, OpenWriter(k, ok)))
  {
    var s' := Apply(s, OpenWriter(k, ok));
    if s.writeConn.None? && ok {
      OneOpens(s, s', Cached);
    } else {
      SamePlaces(s, s');
    }
  }

  lemma RetireWriterKeeps(s: State, k: CallId)
    requires OnePlace(s) && Core(s) && k < |s.calls| && (At(s, k).Opened? || At(s, k).Writing?) && Innermost(s, k)
    ensures OnePlace(RetireWriter(s, k)) && Core(RetireWriter(s, k))
  {
    assert Has(s, Cached, s.writeConn.value);
    OneMoves(s, RetireWriter(s, k), s.writeConn.value, Cached, Gone);
  }

  lemma PrepareWriterKeeps(s: State, k: CallId, ok: bool)
    requires OnePlace(s) && Core(s) && Enabled(s, PrepareWriter(k, ok))
    ensures OnePlace(Apply(s, PrepareWriter(k, ok))) && Core(Apply(s, PrepareWriter(k, ok)))
  {
    if ok {
      WriterIsSole(s);
      SamePlaces(s, Apply(s, PrepareWriter(k, ok)));
    } else {
      RetireWriterKeeps(s, k);
    }
  }

  lemma WriteStmtCore(s: State, k: CallId, st: Stmt)
    requires Core(s) && Enabled(s, WriteStmt(k, st))
    requires Only(s, |s.calls|, s.writeConn.value)
    ensures Core(Apply(s, WriteStmt(k, st)))
  {
  }

  lemma FinishWriteKeeps(s: State, k: CallId, ok: bool)
    requires OnePlace(s) && Core(s) && Enabled(s, FinishWrite(k, ok))
    ensures OnePlace(Apply(s, FinishWrite(k, ok))) && Core(Apply(s, FinishWrite(k, ok)))
  {
    if ok {
      WriterIsSole(s);
      SamePlaces(s, Apply(s, FinishWrite(k, ok)));
    } else {
      RetireWriterKeeps(s, k);
    }
  }

  lemma LeaveWriteKeeps(s: State, k: CallId)
    requires OnePlace(s) && Core(s) && Enabled(s, LeaveWrite(k))
    ensures OnePlace(Apply(s, LeaveWrite(k))) && Core(Apply(s, LeaveWrite(k)))
  {
    SamePlaces(s, Apply(s, LeaveWrite(k)));
  }

  lemma ReleaseWriteKeeps(s: State, k: CallId)
    requires OnePlace(s) && Core(s) && Enabled(s, ReleaseWrite(k))
    ensures OnePlace(Apply(s, ReleaseWrite(k))) && Core(Apply(s, ReleaseWrite(k)))
  {
    SamePlaces(s, Apply(s, ReleaseWrite(k)));
  }

  // ----- drains and reopens ----------------------------------------------------------------------

  lemma HoldCloseKeeps(s: State, k: CallId)
    requires OnePlace(s) && Core(s) && Enabled(s, HoldClose(k))
    ensures OnePlace(Apply(s, HoldClose(k))) && Core(Apply(s, HoldClose(k)))
  {
    SamePlaces(s, Apply(s, HoldClose(k)));
  }

  lemma DrainKeeps(s: State, k: CallId)
    requires OnePlace(s) && Core(s) && Enabled(s, Drain(k))
    ensures OnePlace(Apply(s, Drain(k))) && Core(Apply(s, Drain(k)))
  {
    DrainMoves(s, k);
  }

  lemma DetachWriterPlaces(s: State, k: CallId)
    requires OnePlace(s) && Enabled(s, DetachWriter(k))
    ensures OnePlace(Apply(s, DetachWriter(k)))
  {
    var s' := Apply(s, DetachWriter(k));
    if s.writeConn.Some? {
      assert Has(s, Cached, s.writeConn.value);
      OneMoves(s, s', s.writeConn.value, Cached, Held(k, |At(s, k).list|));
    } else {
      SamePlaces(s, s');
    }
  }

  lemma DetachWriterCore(s: State, k: CallId)
    requires Core(s) && Enabled(s, DetachWriter(k))
    ensures Core(Apply(s, DetachWriter(k)))
  {
  }

  lemma CloseNextKeeps(s: State, k: CallId)
    requires OnePlace(s) && Core(s) && Enabled(s, CloseNext(k))
    ensures OnePlace(Apply(s, CloseNext(k))) && Core(Apply(s, CloseNext(k)))
  {
    var p := At(s, k);
    var c := p.list[p.next];
    assert Has(s, Held(k, p.next), c);
    OneMoves(s, Apply(s, CloseNext(k)), c, Held(k, p.next), Gone);
  }

  lemma ReleaseCloseKeeps(s: State, k: CallId)
    requires OnePlace(s) && Core(s) && Enabled(s, ReleaseClose(k))
    ensures OnePlace(Apply(s, ReleaseClose(k))) && Core(Apply(s, ReleaseClose(k)))
  {
    SamePlaces(s, Apply(s, ReleaseClose(k)));
  }

  lemma ReopenKeeps(s: State, k: CallId)
    requires OnePlace(s) && Core(s) && Enabled(s, Reopen(k))
    ensures OnePlace(Apply(s, Reopen(k))) && Core(Apply(s, Reopen(k)))
  {
    SamePlaces(s, Apply(s, Reopen(k)));
  }

  // ----- nesting -----------------------------------------------------------------------------------

  lemma StartNests(s: State, s': State, t: ThreadId, p: Phase)
    requires NestingOk(s) && MayStart(s, t) && s'.calls == s.calls + [Call(t, p)]
    requires Wants(p) ==> forall j | 0 <= j < |s.calls| && s.calls[j].thread == t :: !s.calls[j].phase.Writing?
    ensures NestingOk(s')
  {
  }

  lemma StepNests(s: State, s': State, k: CallId)
    requires NestingOk(s) && k < |s.calls| && Innermost(s, k) && !At(s, k).Done?
    requires |s'.calls| == |s.calls| && s'.calls == s.calls[k := s'.calls[k]]
    requires s'.calls[k].thread == s.calls[k].thread && !Wants(s'.calls[k].phase)
    ensures NestingOk(s')
  {
  }

  /** The unlocked test sees the caller's own writer body. */
  lemma OutsideIsNotWriting(s: State, t: ThreadId)
    requires LockOk(s) && s.writerThread != Some(t)
    ensures forall j | 0 <= j < |s.calls| && s.calls[j].thread == t :: !s.calls[j].phase.Writing?
  {
    forall j | 0 <= j < |s.calls| && s.calls[j].thread == t ensures !s.calls[j].phase.Writing? {
      assert Holding(s.calls[j].phase) <==> s.writeLock == Some(j);
    }
  }

  // ----- all actions, all runs ---------------------------------------------------------------------

  lemma LeaseStepKeeps(s: State, a: Action)
    requires OnePlace(s) && Core(s) && Enabled(s, a)
    requires a.BeginLease? || a.Connect? || a.PrepareLease? || a.ReadStmt? || a.FinishRead? || a.Settle?
             || a.ReturnLease? || a.CloseLease?
    ensures OnePlace(Apply(s, a)) && Core(Apply(s, a))
  {
    match a
    case BeginLease(t) => BeginLeasePlaces(s, t); BeginLeaseLeases(s, t); BeginLeaseCore(s, t);
    case Connect(k, ok) => ConnectPlaces(s, k, ok); ConnectCore(s, k, ok);
    case PrepareLease(k, ok) =>
      LeaseIsSole(s, k);
      PrepareLeasePlaces(s, k, ok);
      PrepareLeaseLeases(s, k, ok);
      PrepareLeaseCore(s, k, ok);
    case ReadStmt(k, st) => LeaseIsSole(s, k); StmtPlaces(s, At(s, k).conn, st); ReadStmtCore(s, k, st);
    case FinishRead(k, ok) => FinishReadKeeps(s, k, ok);
    case Settle(k, ok) =>
      LeaseIsSole(s, k);
      SettlePlaces(s, k, ok);
      SettleLeases(s, k, ok);
      SettleCore(s, k, ok);
    case ReturnLease(k) => ReturnLeasePlaces(s, k); ReturnLeaseCore(s, k);
    case CloseLease(k) => CloseLeaseKeeps(s, k);
  }

  lemma WriteStepKeeps(s: State, a: Action)
    requires OnePlace(s) && Core(s) && Enabled(s, a)
    requires a.BeginWrite? || a.EnterWrite? || a.OpenWriter? || a.PrepareWriter? || a.WriteStmt? || a.FinishWrite?
             || a.LeaveWrite? || a.ReleaseWrite?
    ensures OnePlace(Apply(s, a)) && Core(Apply(s, a))
  {
    match a
    case BeginWrite(t) => QueueKeeps(s, t, AwaitWrite);
    case EnterWrite(k) => EnterWriteKeeps(s, k);
    case OpenWriter(k, ok) => OpenWriterKeeps(s, k, ok);
    case PrepareWriter(k, ok) => PrepareWriterKeeps(s, k, ok);
    case WriteStmt(k, st) => WriterIsSole(s); StmtPlaces(s, s.writeConn.value, st); WriteStmtCore(s, k, st);
    case FinishWrite(k, ok) => FinishWriteKeeps(s, k, ok);
    case LeaveWrite(k) => LeaveWriteKeeps(s, k);
    case ReleaseWrite(k) => ReleaseWriteKeeps(s, k);
  }

  lemma DrainStepKeeps(s: State, a: Action)
    requires OnePlace(s) && Core(s) && Enabled(s, a)
    requires a.BeginClose? || a.HoldClose? || a.Drain? || a.DetachWriter? || a.CloseNext? || a.ReleaseClose?
             || a.BeginReopen? || a.Reopen?
    ensures OnePlace(Apply(s, a)) && Core(Apply(s, a))
  {
    match a
    case BeginClose(t, permanent) => QueueKeeps(s, t, AwaitClose(permanent));
    case HoldClose(k) => HoldCloseKeeps(s, k);
    case Drain(k) => DrainKeeps(s, k);
    case DetachWriter(k) => DetachWriterPlaces(s, k); DetachWriterCore(s, k);
    case CloseNext(k) => CloseNextKeeps(s, k);
    case ReleaseClose(k) => ReleaseCloseKeeps(s, k);
    case BeginReopen(t) => QueueKeeps(s, t, AwaitReopen);
    case Reopen(k) => ReopenKeeps(s, k);
  }

  predicate Starts(a: Action) { a.BeginLease? || a.BeginWrite? || a.BeginClose? || a.BeginReopen? }

  /** Steps of a read lease that has begun; they need no lock held. */
  predicate LeaseMoves(a: Action) {
    a.Connect? || a.PrepareLease? || a.ReadStmt? || a.FinishRead? || a.Settle? || a.ReturnLease? || a.CloseLease?
  }

  predicate WriterMoves(a: Action) {
    || a.EnterWrite? || a.OpenWriter? || a.PrepareWriter? || a.WriteStmt? || a.FinishWrite? || a.LeaveWrite?
    || a.ReleaseWrite?
  }

  /** Call `k`, the innermost of its thread, has moved and no other. */
  predicate OnlyMoved(s: State, s': State, k: CallId) {
    && k < |s.calls| && Innermost(s, k) && !At(s, k).Done?
    && |s'.calls| == |s.calls| && s'.calls == s.calls[k := s'.calls[k]]
    && s'.calls[k].thread == s.calls[k].thread && !Wants(s'.calls[k].phase)
  }

  lemma LeaseStepMoves(s: State, a: Action)
    requires Enabled(s, a) && LeaseMoves(a)
    ensures OnlyMoved(s, Apply(s, a), a.k)
  {
  }

  lemma WriterStepMoves(s: State, a: Action)
    requires Enabled(s, a) && WriterMoves(a)
    ensures OnlyMoved(s, Apply(s, a), a.k)
  {
  }

  lemma DrainStepMoves(s: State, a: Action)
    requires Enabled(s, a) && !Starts(a) && !LeaseMoves(a) && !WriterMoves(a)
    ensures OnlyMoved(s, Apply(s, a), a.k)
  {
  }

  /** An action that is not the start of a call moves its own, innermost call and no other. */
  lemma StepMovesOwnCall(s: State, a: Action)
    requires Enabled(s, a) && !Starts(a)
    ensures OnlyMoved(s, Apply(s, a), a.k)
  {
    if LeaseMoves(a) {
      LeaseStepMoves(s, a);
    } else if WriterMoves(a) {
      WriterStepMoves(s, a);
    } else {
      DrainStepMoves(s, a);
    }
  }

  /** While a call holds the write lock, the calls that have begun and go on are read leases. */
  lemma OnlyLeasesMove(s: State, k: CallId, a: Action)
    requires LockOk(s) && s.writeLock == Some(k) && Enabled(s, a) && !Starts(a) && a.k != k
    ensures LeaseMoves(a)
  {
    assert !Holding(s.calls[a.k].phase);
  }

  lemma NestingStepKeeps(s: State, a: Action)
    requires LockOk(s) && NestingOk(s) && Enabled(s, a)
    ensures NestingOk(Apply(s, a))
  {
    var s' := Apply(s, a);
    if Starts(a) {
      if s.writerThread != Some(a.t) {
        OutsideIsNotWriting(s, a.t);
      }
      StartNests(s, s', a.t, s'.calls[|s.calls|].phase);
    } else {
      StepMovesOwnCall(s, a);
      StepNests(s, s', a.k);
    }
  }

  /** Every action keeps the invariant. */
  lemma StepKeepsInv(s: State, a: Action)
    requires Inv(s) && Enabled(s, a)
    ensures Inv(Apply(s, a))
  {
    NestingStepKeeps(s, a);
    if a.BeginLease? || a.Connect? || a.PrepareLease? || a.ReadStmt? || a.FinishRead? || a.Settle?
       || a.ReturnLease? || a.CloseLease? {
      LeaseStepKeeps(s, a);
    } else if a.BeginWrite? || a.EnterWrite? || a.OpenWriter? || a.PrepareWriter? || a.WriteStmt? || a.FinishWrite?
              || a.LeaveWrite? || a.ReleaseWrite? {
      WriteStepKeeps(s, a);
    } else {
      DrainStepKeeps(s, a);
    }
  }

  lemma InitialInv()
    ensures Inv(INITIAL)
  {
    forall p, c: ConnId ensures !Has(INITIAL, p, c) {
    }
  }

  /** Every run keeps the invariant. */
  lemma {:induction false} RunKeepsInv(s: State, run: seq<Action>)
    requires Inv(s) && IsRun(s, run)
    ensures Inv(After(s, run))
    decreases |run|
  {
    if run != [] {
      StepKeepsInv(s, run[0]);
      RunKeepsInv(Apply(s, run[0]), run[1..]);
    }
  }
}
