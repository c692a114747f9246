/** What every interleaving of leases, writers, drains and reopens guarantees. */
module PoolTheorems {
  import opened Wrappers
  import opened Sqlite
  import opened PoolModel
  import opened PoolInvariant
  import opened PoolSteps

  // ----- conservation ----------------------------------------------------------------------

  /** In every reachable state each connection ever opened is in exactly one place, no two calls
      hold the same one, and the idle pool respects its bound. */
  lemma EveryConnectionIsInOnePlace(run: seq<Action>)
    requires IsRun(INITIAL, run)
    ensures var s := After(INITIAL, run);
      && OnePlace(s)
      && |s.idle| <= MAX_IDLE_CONNECTIONS
      && (forall i, j | 0 <= i < j < |s.idle| :: s.idle[i] != s.idle[j])
      && forall j, k | 0 <= j < |s.calls| && 0 <= k < |s.calls| && HoldsOne(s.calls[j].phase)
                       && HoldsOne(s.calls[k].phase) && s.calls[j].phase.conn == s.calls[k].phase.conn ::
           j == k
  {
    var s := After(INITIAL, run);
    InitialInv();
    RunKeepsInv(INITIAL, run);
    forall i, j | 0 <= i < j < |s.idle| ensures s.idle[i] != s.idle[j] {
      assert Has(s, Idle(i), s.idle[i]) && Has(s, Idle(j), s.idle[j]);
    }
    forall j, k | 0 <= j < |s.calls| && 0 <= k < |s.calls| && HoldsOne(s.calls[j].phase)
                  && HoldsOne(s.calls[k].phase) && s.calls[j].phase.conn == s.calls[k].phase.conn
      ensures j == k
    {
      LeaseIsSole(s, k);
    }
  }

  // ----- drains ----------------------------------------------------------------------------

  /** What any continuation of `s0` keeps about connections and leases. */
  predicate Later(s0: State, s: State) {
    && |s0.conns| <= |s.conns| && |s0.calls| <= |s.calls| && s0.generation <= s.generation
    && (forall c | 0 <= c < |s0.conns| :: s.conns[c].born == s0.conns[c].born)
    && (forall k | |s0.calls| <= k < |s.calls| && HasGen(s.calls[k].phase) :: s0.generation <= s.calls[k].phase.gen)
  }

  lemma StepKeepsBirths(s: State, a: Action)
    requires Enabled(s, a)
    ensures var s' := Apply(s, a);
      && |s.conns| <= |s'.conns| && s.generation <= s'.generation
      && forall c | 0 <= c < |s.conns| :: s'.conns[c].born == s.conns[c].born
  {
  }

  /** A lease reads the generation once, when it begins. */
  lemma StepKeepsGens(s: State, a: Action)
    requires Enabled(s, a)
    ensures var s' := Apply(s, a);
      && |s.calls| <= |s'.calls|
      && forall k | 0 <= k < |s'.calls| && HasGen(s'.calls[k].phase) ::
           s'.calls[k].phase.gen ==
             if k < |s.calls| && HasGen(s.calls[k].phase) then s.calls[k].phase.gen else s.generation
  {
    if !Starts(a) {
      StepMovesOwnCall(s, a);
    }
  }

  lemma StepIsLater(s0: State, s: State, a: Action)
    requires Later(s0, s) && Enabled(s, a)
    ensures Later(s0, Apply(s, a))
  {
    StepKeepsBirths(s, a);
    StepKeepsGens(s, a);
  }

  lemma {:induction false} RunIsLater(s0: State, s: State, run: seq<Action>)
    requires Later(s0, s) && IsRun(s, run)
    ensures Later(s0, After(s, run))
    decreases |run|
  {
    if run != [] {
      StepIsLater(s0, s, run[0]);
      RunIsLater(s0, Apply(s, run[0]), run[1..]);
    }
  }

  /** However a drain interleaves with readers, including readers that had already left the lock
      and not yet connected, no lease begun after it, no idle slot and no writer body ever uses a
      connection that existed at the drain. */
  lemma DrainedConnectionsAreNeverHandedOut(run0: seq<Action>, k: CallId, run: seq<Action>)
    requires IsRun(INITIAL, run0)
    requires Enabled(After(INITIAL, run0), Drain(k))
    requires IsRun(Apply(After(INITIAL, run0), Drain(k)), run)
    ensures var s0 := After(INITIAL, run0);
      var s := After(Apply(s0, Drain(k)), run);
      && (forall j | |s0.calls| <= j < |s.calls| && HasGen(s.calls[j].phase) && !s.calls[j].phase.Connecting? ::
            s.calls[j].phase.conn >= |s0.conns|)
      && (forall i | 0 <= i < |s.idle| :: s.idle[i] >= |s0.conns|)
      && (Holder(s).Writing? ==> s.writeConn.Some? && s.writeConn.value >= |s0.conns|)
  {
    var s0 := After(INITIAL, run0);
    var s1 := Apply(s0, Drain(k));
    var s := After(s1, run);
    InitialInv();
    RunKeepsInv(INITIAL, run0);
    StepKeepsInv(s0, Drain(k));
    RunKeepsInv(s1, run);
    RunIsLater(s1, s1, run);
    forall j | |s0.calls| <= j < |s.calls| && HasGen(s.calls[j].phase) && !s.calls[j].phase.Connecting?
      ensures s.calls[j].phase.conn >= |s0.conns|
    {
      assert LeaseOk(s, s.calls[j].phase);
    }
  }

  /** What a drain takes: the idle pool and the cached writer. */
  function Taken(s: State): seq<ConnId> {
    s.idle + (if s.writeConn.Some? then [s.writeConn.value] else [])
  }

  /** How far call `k`, which drained `s0`, has come. */
  predicate ClosingOf(s0: State, k: CallId, s: State) {
    k < |s.calls| &&
    match At(s, k)
    case Drained(list) => list == s0.idle && s.writeConn == s0.writeConn
    case Closing(list, next) => list == Taken(s0) && next <= |list| && forall i | 0 <= i < next :: list[i] in s.gone
    case Done => forall i | 0 <= i < |Taken(s0)| :: Taken(s0)[i] in s.gone
    case _ => false
  }

  lemma StepClosesMore(s: State, a: Action)
    requires Enabled(s, a)
    ensures s.gone <= Apply(s, a).gone && (Starts(a) || LeaseMoves(a) ==> Apply(s, a).writeConn == s.writeConn)
  {
  }

  lemma ClosingStays(s0: State, k: CallId, s: State, s': State)
    requires ClosingOf(s0, k, s) && k < |s'.calls| && At(s', k) == At(s, k) && s.gone <= s'.gone
    requires At(s, k).Drained? ==> s'.writeConn == s.writeConn
    ensures ClosingOf(s0, k, s')
  {
  }

  lemma OwnStepCloses(s0: State, s: State, a: Action)
    requires Enabled(s, a) && !Starts(a) && ClosingOf(s0, a.k, s)
    ensures ClosingOf(s0, a.k, Apply(s, a))
  {
    assert s0.idle + [] == s0.idle;
  }

  lemma StartKeepsCalls(s: State, a: Action)
    requires Enabled(s, a) && Starts(a)
    ensures |s.calls| < |Apply(s, a).calls| && Apply(s, a).calls[..|s.calls|] == s.calls
  {
  }

  lemma StepCloses(s0: State, k: CallId, s: State, a: Action)
    requires LockOk(s) && Enabled(s, a) && ClosingOf(s0, k, s)
    ensures ClosingOf(s0, k, Apply(s, a))
  {
    StepClosesMore(s, a);
    if Starts(a) {
      StartKeepsCalls(s, a);
      assert s.calls[k] == Apply(s, a).calls[..|s.calls|][k];
      ClosingStays(s0, k, s, Apply(s, a));
    } else if a.k == k {
      OwnStepCloses(s0, s, a);
    } else {
      StepMovesOwnCall(s, a);
      if !At(s, k).Done? {
        assert Holding(At(s, k));
        OnlyLeasesMove(s, k, a);
      }
      ClosingStays(s0, k, s, Apply(s, a));
    }
  }

  lemma {:induction false} RunCloses(s0: State, k: CallId, s: State, run: seq<Action>)
    requires Inv(s) && ClosingOf(s0, k, s) && IsRun(s, run)
    ensures ClosingOf(s0, k, After(s, run))
    decreases |run|
  {
    if run != [] {
      StepCloses(s0, k, s, run[0]);
      StepKeepsInv(s, run[0]);
      RunCloses(s0, k, Apply(s, run[0]), run[1..]);
    }
  }

  /** However the closing loop of a drain interleaves with other threads, by its end every connection
      that was idle or cached at the drain has been closed. */
  lemma DrainClosesWhatItTook(run0: seq<Action>, k: CallId, run: seq<Action>)
    requires IsRun(INITIAL, run0)
    requires Enabled(After(INITIAL, run0), Drain(k))
    requires IsRun(Apply(After(INITIAL, run0), Drain(k)), run)
    requires var s := After(Apply(After(INITIAL, run0), Drain(k)), run); k < |s.calls| && At(s, k).Done?
    ensures var s0 := After(INITIAL, run0);
      var s := After(Apply(s0, Drain(k)), run);
      && (forall i | 0 <= i < |s0.idle| :: s0.idle[i] in s.gone)
      && (s0.writeConn.Some? ==> s0.writeConn.value in s.gone)
  {
    var s0 := After(INITIAL, run0);
    InitialInv();
    RunKeepsInv(INITIAL, run0);
    StepKeepsInv(s0, Drain(k));
    RunCloses(s0, k, Apply(s0, Drain(k)), run);
    forall i | 0 <= i < |s0.idle| ensures s0.idle[i] == Taken(s0)[i] {
    }
    assert s0.writeConn.Some? ==> Taken(s0)[|s0.idle|] == s0.writeConn.value;
  }

  /** Only connections of the current generation can be handed out. */
  lemma ReusableConnectionsAreCurrent(run: seq<Action>)
    requires IsRun(INITIAL, run)
    ensures var s := After(INITIAL, run);
      && (forall i | 0 <= i < |s.idle| :: s.idle[i] < |s.conns| && s.conns[s.idle[i]].born == s.generation)
      && (s.writeConn.Some? && !Holder(s).Drained? ==>
            s.writeConn.value < |s.conns| && s.conns[s.writeConn.value].born == s.generation)
  {
    InitialInv();
    RunKeepsInv(INITIAL, run);
  }

  // ----- closing ---------------------------------------------------------------------------

  /** A closed database with a free write lock has nothing to hand out, and what is still leased
      can never be pooled again. */
  lemma ClosedMeansDrained(run: seq<Action>)
    requires IsRun(INITIAL, run)
    requires After(INITIAL, run).closed && After(INITIAL, run).writeLock.None?
    ensures var s := After(INITIAL, run);
      && s.idle == [] && s.writeConn.None?
      && forall k | 0 <= k < |s.calls| && HasGen(s.calls[k].phase) :: s.calls[k].phase.gen < s.generation
  {
    var s := After(INITIAL, run);
    InitialInv();
    RunKeepsInv(INITIAL, run);
    forall k | 0 <= k < |s.calls| && HasGen(s.calls[k].phase) ensures s.calls[k].phase.gen < s.generation {
      assert LeaseOk(s, s.calls[k].phase);
    }
  }

  /** Closed, with no call from number `n` on having got a connection or into the writer. */
  predicate Refusing(s: State, n: nat) {
    && s.closed
    && forall j | n <= j < |s.calls| :: !HasGen(s.calls[j].phase) && !Inside(s.calls[j].phase)
  }

  lemma StepRefuses(s: State, a: Action, n: nat)
    requires Refusing(s, n) && Core(s) && Enabled(s, a) && !a.Reopen?
    ensures Refusing(Apply(s, a), n)
  {
    if !Starts(a) {
      StepMovesOwnCall(s, a);
    }
  }

  lemma {:induction false} RunRefuses(s: State, run: seq<Action>, n: nat)
    requires Refusing(s, n) && Inv(s) && IsRun(s, run) && forall i | 0 <= i < |run| :: !run[i].Reopen?
    ensures Refusing(After(s, run), n)
    decreases |run|
  {
    if run != [] {
      StepRefuses(s, run[0], n);
      StepKeepsInv(s, run[0]);
      RunRefuses(Apply(s, run[0]), run[1..], n);
    }
  }

  /** A closed database stays closed and refuses work until a reopen: no call begun after the close
      ever holds a lease or gets inside the writer, and neither does a writer that was waiting. */
  lemma ClosedRefusesWork(run0: seq<Action>, run: seq<Action>)
    requires IsRun(INITIAL, run0) && After(INITIAL, run0).closed && IsRun(After(INITIAL, run0), run)
    requires forall i | 0 <= i < |run| :: !run[i].Reopen?
    ensures var s0 := After(INITIAL, run0);
      var s := After(s0, run);
      && s.closed
      && (forall j | |s0.calls| <= j < |s.calls| :: !HasGen(s.calls[j].phase))
      && forall j | 0 <= j < |s.calls| :: !Inside(s.calls[j].phase)
  {
    var s0 := After(INITIAL, run0);
    InitialInv();
    RunKeepsInv(INITIAL, run0);
    RunRefuses(s0, run, |s0.calls|);
    RunKeepsInv(s0, run);
    var s := After(s0, run);
    forall j | 0 <= j < |s.calls| ensures !Inside(s.calls[j].phase) {
      assert Holding(s.calls[j].phase) <==> s.writeLock == Some(j);
    }
  }

  /** Once every call has ended, a closed database has closed every connection it ever opened. */
  lemma ShutdownLeaksNothing(run: seq<Action>)
    requires IsRun(INITIAL, run)
    requires After(INITIAL, run).closed
    requires forall k | 0 <= k < |After(INITIAL, run).calls| :: After(INITIAL, run).calls[k].phase.Done?
    ensures var s := After(INITIAL, run); forall c: ConnId | c < |s.conns| :: c in s.gone
  {
    var s := After(INITIAL, run);
    InitialInv();
    RunKeepsInv(INITIAL, run);
    forall k | 0 <= k < |s.calls| ensures s.writeLock != Some(k) {
      assert !Holding(s.calls[k].phase);
    }
    forall c: ConnId | c < |s.conns| ensures c in s.gone {
      assert Somewhere(s, c);
      var p :| Has(s, p, c);
      assert p.Gone?;
    }
  }

  // ----- the exclusive writer ----------------------------------------------------------------

  /** At most one call is inside the writer, and the unlocked test of `_writer_thread` holds
      exactly for the thread of that call. */
  lemma WriterTestIsExact(run: seq<Action>, t: ThreadId)
    requires IsRun(INITIAL, run)
    ensures var s := After(INITIAL, run);
      && (forall j, k | 0 <= j < |s.calls| && 0 <= k < |s.calls| && Inside(s.calls[j].phase)
                        && Inside(s.calls[k].phase) ::
            j == k)
      && (s.writerThread == Some(t) <==>
          exists k :: 0 <= k < |s.calls| && s.calls[k].thread == t && Inside(s.calls[k].phase))
  {
    var s := After(INITIAL, run);
    InitialInv();
    RunKeepsInv(INITIAL, run);
    forall k | 0 <= k < |s.calls| && Inside(s.calls[k].phase) ensures s.writeLock == Some(k) {
      assert Holding(s.calls[k].phase);
    }
  }

  /** Entry is refused exactly to the thread already inside: nested writers, drains and reopens
      are always rejected and outsiders never are. */
  lemma NestedEntryIsRejected(run: seq<Action>, t: ThreadId, permanent: bool)
    requires IsRun(INITIAL, run) && MayStart(After(INITIAL, run), t)
    ensures var s := After(INITIAL, run);
      var inside := exists k :: 0 <= k < |s.calls| && s.calls[k].thread == t && Inside(s.calls[k].phase);
      && At(Apply(s, BeginWrite(t)), |s.calls|) == (if inside then Done else AwaitWrite)
      && At(Apply(s, BeginClose(t, permanent)), |s.calls|) == (if inside then Done else AwaitClose(permanent))
      && At(Apply(s, BeginReopen(t)), |s.calls|) == (if inside then Done else AwaitReopen)
  {
    WriterTestIsExact(run, t);
  }

  /** No thread ever queues for the write lock while holding it itself. */
  lemma NoSelfDeadlock(run: seq<Action>, h: CallId, w: CallId)
    requires IsRun(INITIAL, run)
    requires var s := After(INITIAL, run);
      h < |s.calls| && w < |s.calls| && s.writeLock == Some(h) && Wants(At(s, w))
    ensures var s := After(INITIAL, run); s.calls[h].thread != s.calls[w].thread
  {
    InitialInv();
    RunKeepsInv(INITIAL, run);
    assert Holding(At(After(INITIAL, run), h));
  }

  // ----- what bodies see -----------------------------------------------------------------------

  /** Every body, reading or writing, starts with enforced foreign keys and no open transaction,
      whatever the previous users of the connection did. */
  lemma BodiesStartClean(run: seq<Action>, a: Action)
    requires IsRun(INITIAL, run) && Enabled(After(INITIAL, run), a)
    requires a.PrepareLease? || a.PrepareWriter?
    ensures var s := After(INITIAL, run);
      var s' := Apply(s, a);
      && (At(s', a.k).Reading? ==>
            var c := At(s', a.k).conn;
            c < |s'.conns| && s'.conns[c].foreignKeys && AtRest(s'.conns[c]) && s'.conns[c].queryOnly)
      && (At(s', a.k).Writing? ==>
            && s'.writeConn.Some? && s'.writeConn.value < |s'.conns|
            && var c := s'.conns[s'.writeConn.value]; c.foreignKeys && AtRest(c) && !c.queryOnly)
  {
    var s := After(INITIAL, run);
    InitialInv();
    RunKeepsInv(INITIAL, run);
    assert LeaseOk(s, s.calls[a.k].phase);
    assert Holding(s.calls[a.k].phase) <==> s.writeLock == Some(a.k);
  }

  function WriterView(s: State): Session
    requires s.writeConn.Some? && s.writeConn.value < |s.conns|
  {
    Session(s.conns[s.writeConn.value], s.committed)
  }

  /** The statements call `k` itself issued in a run. */
  function StmtsOf(k: CallId, run: seq<Action>): seq<Stmt> {
    if run == [] then []
    else (if run[0].WriteStmt? && run[0].k == k then [run[0].st] else []) + StmtsOf(k, run[1..])
  }

  lemma LeaseStepOffWriter(s: State, a: Action, w: ConnId)
    requires Enabled(s, a) && LeaseMoves(a) && w < |s.conns|
    requires HoldsOne(At(s, a.k)) ==> At(s, a.k).conn != w && LeaseOk(s, At(s, a.k))
    ensures var s' := Apply(s, a);
      s'.writeConn == s.writeConn && |s.conns| <= |s'.conns| && s'.conns[w] == s.conns[w] && s'.committed == s.committed
  {
    assert s.committed + [] == s.committed;
  }

  lemma OthersOnWriter(s: State, k: CallId, a: Action)
    requires Inv(s) && k < |s.calls| && At(s, k).Writing? && Enabled(s, a) && !Starts(a) && a.k != k
    ensures s.writeConn.Some? && s.writeConn.value < |s.conns|
    ensures var s' := Apply(s, a);
      && k < |s'.calls| && At(s', k).Writing? && s'.writeConn == s.writeConn && |s.conns| <= |s'.conns|
      && WriterView(s') == WriterView(s)
  {
    assert s.writeLock == Some(k) by {
      assert Holding(At(s, k));
    }
    OnlyLeasesMove(s, k, a);
    StepMovesOwnCall(s, a);
    assert LeaseOk(s, s.calls[a.k].phase);
    if HoldsOne(At(s, a.k)) {
      LeaseIsSole(s, a.k);
    }
    LeaseStepOffWriter(s, a, s.writeConn.value);
  }

  lemma StepOnWriter(s: State, k: CallId, a: Action)
    requires Inv(s) && k < |s.calls| && At(s, k).Writing? && Enabled(s, a)
    requires !(a.FinishWrite? && a.k == k)
    ensures s.writeConn.Some? && s.writeConn.value < |s.conns|
    ensures var s' := Apply(s, a);
      && k < |s'.calls| && At(s', k).Writing? && s'.writeConn == s.writeConn && |s.conns| <= |s'.conns|
      && WriterView(s') == if a.WriteStmt? && a.k == k then Exec(WriterView(s), a.st) else WriterView(s)
  {
    assert s.writeLock == Some(k) by {
      assert Holding(At(s, k));
    }
    if !Starts(a) && a.k != k {
      OthersOnWriter(s, k, a);
    }
  }

  /** A writer body is isolated: in any interleaving its connection and the committed data
      evolve as if its own statements ran alone. */
  lemma {:induction false} WriterRunsAlone(s: State, k: CallId, run: seq<Action>)
    requires Inv(s) && k < |s.calls| && At(s, k).Writing? && IsRun(s, run)
    requires forall i | 0 <= i < |run| :: !(run[i].FinishWrite? && run[i].k == k)
    ensures s.writeConn.Some? && s.writeConn.value < |s.conns|
    ensures var s' := After(s, run);
      && k < |s'.calls| && At(s', k).Writing? && s'.writeConn == s.writeConn && |s.conns| <= |s'.conns|
      && WriterView(s') == ExecAll(WriterView(s), StmtsOf(k, run))
    decreases |run|
  {
    if run == [] {
      assert Holding(At(s, k));
    } else {
      StepOnWriter(s, k, run[0]);
      StepKeepsInv(s, run[0]);
      var own := run[0].WriteStmt? && run[0].k == k;
      assert StmtsOf(k, run) == (if own then [run[0].st] else []) + StmtsOf(k, run[1..]);
      assert own ==> StmtsOf(k, run)[0] == run[0].st && StmtsOf(k, run)[1..] == StmtsOf(k, run[1..]);
      assert !own ==> StmtsOf(k, run) == StmtsOf(k, run[1..]);
      WriterRunsAlone(Apply(s, run[0]), k, run[1..]);
    }
  }

  /** `write_transaction` in any interleaving. A body that leaves its transaction open publishes its
      writes when it commits and nothing when it fails before the commit; any body that fails
      publishes nothing exactly when it did not commit a pending write itself. */
  lemma TransactionIsAtomic(s: State, k: CallId, run: seq<Action>, body: seq<Stmt>, commits: bool)
    requires Inv(s) && k < |s.calls| && At(s, k).Writing? && IsRun(s, run)
    requires s.writeConn.Some? && s.writeConn.value < |s.conns| && AtRest(WriterView(s).conn)
    requires forall i | 0 <= i < |run| :: !(run[i].FinishWrite? && run[i].k == k)
    requires StmtsOf(k, run) == [Begin] + body + (if commits then [Commit] else [])
    ensures KeepsTransaction(body) ==> After(s, run).committed == s.committed + (if commits then WritesOf(body) else [])
    ensures !commits ==> (After(s, run).committed == s.committed <==> !Escapes(body, false))
    ensures var s' := After(s, run);
      s'.writeConn.Some? && s'.writeConn.value < |s'.conns| && (commits ==> AtRest(WriterView(s').conn))
  {
    WriterRunsAlone(s, k, run);
    var x := WriterView(s);
    var tail := if commits then [Commit] else [];
    ExecAllConcat(x, [Begin] + body, tail);
    ExecAllConcat(x, [Begin], body);
    var y := ExecAll(x, [Begin]);
    assert y == Exec(x, Begin);
    BodyShowsIff(y, body);
    var z := ExecAll(y, body);
    if KeepsTransaction(body) {
      OpenTransactionCollects(y, body);
      assert z.conn.pending == [] + WritesOf(body) == WritesOf(body);
    }
    assert ExecAll(z, tail) == if commits then Exec(z, Commit) else z;
    assert s.committed + [] == s.committed;
  }

  /** A body that does not finish its transaction never publishes: the writer's exit, by return or
      by failure, leaves the committed data alone and the next lease clean. */
  lemma ExitPublishesNothing(s: State, k: CallId, ok: bool)
    requires Inv(s) && Enabled(s, FinishWrite(k, ok))
    ensures var s' := Apply(s, FinishWrite(k, ok));
      && s'.committed == s.committed
      && (ok ==> s'.writeConn == s.writeConn && AtRest(s'.conns[s'.writeConn.value]))
      && (!ok ==> s'.writeConn.None? && s.writeConn.value in s'.gone)
  {
  }
}
