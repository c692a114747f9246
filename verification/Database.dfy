/** The class `DB`: its fields and its atomic sections, each proved to be one action of the pool
    machine. A section runs under the lock the code takes for it; interleaving is in `PoolModel`. */
module Database {
  import opened Wrappers
  import opened Sqlite
  import opened PoolModel
  import opened PoolInvariant
  import opened PoolSteps

  /** A lease holds a connection of the current generation, without a transaction and in no other
      hands. */
  predicate OwnsCurrent(s: State, k: CallId) {
    && k < |s.calls| && HoldsOne(At(s, k)) && At(s, k).conn < |s.conns|
    && var c := At(s, k).conn;
       s.conns[c].born == s.generation && AtRest(s.conns[c]) && Only(s, k, c) && s.writeConn != Some(c)
  }

  predicate ReadsClean(s: State, k: CallId) {
    && k < |s.calls| && At(s, k).Reading? && At(s, k).conn < |s.conns|
    && var c := s.conns[At(s, k).conn]; c.foreignKeys && c.queryOnly && AtRest(c)
  }

  predicate WriterAtRest(s: State) {
    s.writeConn.Some? && s.writeConn.value < |s.conns| && AtRest(s.conns[s.writeConn.value])
  }

  predicate WritesClean(s: State) {
    WriterAtRest(s) && s.conns[s.writeConn.value].foreignKeys && !s.conns[s.writeConn.value].queryOnly
  }

  predicate NobodyInside(s: State) {
    forall j | 0 <= j < |s.calls| :: !Inside(s.calls[j].phase)
  }

  predicate ThreadInside(s: State, t: ThreadId) {
    exists j :: 0 <= j < |s.calls| && s.calls[j].thread == t && Inside(s.calls[j].phase)
  }

  lemma InsideHolds(s: State)
    requires LockOk(s)
    ensures forall j: CallId | j < |s.calls| && Inside(s.calls[j].phase) :: s.writeLock == Some(j)
    ensures forall t: ThreadId :: s.writerThread == Some(t) <==> ThreadInside(s, t)
    ensures s.writerThread.None? ==> NobodyInside(s)
  {
    forall j: CallId | j < |s.calls| && Inside(s.calls[j].phase) ensures s.writeLock == Some(j) {
      assert Holding(s.calls[j].phase);
    }
  }

  lemma DrainedIsNotIdle(s: State, k: CallId)
    requires OnePlace(s) && k < |s.calls| && At(s, k).Closing? && At(s, k).next < |At(s, k).list|
    ensures At(s, k).list[At(s, k).next] !in s.idle
  {
    var c := At(s, k).list[At(s, k).next];
    forall i | 0 <= i < |s.idle| ensures s.idle[i] != c {
      if s.idle[i] == c {
        assert Has(s, Idle(i), c) && Has(s, Held(k, At(s, k).next), c);
      }
    }
  }

  /** `s` is `was` with the first `i` connections of call `k`'s list closed. */
  ghost predicate ClosedTo(was: State, s: State, k: CallId, i: nat) {
    && k < |was.calls| && Innermost(was, k) && At(was, k).Closing? && i <= |At(was, k).list|
    && var list := At(was, k).list;
       s == was.(gone := was.gone + (set c | c in list[..i]),
                 calls := was.calls[k := was.calls[k].(phase := Closing(list, i))])
  }

  lemma NoneClosedYet(s: State, k: CallId)
    requires k < |s.calls| && Innermost(s, k) && At(s, k).Closing? && At(s, k).next == 0
    ensures ClosedTo(s, s, k, 0)
  {
    assert s.calls[k := s.calls[k].(phase := Closing(At(s, k).list, 0))] == s.calls;
  }

  lemma NextCloses(was: State, s: State, k: CallId, i: nat)
    requires ClosedTo(was, s, k, i) && i < |At(was, k).list|
    ensures Enabled(s, CloseNext(k)) && ClosedTo(was, Apply(s, CloseNext(k)), k, i + 1)
  {
    var list := At(was, k).list;
    assert list[..i + 1] == list[..i] + [list[i]];
  }

  class DB {
    var idleConnections: seq<ConnId>
    var connectionGeneration: nat
    var closed: bool
    var writeLock: Option<CallId>
    var writerThread: Option<ThreadId>
    var writeConnection: Option<ConnId>
    // SQLite's side, and the calls in progress
    var conns: seq<Conn>
    var gone: set<ConnId>
    var committed: seq<Write>
    var calls: seq<Call>

    function View(): (s: State)
      reads this
    {
      State(idleConnections, connectionGeneration, closed, writeLock, writerThread, writeConnection,
            conns, gone, committed, calls)
    }

    constructor ()
      ensures View() == INITIAL && Inv(View())
    {
      idleConnections, connectionGeneration, closed := [], 0, false;
      writeLock, writerThread, writeConnection := None, None, None;
      conns, gone, committed, calls := [], {}, [], [];
      new;
      InitialInv();
    }

    // ----- conn() ------------------------------------------------------------------------

    /** First locked section of `conn`: refuse when closed, else read the generation and pop. */
    method BeginLease(t: ThreadId) returns (k: CallId)
      requires Inv(View()) && Enabled(View(), PoolModel.BeginLease(t))
      modifies this
      ensures Inv(View()) && View() == Apply(old(View()), PoolModel.BeginLease(t)) && k == |old(calls)|
      ensures calls[k].phase.Done? <==> closed
      ensures calls[k].phase.Unprepared? ==> OwnsCurrent(View(), k)
      ensures conns == old(conns) && (calls[k].phase.Connecting? ==> old(idleConnections) == [])
      ensures calls[k].phase.Unprepared? ==> old(idleConnections) == idleConnections + [calls[k].phase.conn]
    {
      StepKeepsInv(View(), PoolModel.BeginLease(t));
      k := |calls|;
      var phase := Done;
      if !closed {
        var generation := connectionGeneration;
        if idleConnections != [] {
          var last := |idleConnections| - 1;
          phase := Unprepared(generation, idleConnections[last]);
          idleConnections := idleConnections[..last];
        } else {
          phase := Connecting(generation);
        }
      }
      calls := calls + [Call(t, phase)];
      if calls[k].phase.Unprepared? {
        LeaseIsSole(View(), k);
      }
    }

    /** `sqlite3.connect`, outside any lock. */
    method Connect(k: CallId, ok: bool)
      requires Inv(View()) && Enabled(View(), PoolModel.Connect(k, ok))
      modifies this
      ensures Inv(View()) && View() == Apply(old(View()), PoolModel.Connect(k, ok))
      ensures ok ==> OwnsCurrent(View(), k)
    {
      StepKeepsInv(View(), PoolModel.Connect(k, ok));
      if ok {
        var conn := |conns|;
        conns := conns + [Fresh(connectionGeneration)];
        calls := calls[k := calls[k].(phase := Unprepared(calls[k].phase.gen, conn))];
        LeaseIsSole(View(), k);
      } else {
        calls := calls[k := calls[k].(phase := Done)];
      }
    }

    /** `_prepare_connection` and the query-only pragma; the lease of a failing one is not reusable. */
    method PrepareLease(k: CallId, ok: bool)
      requires Inv(View()) && Enabled(View(), PoolModel.PrepareLease(k, ok))
      modifies this
      ensures Inv(View()) && View() == Apply(old(View()), PoolModel.PrepareLease(k, ok))
      ensures if ok then ReadsClean(View(), k) else calls[k].phase.Returning? && !calls[k].phase.reusable
    {
      StepKeepsInv(View(), PoolModel.PrepareLease(k, ok));
      var p := calls[k].phase;
      if ok {
        conns := conns[p.conn := Prepared(conns[p.conn]).(queryOnly := true)];
        calls := calls[k := calls[k].(phase := Reading(p.gen, p.conn))];
      } else {
        calls := calls[k := calls[k].(phase := Returning(p.gen, p.conn, false))];
      }
    }

    /** The body of a lease returns, which makes the connection reusable, or raises. */
    method FinishRead(k: CallId, ok: bool)
      requires Inv(View()) && Enabled(View(), PoolModel.FinishRead(k, ok))
      modifies this
      ensures Inv(View()) && View() == Apply(old(View()), PoolModel.FinishRead(k, ok))
      ensures idleConnections == old(idleConnections) && calls[k].phase.reusable == ok
    {
      StepKeepsInv(View(), PoolModel.FinishRead(k, ok));
      var p := calls[k].phase;
      calls := calls[k := calls[k].(phase := Returning(p.gen, p.conn, ok))];
    }

    /** The rollback of a lease's `finally`; when it fails the connection is closed at once. */
    method Settle(k: CallId, ok: bool)
      requires Inv(View()) && Enabled(View(), PoolModel.Settle(k, ok))
      modifies this
      ensures Inv(View()) && View() == Apply(old(View()), PoolModel.Settle(k, ok))
      ensures idleConnections == old(idleConnections) && committed == old(committed)
      ensures if ok then calls[k].phase.Settled? && AtRest(conns[calls[k].phase.conn])
              else old(calls[k].phase.conn) in gone
    {
      StepKeepsInv(View(), PoolModel.Settle(k, ok));
      var p := calls[k].phase;
      if ok {
        conns := conns[p.conn := RolledBack(conns[p.conn])];
        calls := calls[k := calls[k].(phase := Settled(p.gen, p.conn, p.reusable))];
      } else {
        gone := gone + {p.conn};
        calls := calls[k := calls[k].(phase := Done)];
      }
    }

    /** Last locked section of `conn`: pool the connection or leave it to be closed. */
    method ReturnLease(k: CallId) returns (pooled: bool)
      requires Inv(View()) && Enabled(View(), PoolModel.ReturnLease(k))
      modifies this
      ensures Inv(View()) && View() == Apply(old(View()), PoolModel.ReturnLease(k))
      ensures pooled ==> !closed
      ensures var p := old(calls[k].phase);
        && (pooled <==>
            p.reusable && p.gen == connectionGeneration && |old(idleConnections)| < MAX_IDLE_CONNECTIONS)
        && idleConnections == old(idleConnections) + (if pooled then [p.conn] else [])
        && calls[k].phase == if pooled then Done else Retiring(p.conn)
    {
      StepKeepsInv(View(), PoolModel.ReturnLease(k));
      assert LeaseOk(View(), calls[k].phase);
      var p := calls[k].phase;
      pooled := p.reusable && p.gen == connectionGeneration && |idleConnections| < MAX_IDLE_CONNECTIONS;
      if pooled {
        idleConnections := idleConnections + [p.conn];
        calls := calls[k := calls[k].(phase := Done)];
      } else {
        calls := calls[k := calls[k].(phase := Retiring(p.conn))];
      }
    }

    /** The last close of a lease that was not pooled, outside any lock. */
    method CloseLease(k: CallId)
      requires Inv(View()) && Enabled(View(), PoolModel.CloseLease(k))
      modifies this
      ensures Inv(View()) && View() == Apply(old(View()), PoolModel.CloseLease(k))
      ensures old(calls[k].phase.conn) in gone && old(calls[k].phase.conn) !in idleConnections
    {
      StepKeepsInv(View(), PoolModel.CloseLease(k));
      LeaseIsSole(View(), k);
      gone := gone + {calls[k].phase.conn};
      calls := calls[k := calls[k].(phase := Done)];
    }

    // ----- _exclusive_writer and writer_connection ------------------------------------------

    /** The unlocked nesting test of `_exclusive_writer`. */
    method BeginWrite(t: ThreadId) returns (k: CallId, rejected: bool)
      requires Inv(View()) && Enabled(View(), PoolModel.BeginWrite(t))
      modifies this
      ensures Inv(View()) && View() == Apply(old(View()), PoolModel.BeginWrite(t)) && k == |old(calls)|
      ensures rejected <==> ThreadInside(old(View()), t)
    {
      StepKeepsInv(View(), PoolModel.BeginWrite(t));
      InsideHolds(View());
      k := |calls|;
      rejected := writerThread == Some(t);
      calls := calls + [Call(t, if rejected then Done else AwaitWrite)];
    }

    /** Take the write lock, refuse when closed, publish the writer's thread. */
    method EnterWrite(k: CallId) returns (entered: bool)
      requires Inv(View()) && Enabled(View(), PoolModel.EnterWrite(k))
      modifies this
      ensures Inv(View()) && View() == Apply(old(View()), PoolModel.EnterWrite(k))
      ensures entered == !old(closed)
      ensures entered ==> forall j | 0 <= j < |calls| && Inside(calls[j].phase) :: j == k
    {
      StepKeepsInv(View(), PoolModel.EnterWrite(k));
      entered := !closed;
      if closed {
        calls := calls[k := calls[k].(phase := Done)];
      } else {
        writeLock := Some(k);
        writerThread := Some(calls[k].thread);
        calls := calls[k := calls[k].(phase := Entered)];
      }
      InsideHolds(View());
    }

    /** Open the cached writer when there is none. */
    method OpenWriter(k: CallId, ok: bool)
      requires Inv(View()) && Enabled(View(), PoolModel.OpenWriter(k, ok))
      modifies this
      ensures Inv(View()) && View() == Apply(old(View()), PoolModel.OpenWriter(k, ok))
      ensures if calls[k].phase.Opened? then WriterAtRest(View()) else !ok && writeConnection.None?
    {
      StepKeepsInv(View(), PoolModel.OpenWriter(k, ok));
      if writeConnection == None {
        if !ok {
          calls := calls[k := calls[k].(phase := Leaving)];
          return;
        }
        writeConnection := Some(|conns|);
        conns := conns + [Fresh(connectionGeneration)];
      }
      calls := calls[k := calls[k].(phase := Opened)];
    }

    /** `_prepare_connection` for the writer; a failure retires the connection. */
    method PrepareWriter(k: CallId, ok: bool)
      requires Inv(View()) && Enabled(View(), PoolModel.PrepareWriter(k, ok))
      modifies this
      ensures Inv(View()) && View() == Apply(old(View()), PoolModel.PrepareWriter(k, ok))
      ensures committed == old(committed)
      ensures if ok then WritesClean(View()) else writeConnection.None? && old(writeConnection.value) in gone
    {
      StepKeepsInv(View(), PoolModel.PrepareWriter(k, ok));
      var conn := writeConnection.value;
      if ok {
        conns := conns[conn := Prepared(conns[conn])];
        calls := calls[k := calls[k].(phase := Writing)];
      } else {
        writeConnection := None;
        gone := gone + {conn};
        calls := calls[k := calls[k].(phase := Leaving)];
      }
    }

    /** The end of `writer_connection`: roll back what was not committed, or retire on failure. */
    method FinishWrite(k: CallId, ok: bool)
      requires Inv(View()) && Enabled(View(), PoolModel.FinishWrite(k, ok))
      modifies this
      ensures Inv(View()) && View() == Apply(old(View()), PoolModel.FinishWrite(k, ok))
      ensures committed == old(committed)
      ensures if ok then WriterAtRest(View()) else writeConnection.None? && old(writeConnection.value) in gone
    {
      StepKeepsInv(View(), PoolModel.FinishWrite(k, ok));
      var conn := writeConnection.value;
      if ok {
        conns := conns[conn := RolledBack(conns[conn])];
      } else {
        writeConnection := None;
        gone := gone + {conn};
      }
      calls := calls[k := calls[k].(phase := Leaving)];
    }

    /** The `finally` of `_exclusive_writer`. */
    method LeaveWrite(k: CallId)
      requires Inv(View()) && Enabled(View(), PoolModel.LeaveWrite(k))
      modifies this
      ensures Inv(View()) && View() == Apply(old(View()), PoolModel.LeaveWrite(k))
      ensures NobodyInside(View())
    {
      StepKeepsInv(View(), PoolModel.LeaveWrite(k));
      writerThread := None;
      calls := calls[k := calls[k].(phase := Releasing)];
      InsideHolds(View());
    }

    /** The release of the write lock. */
    method ReleaseWrite(k: CallId)
      requires Inv(View()) && Enabled(View(), PoolModel.ReleaseWrite(k))
      modifies this
      ensures Inv(View()) && View() == Apply(old(View()), PoolModel.ReleaseWrite(k))
      ensures writeLock.None? && NobodyInside(View())
    {
      StepKeepsInv(View(), PoolModel.ReleaseWrite(k));
      writeLock := None;
      calls := calls[k := calls[k].(phase := Done)];
      InsideHolds(View());
    }

    // ----- close_connections and reopen ------------------------------------------------------

    /** The unlocked test of `close_connections`. */
    method BeginClose(t: ThreadId, permanent: bool) returns (rejected: bool)
      requires Inv(View()) && Enabled(View(), PoolModel.BeginClose(t, permanent))
      modifies this
      ensures Inv(View()) && View() == Apply(old(View()), PoolModel.BeginClose(t, permanent))
      ensures rejected <==> ThreadInside(old(View()), t)
    {
      InsideHolds(View());
      StepKeepsInv(View(), PoolModel.BeginClose(t, permanent));
      rejected := writerThread == Some(t);
      calls := calls + [Call(t, if rejected then Done else AwaitClose(permanent))];
    }

    /** Waiting for the writer ends with the write lock. */
    method HoldClose(k: CallId)
      requires Inv(View()) && Enabled(View(), PoolModel.HoldClose(k))
      modifies this
      ensures Inv(View()) && View() == Apply(old(View()), PoolModel.HoldClose(k))
      ensures NobodyInside(View())
    {
      StepKeepsInv(View(), PoolModel.HoldClose(k));
      writeLock := Some(k);
      calls := calls[k := calls[k].(phase := HoldingClose(calls[k].phase.permanent))];
      InsideHolds(View());
    }

    /** Locked section of `close_connections`: close, advance the generation, take the pool. */
    method Drain(k: CallId)
      requires Inv(View()) && Enabled(View(), PoolModel.Drain(k))
      modifies this
      ensures Inv(View()) && View() == Apply(old(View()), PoolModel.Drain(k))
      ensures idleConnections == [] && closed == (old(closed) || old(calls[k].phase.permanent))
      ensures forall j | 0 <= j < |calls| && HasGen(calls[j].phase) :: calls[j].phase.gen < connectionGeneration
    {
      StepKeepsInv(View(), PoolModel.Drain(k));
      closed := closed || calls[k].phase.permanent;
      connectionGeneration := connectionGeneration + 1;
      var connections := idleConnections;
      idleConnections := [];
      calls := calls[k := calls[k].(phase := Drained(connections))];
    }

    /** Add the cached writer to the connections to close. */
    method DetachWriter(k: CallId)
      requires Inv(View()) && Enabled(View(), PoolModel.DetachWriter(k))
      modifies this
      ensures Inv(View()) && View() == Apply(old(View()), PoolModel.DetachWriter(k))
      ensures writeConnection.None? && calls[k].phase.Closing?
      ensures old(writeConnection).Some? ==> old(writeConnection).value in calls[k].phase.list
    {
      StepKeepsInv(View(), PoolModel.DetachWriter(k));
      var connections := calls[k].phase.list;
      if writeConnection != None {
        connections := connections + [writeConnection.value];
        writeConnection := None;
      }
      calls := calls[k := calls[k].(phase := Closing(connections, 0))];
    }

    /** One iteration of the closing loop. */
    method CloseNext(k: CallId)
      requires Inv(View()) && Enabled(View(), PoolModel.CloseNext(k))
      modifies this`gone, this`calls
      ensures Inv(View()) && View() == Apply(old(View()), PoolModel.CloseNext(k))
      ensures var c := old(calls[k].phase.list[calls[k].phase.next]); c in gone && c !in idleConnections
    {
      StepKeepsInv(View(), PoolModel.CloseNext(k));
      DrainedIsNotIdle(View(), k);
      var p := calls[k].phase;
      gone := gone + {p.list[p.next]};
      calls := calls[k := calls[k].(phase := Closing(p.list, p.next + 1))];
    }

    /** The closing loop, here with no other thread in between: it closes exactly the drained
        connections and touches nothing else. */
    method CloseDrained(k: CallId)
      requires Inv(View()) && k < |calls| && Innermost(View(), k)
      requires calls[k].phase.Closing? && calls[k].phase.next == 0
      modifies this`gone, this`calls
      ensures Inv(View()) && ClosedTo(old(View()), View(), k, |old(calls[k].phase.list)|)
    {
      ghost var was := View();
      var connections := calls[k].phase.list;
      var i := 0;
      NoneClosedYet(was, k);
      while i < |connections|
        invariant 0 <= i <= |connections| && Inv(View()) && ClosedTo(was, View(), k, i)
      {
        ghost var before := View();
        NextCloses(was, before, k, i);
        CloseNext(k);
        assert View() == Apply(before, PoolModel.CloseNext(k));
        i := i + 1;
      }
    }

    /** The end of `close_connections`. */
    method ReleaseClose(k: CallId)
      requires Inv(View()) && Enabled(View(), PoolModel.ReleaseClose(k))
      modifies this
      ensures Inv(View()) && View() == Apply(old(View()), PoolModel.ReleaseClose(k))
      ensures writeLock.None? && (closed ==> idleConnections == [] && writeConnection.None?)
    {
      StepKeepsInv(View(), PoolModel.ReleaseClose(k));
      writeLock := None;
      calls := calls[k := calls[k].(phase := Done)];
    }

    /** The unlocked test of `reopen`. */
    method BeginReopen(t: ThreadId) returns (rejected: bool)
      requires Inv(View()) && Enabled(View(), PoolModel.BeginReopen(t))
      modifies this
      ensures Inv(View()) && View() == Apply(old(View()), PoolModel.BeginReopen(t))
      ensures rejected <==> ThreadInside(old(View()), t)
    {
      InsideHolds(View());
      StepKeepsInv(View(), PoolModel.BeginReopen(t));
      rejected := writerThread == Some(t);
      calls := calls + [Call(t, if rejected then Done else AwaitReopen)];
    }

    /** `reopen`: admit connections again. The generation does not change. */
    method Reopen(k: CallId)
      requires Inv(View()) && Enabled(View(), PoolModel.Reopen(k))
      modifies this
      ensures Inv(View()) && View() == Apply(old(View()), PoolModel.Reopen(k))
      ensures !closed && connectionGeneration == old(connectionGeneration)
      ensures old(closed) ==> idleConnections == [] && writeConnection.None?
    {
      StepKeepsInv(View(), PoolModel.Reopen(k));
      closed := false;
      calls := calls[k := calls[k].(phase := Done)];
    }
  }
}
