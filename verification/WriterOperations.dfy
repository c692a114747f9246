/** The operations built on the writer lease, run by the one thread that holds the write lock:
    `writer_connection`, `write_transaction`, `write_schema_reset_transaction` and `execute`. */
module WriterOperations {
  import opened Wrappers
  import opened Sqlite
  import opened PoolInvariant

  /** Where the first exception of an operation comes from. */
  datatype Fault =
    | NoFault
    | AtConnect
    | AtPrepare
    | AtBegin
    | InBody(executed: nat)
    | AtCheck
    | AtCommit
    | AtRestore

  /** Faults before the body; a cached connection needs no connect. */
  predicate LeaseFails(fault: Fault, cached: Option<Conn>) {
    fault.AtPrepare? || (fault.AtConnect? && cached.None?)
  }

  /** The statements a body got through. */
  function Reached(body: seq<Stmt>, fault: Fault): seq<Stmt> {
    if fault.InBody? && fault.executed < |body| then body[..fault.executed] else body
  }

  lemma TransactionBody(x: Session, body: seq<Stmt>)
    requires AtRest(x.conn) && !x.conn.queryOnly && KeepsTransaction(body)
    ensures var z := ExecAll(Exec(x, Begin), body);
      && z == x.(conn := x.conn.(inTx := true, pending := WritesOf(body)))
      && Exec(z, Commit) == x.(committed := x.committed + WritesOf(body))
  {
    var y := x.(conn := x.conn.(inTx := true, pending := []));
    OpenTransactionCollects(y, body);
    assert [] + WritesOf(body) == WritesOf(body);
  }

  /** What the body of a transaction has done by its end and by a commit after it. */
  lemma BodyOutcome(x: Session, body: seq<Stmt>)
    requires AtRest(x.conn) && !x.conn.queryOnly
    ensures var z := ExecAll(Exec(x, Begin), body);
      && Tidy(z.conn) && !z.conn.queryOnly && x.committed <= z.committed <= Exec(z, Commit).committed
      && AtRest(Exec(z, Commit).conn)
      && (z.committed == x.committed <==> !Escapes(body, false))
      && (KeepsTransaction(body) ==>
            z.committed == x.committed && Exec(z, Commit).committed == x.committed + WritesOf(body))
  {
    BodyShowsIff(Exec(x, Begin), body);
    if KeepsTransaction(body) {
      TransactionBody(x, body);
    }
  }

  /** What a body and the commit after it publish. */
  lemma CommitShowsIff(x: Session, body: seq<Stmt>)
    requires AtRest(x.conn) && !x.conn.queryOnly
    ensures Exec(ExecAll(Exec(x, Begin), body), Commit).committed == x.committed <==> !Escapes(body + [Commit], false)
  {
    var b := Exec(x, Begin);
    BodyShowsIff(b, body + [Commit]);
    ExecAllConcat(b, body, [Commit]);
    var z := ExecAll(b, body);
    assert ExecAll(z, [Commit]) == ExecAll(Exec(z, Commit), []);
  }

  lemma KeepsReached(body: seq<Stmt>, fault: Fault)
    ensures KeepsTransaction(body) ==> KeepsTransaction(Reached(body, fault))
  {
  }

  class Writer {
    var committed: seq<Write>
    var cached: Option<Conn>

    /** The cached writer is left without an open transaction; its foreign keys may be off. */
    predicate Valid()
      reads this
    {
      cached.Some? ==> AtRest(cached.value) && !cached.value.queryOnly
    }

    constructor ()
      ensures Valid() && committed == [] && cached == None
    {
      committed, cached := [], None;
    }

    /** Opening of a writer lease: connect when needed, then prepare. */
    method Acquire(fault: Fault) returns (lease: Option<Conn>)
      requires Valid()
      modifies this
      ensures Valid() && committed == old(committed)
      ensures lease.None? <==> LeaseFails(fault, old(cached))
      ensures lease.Some? ==>
        cached == lease && lease.value.foreignKeys && AtRest(lease.value) && !lease.value.queryOnly
      ensures lease.Some? && old(cached).Some? ==> lease.value == old(cached).value.(foreignKeys := true)
      ensures lease.None? ==> cached == None
    {
      if cached == None {
        if fault.AtConnect? {
          return None;
        }
        cached := Some(Fresh(0));
      }
      if fault.AtPrepare? {
        cached := None;
        return None;
      }
      cached := Some(Exec(Session(cached.value, []), ForeignKeys(true)).conn);
      lease := cached;
    }

    /** End of a writer lease. A failure retires the connection, which drops its transaction; a
        return rolls back what was not committed. */
    method Release(x: Session, ok: bool)
      requires !x.conn.queryOnly
      modifies this
      ensures Valid() && committed == x.committed
      ensures cached == if ok then Some(RolledBack(x.conn)) else None
    {
      committed := x.committed;
      if ok {
        cached := Some(if x.conn.inTx then RolledBack(x.conn) else x.conn.(pending := []));
      } else {
        cached := None;
      }
    }

    /** `write_transaction`. The body starts with enforced foreign keys and no transaction. The
        writes of a body that leaves its transaction open are published exactly when the call
        returns; of any body, a failure leaves nothing behind exactly when the statements it got
        through contain no commit of a pending write. */
    method WriteTransaction(body: seq<Stmt>, fault: Fault) returns (ok: bool, start: Option<Conn>)
      requires Valid()
      modifies this
      ensures Valid()
      ensures start.Some? ==> start.value.foreignKeys && AtRest(start.value)
      ensures !ok <==> LeaseFails(fault, old(cached)) || fault.AtBegin? || fault.InBody? || fault.AtCommit?
      ensures KeepsTransaction(body) ==> committed == old(committed) + (if ok then WritesOf(body) else [])
      ensures old(committed) <= committed
      ensures !ok ==>
        (committed == old(committed) <==>
         !((fault.InBody? || fault.AtCommit?) && Escapes(Reached(body, fault), false)))
      ensures ok ==> (committed == old(committed) <==> !Escapes(body + [Commit], false))
      ensures !ok ==> cached == None
    {
      start := Acquire(fault);
      if start.None? {
        return false, start;
      }
      var x := Session(start.value, committed);
      if fault.AtBegin? {
        Release(x, false);
        return false, start;
      }
      BodyOutcome(x, Reached(body, fault));
      CommitShowsIff(x, Reached(body, fault));
      KeepsReached(body, fault);
      x := Exec(x, Begin);
      x := ExecAll(x, Reached(body, fault));
      if fault.InBody? || fault.AtCommit? {
        Release(x, false);
        return false, start;
      }
      x := Exec(x, Commit);
      Release(x, true);
      ok := true;
    }

    /** `write_schema_reset_transaction`. Foreign keys are off when the transaction opens, and a
        commit happens only without violations. A failure before the commit behaves like one of
        `write_transaction`; a failure to switch foreign keys back on comes after the commit and
        publishes whatever a return would have published. */
    method WriteSchemaReset(body: seq<Stmt>, violations: bool, fault: Fault)
      returns (ok: bool, start: Option<Conn>, inside: Option<Conn>)
      requires Valid()
      modifies this
      ensures Valid()
      ensures start.Some? ==> start.value.foreignKeys && AtRest(start.value)
      ensures inside.Some? ==> inside.value.inTx && !inside.value.foreignKeys
      ensures !ok <==>
        LeaseFails(fault, old(cached)) || violations || (!fault.NoFault? && !fault.AtConnect?)
      ensures KeepsTransaction(body) ==>
        committed == old(committed) + (if ok || (fault.AtRestore? && !violations) then WritesOf(body) else [])
      ensures old(committed) <= committed
      ensures !ok && (violations || !fault.AtRestore?) ==>
        (committed == old(committed) <==> !(inside.Some? && Escapes(Reached(body, fault), false)))
      ensures ok || (!violations && fault.AtRestore?) ==>
        (committed == old(committed) <==> !Escapes(body + [Commit], false))
      ensures ok ==> cached.Some? && cached.value.foreignKeys
      ensures !ok ==> cached == None
    {
      ok, inside := false, None;
      start := Acquire(fault);
      if start.None? {
        return;
      }
      var x := Exec(Session(start.value, committed), ForeignKeys(false));
      if x.conn.foreignKeys || fault.AtBegin? {
        Release(x, false);
        return;
      }
      BodyOutcome(x, Reached(body, fault));
      CommitShowsIff(x, Reached(body, fault));
      KeepsReached(body, fault);
      x := Exec(x, Begin);
      inside := Some(x.conn);
      x := ExecAll(x, Reached(body, fault));
      if fault.InBody? || fault.AtCheck? || violations || fault.AtCommit? {
        Release(x, false);
        return;
      }
      x := Exec(x, Commit);
      if fault.AtRestore? {
        Release(x, false);
        return;
      }
      x := Exec(x, ForeignKeys(true));
      Release(x, true);
      ok := true;
    }

    /** `execute`: one statement, of any kind, and its commit. Its write is published exactly when
        the call returns. */
    method Execute(st: Stmt, fault: Fault) returns (ok: bool)
      requires Valid()
      modifies this
      ensures Valid()
      ensures !ok <==> LeaseFails(fault, old(cached)) || fault.InBody? || fault.AtCommit?
      ensures committed == old(committed) + (if ok && st.Insert? then [st.w] else [])
      ensures !ok ==> cached == None
    {
      var start := Acquire(fault);
      if start.None? {
        return false;
      }
      var x := Session(start.value, committed);
      if fault.InBody? {
        Release(x, false);
        return false;
      }
      x := Exec(x, st);
      if fault.AtCommit? {
        Release(x, false);
        return false;
      }
      x := Exec(x, Commit);
      Release(x, true);
      ok := true;
    }
  }

  /** The rule about bodies is needed: what a body commits on its own is not undone by its failure. */
  lemma CommittingBodyEscapes(x: Session, body: seq<Stmt>)
    requires AtRest(x.conn) && !x.conn.queryOnly && KeepsTransaction(body)
    ensures ExecAll(Exec(x, Begin), body + [Commit]).committed == x.committed + WritesOf(body)
  {
    TransactionBody(x, body);
    ExecAllConcat(Exec(x, Begin), body, [Commit]);
    var z := ExecAll(Exec(x, Begin), body);
    assert ExecAll(z, [Commit]) == ExecAll(Exec(z, Commit), []);
  }
}
