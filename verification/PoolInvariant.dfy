/** The inductive invariant of the pool, and how connections move between places. */
module PoolInvariant {
  import opened Wrappers
  import opened Sqlite
  import opened PoolModel

  // ----- places ----------------------------------------------------------------------------

  /** The places a connection can be in: a slot of the idle pool, a slot of one call's locals
      (leased or being retired), the cached writer, or closed. */
  datatype Place = Idle(i: nat) | Held(k: CallId, i: nat) | Cached | Gone

  predicate HeldAt(p: Phase, i: nat, c: ConnId) {
    match p
    case Unprepared(_, x) => i == 0 && c == x
    case Reading(_, x) => i == 0 && c == x
    case Returning(_, x, _) => i == 0 && c == x
    case Settled(_, x, _) => i == 0 && c == x
    case Retiring(x) => i == 0 && c == x
    case Drained(list) => i < |list| && list[i] == c
    case Closing(list, next) => next <= i < |list| && list[i] == c
    case _ => false
  }

  predicate Has(s: State, p: Place, c: ConnId) {
    match p
    case Idle(i) => i < |s.idle| && s.idle[i] == c
    case Held(k, i) => k < |s.calls| && HeldAt(s.calls[k].phase, i, c)
    case Cached => s.writeConn == Some(c)
    case Gone => c in s.gone
  }

  ghost predicate Somewhere(s: State, c: ConnId) { exists p :: Has(s, p, c) }

  /** Every connection ever opened is in exactly one place. */
  ghost predicate OnePlace(s: State) {
    && (forall p, c: ConnId :: Has(s, p, c) ==> c < |s.conns|)
    && (forall c: ConnId | c < |s.conns| :: Somewhere(s, c))
    && (forall c: ConnId, p, q :: Has(s, p, c) && Has(s, q, c) ==> p == q)
  }

  // ----- connections at rest ---------------------------------------------------------------

  predicate AtRest(c: Conn) { !c.inTx && c.pending == [] }

  predicate ConnsOk(s: State) {
    && |s.idle| <= MAX_IDLE_CONNECTIONS
    && (forall c | 0 <= c < |s.conns| :: s.conns[c].born <= s.generation)
    && (forall i | 0 <= i < |s.idle| ::
          s.idle[i] < |s.conns| && s.conns[s.idle[i]].born == s.generation && AtRest(s.conns[s.idle[i]]))
  }

  // ----- leases ----------------------------------------------------------------------------

  predicate HasGen(p: Phase) {
    p.Connecting? || p.Unprepared? || p.Reading? || p.Returning? || p.Settled?
  }

  predicate LeaseOk(s: State, p: Phase) {
    && (HasGen(p) ==> p.gen <= s.generation && (s.closed ==> p.gen < s.generation))
    && (HasGen(p) && !p.Connecting? ==> p.conn < |s.conns| && p.gen <= s.conns[p.conn].born)
    && (p.Unprepared? || p.Settled? ==> AtRest(s.conns[p.conn]))
    && (p.Reading? ==> s.conns[p.conn].queryOnly && s.conns[p.conn].pending == [])
  }

  predicate LeasesOk(s: State) {
    && (s.closed ==> s.idle == [])
    && forall k | 0 <= k < |s.calls| :: LeaseOk(s, s.calls[k].phase)
  }

  // ----- the writer ------------------------------------------------------------------------

  predicate Inside(p: Phase) { p.Entered? || p.Opened? || p.Writing? || p.Leaving? }

  predicate Holding(p: Phase) {
    Inside(p) || p.Releasing? || p.HoldingClose? || p.Drained? || p.Closing?
  }

  predicate LockOk(s: State) {
    && (forall k | 0 <= k < |s.calls| :: Holding(s.calls[k].phase) <==> s.writeLock == Some(k))
    && (s.writeLock.Some? ==> s.writeLock.value < |s.calls|)
    && s.writerThread ==
         (if s.writeLock.Some? && Inside(At(s, s.writeLock.value)) then Some(s.calls[s.writeLock.value].thread)
          else None)
  }

  function Holder(s: State): Phase {
    if s.writeLock.Some? && s.writeLock.value < |s.calls| then At(s, s.writeLock.value) else Done
  }

  predicate WriterOk(s: State) {
    var h := Holder(s);
    && (s.closed ==> !Inside(h))
    && (s.closed && !h.Drained? ==> s.writeConn.None?)
    && (h.Opened? || h.Writing? ==> s.writeConn.Some?)
    && (s.writeConn.Some? ==>
          && s.writeConn.value < |s.conns|
          && !s.conns[s.writeConn.value].queryOnly
          && (!h.Drained? ==> s.conns[s.writeConn.value].born == s.generation)
          && (!h.Writing? ==> AtRest(s.conns[s.writeConn.value])))
  }

  // ----- threads ---------------------------------------------------------------------------

  predicate Wants(p: Phase) { p.AwaitWrite? || p.AwaitClose? || p.AwaitReopen? }

  /** Of two live calls of one thread the outer is in its body, and when it is the writer body the
      inner call is not queueing for the write lock. */
  predicate NestingOk(s: State) {
    forall i, j | 0 <= i < j < |s.calls| && s.calls[i].thread == s.calls[j].thread
                  && !s.calls[i].phase.Done? && !s.calls[j].phase.Done? ::
      && InBody(s.calls[i].phase)
      && (s.calls[i].phase.Writing? ==> !Wants(s.calls[j].phase))
  }

  predicate Core(s: State) {
    ConnsOk(s) && LeasesOk(s) && LockOk(s) && WriterOk(s)
  }

  ghost predicate Inv(s: State) {
    OnePlace(s) && Core(s) && NestingOk(s)
  }

  // ----- how places move -------------------------------------------------------------------

  lemma SamePlaces(s: State, s': State)
    requires OnePlace(s) && |s'.conns| == |s.conns|
    requires forall p, c: ConnId :: Has(s', p, c) == Has(s, p, c)
    ensures OnePlace(s')
  {
    forall c: ConnId | c < |s'.conns| ensures Somewhere(s', c) {
      assert Somewhere(s, c);
      var p :| Has(s, p, c);
      assert Has(s', p, c);
    }
  }

  /** Only `x` changes place. */
  lemma OneMoves(s: State, s': State, x: ConnId, from: Place, to: Place)
    requires OnePlace(s) && |s'.conns| == |s.conns| && from != to
    requires Has(s, from, x) && !Has(s', from, x) && Has(s', to, x)
    requires forall p, c: ConnId | c != x || (p != from && p != to) :: Has(s', p, c) == Has(s, p, c)
    ensures OnePlace(s')
  {
    forall c: ConnId | c < |s'.conns| ensures Somewhere(s', c) {
      if c != x {
        assert Somewhere(s, c);
        var p :| Has(s, p, c);
        assert Has(s', p, c);
      }
    }
  }

  /** A connection is opened. */
  lemma OneOpens(s: State, s': State, to: Place)
    requires OnePlace(s) && |s'.conns| == |s.conns| + 1
    requires Has(s', to, |s.conns|)
    requires forall p, c: ConnId | c != |s.conns| || p != to :: Has(s', p, c) == Has(s, p, c)
    ensures OnePlace(s')
  {
    forall c: ConnId | c < |s'.conns| ensures Somewhere(s', c) {
      if c != |s.conns| {
        assert Somewhere(s, c);
        var p :| Has(s, p, c);
        assert Has(s', p, c);
      }
    }
  }

  /** Draining renames every idle slot to the same slot of the draining call. */
  lemma DrainMoves(s: State, k: CallId)
    requires OnePlace(s) && k < |s.calls| && At(s, k).HoldingClose?
    ensures OnePlace(DrainIdle(s, k))
  {
    var s' := DrainIdle(s, k);
    forall c: ConnId | c < |s'.conns| ensures Somewhere(s', c) {
      assert Somewhere(s, c);
      var p :| Has(s, p, c);
      assert Has(s', if p.Idle? then Held(k, p.i) else p, c);
    }
    forall c: ConnId, p, q | Has(s', p, c) && Has(s', q, c) ensures p == q {
      var p0 := if p.Held? && p.k == k then Idle(p.i) else p;
      var q0 := if q.Held? && q.k == k then Idle(q.i) else q;
      assert Has(s, p0, c) && Has(s, q0, c);
    }
    forall p, c: ConnId | Has(s', p, c) ensures c < |s'.conns| {
      assert Has(s, if p.Held? && p.k == k then Idle(p.i) else p, c);
    }
  }
}
