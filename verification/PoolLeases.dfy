/** How a read lease ends: what its body did decides whether its connection is used again. */
module PoolLeases {
  import opened Wrappers
  import opened Sqlite
  import opened PoolModel
  import opened PoolInvariant
  import opened PoolSteps
  import opened PoolTheorems

  /** Call `k` is on its way out with connection `c`, leased under `gen`; `returned` says whether its
      body returned. */
  predicate Leaving(s: State, k: CallId, gen: nat, c: ConnId, returned: bool) {
    k < |s.calls| &&
    match At(s, k)
    case Returning(g, x, r) => g == gen && x == c && r == returned
    case Settled(g, x, r) => g == gen && x == c && r == returned
    case Retiring(x) => x == c
    case Done => returned || c in s.gone
    case _ => false
  }

  lemma OwnStepLeaves(s: State, a: Action, gen: nat, c: ConnId, returned: bool)
    requires Enabled(s, a) && !Starts(a) && Leaving(s, a.k, gen, c, returned)
    ensures Leaving(Apply(s, a), a.k, gen, c, returned)
  {
  }

  lemma StepLeaves(s: State, k: CallId, a: Action, gen: nat, c: ConnId, returned: bool)
    requires Enabled(s, a) && Leaving(s, k, gen, c, returned)
    ensures Leaving(Apply(s, a), k, gen, c, returned)
  {
    StepClosesMore(s, a);
    if Starts(a) {
      StartKeepsCalls(s, a);
      assert s.calls[k] == Apply(s, a).calls[..|s.calls|][k];
    } else if a.k == k {
      OwnStepLeaves(s, a, gen, c, returned);
    } else {
      StepMovesOwnCall(s, a);
    }
  }

  lemma {:induction false} RunLeaves(s: State, k: CallId, run: seq<Action>, gen: nat, c: ConnId, returned: bool)
    requires IsRun(s, run) && Leaving(s, k, gen, c, returned)
    ensures Leaving(After(s, run), k, gen, c, returned)
    decreases |run|
  {
    if run != [] {
      StepLeaves(s, k, run[0], gen, c, returned);
      RunLeaves(Apply(s, run[0]), k, run[1..], gen, c, returned);
    }
  }

  /** The action that ends the body of a lease, or its preparation. */
  predicate EndsBody(a: Action) { a.FinishRead? || (a.PrepareLease? && !a.ok) }

  lemma NotIdleWhileLeaving(s: State, k: CallId, gen: nat, c: ConnId)
    requires OnePlace(s) && Leaving(s, k, gen, c, false)
    ensures c !in s.idle
  {
    forall i | 0 <= i < |s.idle| ensures s.idle[i] != c {
      if s.idle[i] == c {
        assert Has(s, Idle(i), c) && (Has(s, Held(k, 0), c) || Has(s, Gone, c));
      }
    }
  }

  lemma LeavingBegins(s: State, a: Action)
    requires Enabled(s, a) && EndsBody(a)
    ensures Leaving(Apply(s, a), a.k, At(s, a.k).gen, At(s, a.k).conn, a.ok)
  {
  }

  /** A lease whose body or preparation raised: in no later state is its connection idle, and when the
      call is over the connection is closed. */
  lemma RaisedLeaseIsClosed(run0: seq<Action>, a: Action, run: seq<Action>)
    requires IsRun(INITIAL, run0) && Enabled(After(INITIAL, run0), a) && EndsBody(a) && !a.ok
    requires IsRun(Apply(After(INITIAL, run0), a), run)
    ensures var s0 := After(INITIAL, run0);
      var c := At(s0, a.k).conn;
      var s := After(Apply(s0, a), run);
      c !in s.idle && a.k < |s.calls| && (At(s, a.k).Done? ==> c in s.gone)
  {
    var s0 := After(INITIAL, run0);
    var gen, c := At(s0, a.k).gen, At(s0, a.k).conn;
    InitialInv();
    RunKeepsInv(INITIAL, run0);
    StepKeepsInv(s0, a);
    RunKeepsInv(Apply(s0, a), run);
    LeavingBegins(s0, a);
    RunLeaves(Apply(s0, a), a.k, run, gen, c, false);
    NotIdleWhileLeaving(After(Apply(s0, a), run), a.k, gen, c);
  }

  lemma ReturnIs(s: State, k: CallId, gen: nat, c: ConnId, returned: bool)
    requires Enabled(s, ReturnLease(k)) && Leaving(s, k, gen, c, returned)
    ensures var s' := Apply(s, ReturnLease(k));
      if returned && gen == s.generation && |s.idle| < MAX_IDLE_CONNECTIONS
      then s'.idle == s.idle + [c] && At(s', k).Done?
      else s'.idle == s.idle && At(s', k) == Retiring(c)
  {
  }

  /** When a lease comes to be returned, its connection becomes the last of the pool exactly when its
      body returned, the generation is the one it began under and the pool has room; otherwise the
      pool stays as it is and the connection is closed next. */
  lemma ReturnedLeaseIsPooledIff(run0: seq<Action>, a: Action, run: seq<Action>)
    requires IsRun(INITIAL, run0) && Enabled(After(INITIAL, run0), a) && EndsBody(a)
    requires IsRun(Apply(After(INITIAL, run0), a), run)
    requires Enabled(After(Apply(After(INITIAL, run0), a), run), ReturnLease(a.k))
    ensures var s0 := After(INITIAL, run0);
      var s := After(Apply(s0, a), run);
      var s' := Apply(s, ReturnLease(a.k));
      if a.ok && At(s0, a.k).gen == s.generation && |s.idle| < MAX_IDLE_CONNECTIONS
      then s'.idle == s.idle + [At(s0, a.k).conn] && At(s', a.k).Done?
      else s'.idle == s.idle && At(s', a.k) == Retiring(At(s0, a.k).conn)
  {
    var s0 := After(INITIAL, run0);
    LeavingBegins(s0, a);
    RunLeaves(Apply(s0, a), a.k, run, At(s0, a.k).gen, At(s0, a.k).conn, a.ok);
    ReturnIs(After(Apply(s0, a), run), a.k, At(s0, a.k).gen, At(s0, a.k).conn, a.ok);
  }

  /** A lease opens a connection only when the pool is empty: otherwise it takes the one that was
      returned last. */
  lemma LastReturnedIsLeasedFirst(s: State, k: CallId, t: ThreadId)
    requires Inv(s) && Enabled(s, ReturnLease(k)) && Apply(s, ReturnLease(k)).idle != s.idle
    requires Enabled(Apply(s, ReturnLease(k)), BeginLease(t))
    ensures var s' := Apply(Apply(s, ReturnLease(k)), BeginLease(t));
      && At(s', |s.calls|) == Unprepared(s.generation, At(s, k).conn)
      && s'.idle == s.idle && s'.conns == s.conns
  {
    assert LeaseOk(s, At(s, k));
  }
}
