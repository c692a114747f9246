/** The login failure limiter: a fixed-window counter that blocks a key after too many failures. */
module LoginLimiter {
  import opened Wrappers
  import opened Windows

  /** `LOGIN_RATE_LIMIT_WINDOW_SEC`, `LOGIN_RATE_LIMIT_BLOCK_SEC`, `LOGIN_RATE_LIMIT_MAX_FAILURES`. */
  datatype Limits = Limits(window: real, block: real, maxFailures: nat) {
    predicate Valid() { window > 0.0 && block > 0.0 && maxFailures >= 1 }
  }

  datatype Slot = Slot(windowStart: real, failures: nat, blockedUntil: real)

  type Table = map<string, Slot>

  predicate Expired(l: Limits, slot: Slot, now: real) {
    slot.windowStart <= 0.0 || now - slot.windowStart > l.window
  }

  predicate Admits(t: Table, key: string, now: real) {
    key in t ==> t[key].blockedUntil <= now
  }

  function AfterCheck(l: Limits, t: Table, key: string, now: real): Table {
    if key in t && Admits(t, key, now) && Expired(l, t[key], now) then t - {key} else t
  }

  function AfterFail(l: Limits, t: Table, key: string, now: real): Table {
    var slot := if key !in t || Expired(l, t[key], now) then Slot(now, 0, 0.0) else t[key];
    if slot.failures + 1 >= l.maxFailures then t[key := Slot(now, 0, now + l.block)]
    else t[key := slot.(failures := slot.failures + 1)]
  }

  /** `login_rate_limit_state` and the three functions that update it. */
  class Limiter {
    const limits: Limits
    var state: Table

    constructor (limits: Limits)
      ensures this.limits == limits && state == map[]
    {
      this.limits := limits;
      state := map[];
    }

    method Check(key: string, now: real) returns (admitted: bool)
      modifies this
      ensures admitted == Admits(old(state), key, now)
      ensures state == AfterCheck(limits, old(state), key, now)
      ensures admitted <==> key !in old(state) || old(state)[key].blockedUntil <= now
      ensures !admitted ==> state == old(state)
      ensures admitted && key in state ==> state[key].windowStart > 0.0 && now - state[key].windowStart <= limits.window
      ensures forall k | k != key || k in state ::
        (k in state <==> k in old(state)) && (k in state ==> state[k] == old(state)[k])
    {
      if key !in state {
        return true;
      }
      var slot := state[key];
      if slot.blockedUntil > now {
        return false;
      }
      if slot.windowStart <= 0.0 || now - slot.windowStart > limits.window {
        state := state - {key};
      }
      admitted := true;
    }

    method Fail(key: string, now: real)
      modifies this
      ensures state == AfterFail(limits, old(state), key, now)
      ensures state.Keys == old(state).Keys + {key}
      ensures forall k | k in old(state) && k != key :: state[k] == old(state)[k]
      ensures var goesOn := key in old(state) && old(state)[key].windowStart > 0.0
                            && now - old(state)[key].windowStart <= limits.window;
        var count := if goesOn then old(state)[key].failures + 1 else 1;
        && (count >= limits.maxFailures ==> state[key] == Slot(now, 0, now + limits.block))
        && (count < limits.maxFailures ==>
              && state[key].failures == count
              && state[key].windowStart == if goesOn then old(state)[key].windowStart else now)
    {
      var slot := Slot(now, 0, 0.0);
      if key in state {
        slot := state[key];
      }
      if slot.windowStart <= 0.0 || now - slot.windowStart > limits.window {
        slot := Slot(now, 0, 0.0);
      }
      var failures := slot.failures + 1;
      slot := slot.(failures := failures);
      if failures >= limits.maxFailures {
        slot := slot.(blockedUntil := now + limits.block, windowStart := now, failures := 0);
      }
      state := state[key := slot];
    }

    method Success(key: string)
      modifies this
      ensures state == old(state) - {key}
    {
      state := state - {key};
    }
  }

  // ----- runs ------------------------------------------------------------------------------

  /** Login attempts, one at a time; an attempt that is not admitted changes nothing more. */
  datatype Attempt =
    | Wrong(key: string, checkAt: real, failAt: real)
    | Right(key: string, checkAt: real)

  function Step(l: Limits, t: Table, e: Attempt): Table {
    if !Admits(t, e.key, e.checkAt) then t
    else
      var t1 := AfterCheck(l, t, e.key, e.checkAt);
      match e
      case Wrong(key, _, failAt) => AfterFail(l, t1, key, failAt)
      case Right(key, _) => t1 - {key}
  }

  function Ends(e: Attempt): real {
    match e
    case Wrong(_, _, failAt) => failAt
    case Right(_, checkAt) => checkAt
  }

  /** Clock readings are positive and never go back. */
  predicate Timed(since: real, run: seq<Attempt>)
    decreases |run|
  {
    since > 0.0 && (run == [] || (since <= run[0].checkAt <= Ends(run[0]) && Timed(Ends(run[0]), run[1..])))
  }

  function After(l: Limits, t: Table, run: seq<Attempt>): Table
    decreases |run|
  {
    if run == [] then t else After(l, Step(l, t, run[0]), run[1..])
  }

  function Hit(t: Table, e: Attempt, key: string): seq<real> {
    if e.Wrong? && e.key == key && Admits(t, key, e.checkAt) then [e.failAt] else []
  }

  /** Times of the wrong attempts on `key` that got past the check. */
  function Failures(l: Limits, t: Table, run: seq<Attempt>, key: string): seq<real>
    decreases |run|
  {
    if run == [] then []
    else
      Hit(t, run[0], key) + Failures(l, Step(l, t, run[0]), run[1..], key)
  }

  // ----- the invariant ---------------------------------------------------------------------

  function Lookup(t: Table, key: string): Option<Slot> {
    if key in t then Some(t[key]) else None
  }

  function Counted(slot: Option<Slot>): nat {
    if slot.Some? then slot.value.failures else 0
  }

  /** Nothing after the failures `past[..a]` can happen before this time. */
  function Floor(past: seq<real>, slot: Option<Slot>, now: real): real {
    var n := Counted(slot);
    if 0 < n <= |past| then past[|past| - n]
    else if slot.Some? then slot.value.blockedUntil
    else now
  }

  predicate Ordered(past: seq<real>, now: real) {
    Nondecreasing(past) && forall i | 0 <= i < |past| :: past[i] <= now
  }

  /** The slot counts the last failures; all earlier ones lie at or before its window start. */
  predicate SlotOk(l: Limits, past: seq<real>, slot: Option<Slot>, now: real) {
    && Counted(slot) < l.maxFailures && Counted(slot) <= |past|
    && (slot.Some? ==>
          && 0.0 < slot.value.windowStart <= now
          && forall i | 0 <= i < |past| - slot.value.failures :: past[i] <= slot.value.windowStart)
  }

  /** What lies `maxFailures` or more before the counted failures lies a whole window before them. */
  predicate FloorOk(l: Limits, past: seq<real>, slot: Option<Slot>, now: real) {
    forall i | 0 <= i < |past| && i <= |past| - Counted(slot) - l.maxFailures ::
      past[i] + l.window <= Floor(past, slot, now)
  }

  /** `past` are the admitted failures so far. */
  predicate Inv(l: Limits, past: seq<real>, slot: Option<Slot>, now: real) {
    && Ordered(past, now) && SlotOk(l, past, slot, now) && FloorOk(l, past, slot, now)
    && Spaced(past, 2 * l.maxFailures - 1, l.window)
  }

  lemma CheckKeepsInv(l: Limits, past: seq<real>, t: Table, key: string, since: real, now: real)
    requires l.Valid() && Inv(l, past, Lookup(t, key), since) && since <= now && Admits(t, key, now)
    ensures Inv(l, past, Lookup(AfterCheck(l, t, key, now), key), now)
  {
    var slot := Lookup(t, key);
    if slot.Some? && Expired(l, slot.value, now) {
      forall i | 0 <= i <= |past| - l.maxFailures ensures past[i] + l.window <= now {
        assert i < |past| - slot.value.failures;
      }
    }
  }

  /** Index of the first failure the window of a new failure counts. */
  function Opening(l: Limits, past: seq<real>, slot: Option<Slot>, now: real): int {
    if slot.None? || Expired(l, slot.value, now) then |past| else |past| - slot.value.failures
  }

  lemma OpeningIsLate(l: Limits, past: seq<real>, slot: Option<Slot>, since: real, now: real)
    requires l.Valid() && Inv(l, past, slot, since) && 0.0 < since <= now
    requires slot.Some? ==> slot.value.blockedUntil <= since
    ensures |past| - l.maxFailures < Opening(l, past, slot, now) <= |past|
    ensures forall i | 0 <= i <= Opening(l, past, slot, now) - l.maxFailures :: past[i] + l.window <= now
  {
    forall i | 0 <= i <= Opening(l, past, slot, now) - l.maxFailures ensures past[i] + l.window <= now {
      if slot.Some? && Expired(l, slot.value, now) {
        assert i < |past| - slot.value.failures;
      } else {
        assert past[i] + l.window <= Floor(past, slot, since);
      }
    }
  }

  lemma AppendSpaced(l: Limits, past: seq<real>, now: real, a: int)
    requires l.Valid() && Spaced(past, 2 * l.maxFailures - 1, l.window)
    requires |past| - l.maxFailures < a <= |past|
    requires forall i | 0 <= i <= a - l.maxFailures :: past[i] + l.window <= now
    ensures Spaced(past + [now], 2 * l.maxFailures - 1, l.window)
  {
    var all := past + [now];
    forall i, j | 0 <= i && i + (2 * l.maxFailures - 1) <= j < |all| ensures all[i] + l.window <= all[j] {
      if j < |past| {
        assert all[i] == past[i] && all[j] == past[j];
      } else {
        assert i <= a - l.maxFailures && all[i] == past[i];
      }
    }
  }

  function SlotAfterFail(l: Limits, slot: Option<Slot>, now: real): Slot {
    var s := if slot.None? || Expired(l, slot.value, now) then Slot(now, 0, 0.0) else slot.value;
    if s.failures + 1 >= l.maxFailures then Slot(now, 0, now + l.block) else s.(failures := s.failures + 1)
  }

  lemma FailKeepsFloor(l: Limits, past: seq<real>, slot: Option<Slot>, since: real, now: real)
    requires l.Valid() && l.block >= l.window && 0.0 < since <= now && Inv(l, past, slot, since)
    requires slot.Some? ==> slot.value.blockedUntil <= since
    ensures FloorOk(l, past + [now], Some(SlotAfterFail(l, slot, now)), now)
  {
    OpeningIsLate(l, past, slot, since, now);
    var all := past + [now];
    var slot' := SlotAfterFail(l, slot, now);
    forall i | 0 <= i <= |all| - slot'.failures - l.maxFailures
      ensures all[i] + l.window <= Floor(all, Some(slot'), now)
    {
      if slot'.failures == 0 {
        assert all[i] <= now;
      } else if slot.None? || Expired(l, slot.value, now) {
        assert all[|all| - 1] == now && all[i] == past[i];
      } else {
        var a := |past| - slot.value.failures;
        assert all[i] == past[i] && past[i] + l.window <= Floor(past, slot, since);
        assert slot.value.failures > 0 ==> all[a] == past[a];
      }
    }
  }

  lemma FailKeepsInv(l: Limits, past: seq<real>, slot: Option<Slot>, since: real, now: real)
    requires l.Valid() && l.block >= l.window && 0.0 < since <= now && Inv(l, past, slot, since)
    requires slot.Some? ==> slot.value.blockedUntil <= since
    ensures Inv(l, past + [now], Some(SlotAfterFail(l, slot, now)), now)
  {
    OpeningIsLate(l, past, slot, since, now);
    AppendSpaced(l, past, now, Opening(l, past, slot, now));
    FailKeepsFloor(l, past, slot, since, now);
  }

  lemma StepKeepsInv(l: Limits, past: seq<real>, t: Table, key: string, since: real, e: Attempt)
    requires l.Valid() && l.block >= l.window && 0.0 < since <= e.checkAt <= Ends(e)
    requires Inv(l, past, Lookup(t, key), since)
    requires e.Right? ==> e.key != key
    ensures Inv(l, past + Hit(t, e, key), Lookup(Step(l, t, e), key), Ends(e))
  {
    if e.key == key && Admits(t, key, e.checkAt) {
      CheckKeepsInv(l, past, t, key, since, e.checkAt);
      FailKeepsInv(l, past, Lookup(AfterCheck(l, t, key, e.checkAt), key), e.checkAt, e.failAt);
    } else {
      assert past + [] == past;
      assert Lookup(Step(l, t, e), key) == Lookup(t, key);
    }
  }

  lemma {:induction false} RunKeepsInv(
      l: Limits, past: seq<real>, t: Table, key: string, since: real, run: seq<Attempt>)
    returns (now: real)
    requires l.Valid() && l.block >= l.window && Timed(since, run)
    requires Inv(l, past, Lookup(t, key), since)
    requires forall i | 0 <= i < |run| && run[i].Right? :: run[i].key != key
    ensures Inv(l, past + Failures(l, t, run, key), Lookup(After(l, t, run), key), now)
    decreases |run|
  {
    if run == [] {
      now := since;
      assert past + [] == past;
    } else {
      StepKeepsInv(l, past, t, key, since, run[0]);
      var added := Hit(t, run[0], key);
      var rest := Failures(l, Step(l, t, run[0]), run[1..], key);
      now := RunKeepsInv(l, past + added, Step(l, t, run[0]), key, Ends(run[0]), run[1..]);
      assert (past + added) + rest == past + (added + rest);
    }
  }

  // ----- the bound -------------------------------------------------------------------------

  /** When blocking lasts at least a window, any half-open interval of one window length sees at
      most twice the limit minus one admitted failures of a key, whatever happens on other keys,
      and the stored count stays below the limit. */
  lemma FailuresPerWindow(l: Limits, key: string, since: real, run: seq<Attempt>, x: real)
    requires l.Valid() && l.block >= l.window && Timed(since, run)
    requires forall i | 0 <= i < |run| && run[i].Right? :: run[i].key != key
    ensures Count(Failures(l, map[], run, key), f => x <= f < x + l.window) <= 2 * l.maxFailures - 1
    ensures Counted(Lookup(After(l, map[], run), key)) < l.maxFailures
  {
    var now := RunKeepsInv(l, [], map[], key, since, run);
    var times := Failures(l, map[], run, key);
    assert [] + times == times;
    SpacingBoundsCount(times, f => x <= f < x + l.window, 2 * l.maxFailures - 1, l.window);
  }

  // ----- bursts ----------------------------------------------------------------------------

  function Burst(key: string, at: real, n: nat): seq<Attempt> {
    seq(n, i => Wrong(key, at, at))
  }

  function Times(at: real, n: nat): seq<real> {
    seq(n, i => at)
  }

  /** The slot accepts another failure at `at`, with `n` already counted. */
  predicate Ready(l: Limits, t: Table, key: string, at: real, n: nat) {
    if key !in t then n == 0
    else t[key].blockedUntil <= at && (if Expired(l, t[key], at) then n == 0 else t[key].failures == n)
  }

  lemma {:induction false} BurstCounts(l: Limits, t: Table, key: string, at: real, n: nat, m: nat)
    requires l.Valid() && at > 0.0 && Ready(l, t, key, at, n) && n + m <= l.maxFailures
    ensures Failures(l, t, Burst(key, at, m), key) == Times(at, m)
    ensures var t' := After(l, t, Burst(key, at, m));
      && (n + m == l.maxFailures && m > 0 ==> Lookup(t', key) == Some(Slot(at, 0, at + l.block)))
      && (n + m < l.maxFailures && key in t && !Expired(l, t[key], at) ==>
            Lookup(t', key) == Some(t[key].(failures := n + m)))
    decreases m
  {
    if m > 0 {
      var b := Burst(key, at, m);
      assert b[0] == Wrong(key, at, at) && b[1..] == Burst(key, at, m - 1);
      assert Times(at, m) == [at] + Times(at, m - 1);
      var t1 := Step(l, t, b[0]);
      if n + 1 < l.maxFailures {
        BurstCounts(l, t1, key, at, n + 1, m - 1);
      } else {
        assert b[1..] == [];
      }
    }
  }

  lemma {:induction false} RunsCompose(l: Limits, t: Table, a: seq<Attempt>, b: seq<Attempt>, key: string)
    ensures After(l, t, a + b) == After(l, After(l, t, a), b)
    ensures Failures(l, t, a + b, key) == Failures(l, t, a, key) + Failures(l, After(l, t, a), b, key)
    decreases |a|
  {
    if a == [] {
      assert a + b == b;
    } else {
      assert (a + b)[0] == a[0] && (a + b)[1..] == a[1..] + b;
      RunsCompose(l, Step(l, t, a[0]), a[1..], b, key);
    }
  }

  lemma {:induction false} BurstsAreTimed(since: real, key: string, at: real, m: nat, rest: seq<Attempt>)
    requires 0.0 < since <= at && Timed(at, rest)
    ensures Timed(since, Burst(key, at, m) + rest)
    decreases m
  {
    var b := Burst(key, at, m);
    if m == 0 {
      assert b + rest == rest;
    } else {
      assert (b + rest)[0] == Wrong(key, at, at) && (b + rest)[1..] == Burst(key, at, m - 1) + rest;
      BurstsAreTimed(at, key, at, m - 1, rest);
    }
  }

  /** Blocking for less than a window breaks the bound: a full burst, then another as soon as the
      block ends, are twice the limit within one window. */
  lemma ShortBlockBreaksBound(l: Limits, key: string) returns (run: seq<Attempt>)
    requires l.Valid() && l.block < l.window
    ensures Timed(1.0, run) && forall i | 0 <= i < |run| :: run[i].Wrong?
    ensures Count(Failures(l, map[], run, key), f => 1.0 <= f < 1.0 + l.window) == 2 * l.maxFailures
  {
    var m := l.maxFailures;
    var first, second := Burst(key, 1.0, m), Burst(key, 1.0 + l.block, m);
    run := first + second;
    BurstsAreTimed(1.0, key, 1.0 + l.block, m, []);
    assert second + [] == second;
    BurstsAreTimed(1.0, key, 1.0, m, second);
    BurstCounts(l, map[], key, 1.0, 0, m);
    var t := After(l, map[], first);
    BurstCounts(l, t, key, 1.0 + l.block, 0, m);
    RunsCompose(l, map[], first, second, key);
    var inside := (f: real) => 1.0 <= f < 1.0 + l.window;
    CountAll(Times(1.0, m), inside);
    CountAll(Times(1.0 + l.block, m), inside);
    CountConcat(Times(1.0, m), Times(1.0 + l.block, m), inside);
  }

  predicate WithinBound(l: Limits, key: string, since: real, run: seq<Attempt>, x: real)
    requires l.Valid()
  {
    Timed(since, run) && (forall i | 0 <= i < |run| && run[i].Right? :: run[i].key != key) ==>
      Count(Failures(l, map[], run, key), f => x <= f < x + l.window) <= 2 * l.maxFailures - 1
  }

  /** The bound holds of all runs exactly when the configured block covers the window. */
  lemma BoundHoldsIffBlockCoversWindow(l: Limits)
    requires l.Valid()
    ensures (forall key, since, run, x :: WithinBound(l, key, since, run, x)) <==> l.block >= l.window
  {
    if l.block >= l.window {
      forall key, since, run: seq<Attempt>, x ensures WithinBound(l, key, since, run, x) {
        if Timed(since, run) && forall i | 0 <= i < |run| && run[i].Right? :: run[i].key != key {
          FailuresPerWindow(l, key, since, run, x);
        }
      }
    } else {
      var run := ShortBlockBreaksBound(l, "");
      assert !WithinBound(l, "", 1.0, run, 1.0);
    }
  }

  /** A full burst, all but one failures as the block ends, and a full burst in the next window. */
  function TightRun(l: Limits, key: string): seq<Attempt>
    requires l.Valid()
  {
    Burst(key, 1.0, l.maxFailures) +
    (Burst(key, 1.0 + l.window, l.maxFailures - 1) + Burst(key, 1.0 + l.window * 1.5, l.maxFailures))
  }

  lemma TightRunFailures(l: Limits, key: string)
    requires l.Valid() && l.block == l.window
    ensures Failures(l, map[], TightRun(l, key), key) ==
            Times(1.0, l.maxFailures) +
            (Times(1.0 + l.window, l.maxFailures - 1) + Times(1.0 + l.window * 1.5, l.maxFailures))
  {
    var m := l.maxFailures;
    var at1, at2 := 1.0 + l.window, 1.0 + l.window * 1.5;
    var b0, b1, b2 := Burst(key, 1.0, m), Burst(key, at1, m - 1), Burst(key, at2, m);
    BurstCounts(l, map[], key, 1.0, 0, m);
    var t1 := After(l, map[], b0);
    BurstCounts(l, t1, key, at1, 0, m - 1);
    var t2 := After(l, t1, b1);
    assert Lookup(t2, key) == Some(Slot(1.0, m - 1, at1));
    BurstCounts(l, t2, key, at2, 0, m);
    RunsCompose(l, map[], b0, b1 + b2, key);
    RunsCompose(l, t1, b1, b2, key);
  }

  lemma TightRunIsTimed(l: Limits, key: string)
    requires l.Valid()
    ensures Timed(1.0, TightRun(l, key))
  {
    var m := l.maxFailures;
    var b1, b2 := Burst(key, 1.0 + l.window, m - 1), Burst(key, 1.0 + l.window * 1.5, m);
    BurstsAreTimed(1.0, key, 1.0 + l.window * 1.5, m, []);
    assert b2 + [] == b2;
    BurstsAreTimed(1.0 + l.window * 1.5, key, 1.0 + l.window * 1.5, m, []);
    BurstsAreTimed(1.0, key, 1.0 + l.window, m - 1, b2);
    BurstsAreTimed(1.0 + l.window, key, 1.0 + l.window * 1.5, m, []);
    BurstsAreTimed(1.0, key, 1.0, m, b1 + b2);
  }

  /** The bound is attained when blocking lasts exactly a window. */
  lemma BoundIsTight(l: Limits, key: string)
    requires l.Valid() && l.block == l.window
    ensures Timed(1.0, TightRun(l, key))
    ensures Count(Failures(l, map[], TightRun(l, key), key), f => 1.0 + l.window <= f < 1.0 + l.window * 2.0)
            == 2 * l.maxFailures - 1
  {
    TightRunIsTimed(l, key);
    TightRunFailures(l, key);
    var m := l.maxFailures;
    var t0, t1, t2 := Times(1.0, m), Times(1.0 + l.window, m - 1), Times(1.0 + l.window * 1.5, m);
    var inside := (f: real) => 1.0 + l.window <= f < 1.0 + l.window * 2.0;
    CountsOnlyTheEnd(t0, inside, 0);
    CountAll(t1, inside);
    CountAll(t2, inside);
    CountConcat(t1, t2, inside);
    CountConcat(t0, t1 + t2, inside);
  }
}
