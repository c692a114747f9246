/** The one-time password envelope store: rate check, insertion and consumption, and what holds
    over every run of these sections. RSA and the signature are opaque. */
module EnvelopeStore {
  import opened Wrappers
  import opened Windows
  import opened EnvelopePrune

  const RATE_WINDOW: real := 10.0
  const RATE_MAX: nat := 128

  /** `_envelope_signature` for one secret. */
  type Signature = (Bindings, KeyId, string, int) -> string

  // ----- the rate check ----------------------------------------------------------------------

  function Newer(times: seq<real>, cutoff: real): seq<real> {
    if times == [] then []
    else (if times[0] > cutoff then [times[0]] else []) + Newer(times[1..], cutoff)
  }

  function TimesOf(m: map<string, seq<real>>, key: string): seq<real> {
    if key in m then m[key] else []
  }

  predicate Passes(m: map<string, seq<real>>, key: string, now: real) {
    key == "" || |Newer(TimesOf(m, key), now - RATE_WINDOW)| < RATE_MAX
  }

  predicate Stale(times: seq<real>, cutoff: real) {
    forall i | 0 <= i < |times| :: times[i] <= cutoff
  }

  /** `_check_rate_limit_locked`. */
  function AfterRateCheck(m: map<string, seq<real>>, key: string, now: real): map<string, seq<real>> {
    var cutoff := now - RATE_WINDOW;
    var newer := Newer(TimesOf(m, key), cutoff);
    if key == "" then m
    else if |newer| >= RATE_MAX then m[key := newer]
    else
      var m1 := m[key := newer + [now]];
      map k | k in m1 && !Stale(m1[k], cutoff) :: m1[k]
  }

  // ----- consumption -------------------------------------------------------------------------

  function Find(items: seq<Item>, id: KeyId): Option<Envelope> {
    if items == [] then None
    else if items[0].id == id then Some(items[0].env)
    else Find(items[1..], id)
  }

  lemma {:induction false} FindIs(items: seq<Item>, id: KeyId)
    requires Distinct(items)
    ensures Find(items, id).Some? ==> Item(id, Find(items, id).value) in items
    ensures Find(items, id).None? <==> forall x | x in items :: x.id != id
    decreases |items|
  {
    if items != [] {
      FindIs(items[1..], id);
      assert items == [items[0]] + items[1..];
    }
  }

  predicate Matches(sig: Signature, id: KeyId, env: Envelope, b: Bindings, token: string) {
    env.bindings == b && token == sig(b, id, env.publicKeyHash, env.expiresAt)
  }

  // ----- runs of locked sections ---------------------------------------------------------------

  /** `Insert` is the second locked section of `issue`, `Consume` that of `consume`; other calls may
      run between the rate check and the insertion of one `issue`. */
  datatype Section =
    | RateCheck(key: string, mono: real)
    | Insert(id: KeyId, env: Envelope, now1: int, now2: int)
    | Consume(id: KeyId, b: Bindings, token: string, now: int)

  datatype Store = Store(entries: seq<Item>, issueTimes: map<string, seq<real>>)

  function Accepts(sig: Signature, s: Store, c: Section): bool
    requires c.Consume?
  {
    var env := Find(Prune(s.entries, c.now), c.id);
    env.Some? && Matches(sig, c.id, env.value, c.b, c.token)
  }

  function Step(sig: Signature, s: Store, c: Section): Store {
    match c
    case RateCheck(key, now) => s.(issueTimes := AfterRateCheck(s.issueTimes, key, now))
    case Insert(id, env, now1, now2) => s.(entries := Prune(Prune(s.entries, now1) + [Item(id, env)], now2))
    case Consume(id, b, token, now) =>
      var kept := Prune(s.entries, now);
      s.(entries := if Accepts(sig, s, c) then Without(kept, id) else kept)
  }

  /** Key ids are fresh random tokens: no two insertions share one. */
  predicate FreshIds(run: seq<Section>) {
    forall i, j | 0 <= i < j < |run| && run[i].Insert? && run[j].Insert? :: run[i].id != run[j].id
  }

  predicate Unknown(s: Store, run: seq<Section>) {
    forall i | 0 <= i < |run| && run[i].Insert? :: run[i].id !in Ids(s.entries)
  }

  predicate Valid(s: Store) {
    Distinct(s.entries) && |s.entries| <= MAX_ENTRIES
  }

  lemma InsertIs(sig: Signature, s: Store, c: Section)
    requires Valid(s) && c.Insert? && c.id !in Ids(s.entries)
    ensures Valid(Step(sig, s, c))
    ensures forall x | x in Step(sig, s, c).entries ::
      x.env.expiresAt > c.now2 && (x == Item(c.id, c.env) || (x in s.entries && x.env.expiresAt > c.now1))
  {
    PruneIs(s.entries, c.now1);
    var kept := Prune(s.entries, c.now1);
    forall i | 0 <= i < |kept| ensures kept[i].id != c.id {
      assert kept[i] in s.entries;
    }
    PruneIs(kept + [Item(c.id, c.env)], c.now2);
  }

  /** One section: the store stays within its bound, and gains at most the inserted envelope. */
  lemma StepIs(sig: Signature, s: Store, c: Section)
    requires Valid(s) && (c.Insert? ==> c.id !in Ids(s.entries))
    ensures var s' := Step(sig, s, c);
      && Valid(s')
      && (forall x | x in s'.entries :: x in s.entries || (c.Insert? && x == Item(c.id, c.env)))
      && (c.Consume? && Accepts(sig, s, c) ==> c.id !in Ids(s'.entries))
  {
    match c
    case RateCheck(_, _) =>
    case Insert(_, _, _, _) =>
      InsertIs(sig, s, c);
    case Consume(id, b, token, now) =>
      PruneIs(s.entries, now);
      WithoutIs(Prune(s.entries, now), id);
  }

  /** A consumption that is not accepted evicts nothing that is still live: a wrong binding leaves
      the entry in place. */
  lemma RejectedConsumeKeepsEntry(sig: Signature, s: Store, c: Section, x: Item)
    requires Valid(s) && c.Consume? && !Accepts(sig, s, c)
    requires x in s.entries && x.env.expiresAt > c.now
    ensures x in Step(sig, s, c).entries
  {
    LiveIs(s.entries, c.now);
    PruneIs(s.entries, c.now);
  }

  /** An accepted consumption takes its own entry and leaves every other live one in place. */
  lemma AcceptedConsumeTakesOwnEntry(sig: Signature, s: Store, c: Section, x: Item)
    requires Valid(s) && c.Consume? && Accepts(sig, s, c)
    ensures x in Step(sig, s, c).entries <==> x in s.entries && x.env.expiresAt > c.now && x.id != c.id
  {
    LiveIs(s.entries, c.now);
    PruneIs(s.entries, c.now);
    WithoutIs(Prune(s.entries, c.now), c.id);
  }

  /** The envelope a consumption needs: stored under the id, not expired, with the same bindings, and
      signed by the token. */
  predicate Opens(sig: Signature, s: Store, c: Section, env: Envelope)
    requires c.Consume?
  {
    && Item(c.id, env) in s.entries && c.now < env.expiresAt && env.bindings == c.b
    && c.token == sig(c.b, c.id, env.publicKeyHash, env.expiresAt)
  }

  /** A consumption is accepted exactly when the store holds such an envelope. */
  lemma AcceptsIff(sig: Signature, s: Store, c: Section)
    requires Valid(s) && c.Consume?
    ensures Accepts(sig, s, c) <==> exists env :: Opens(sig, s, c, env)
  {
    var kept := Prune(s.entries, c.now);
    LiveIs(s.entries, c.now);
    PruneIs(s.entries, c.now);
    FindIs(kept, c.id);
    var found := Find(kept, c.id);
    if Accepts(sig, s, c) {
      assert Opens(sig, s, c, found.value);
    }
    if env :| Opens(sig, s, c, env) {
      assert Item(c.id, env) in kept;
      SameIdSameItem(kept, Item(c.id, env), Item(c.id, found.value));
    }
  }

  lemma SameIdSameItem(items: seq<Item>, x: Item, y: Item)
    requires Distinct(items) && x in items && y in items && x.id == y.id
    ensures x == y
  {
    var i :| 0 <= i < |items| && items[i] == x;
    var j :| 0 <= j < |items| && items[j] == y;
  }

  /** An acceptance names an envelope in the store, before its expiry, with its own bindings and token. */
  lemma AcceptedIs(sig: Signature, s: Store, c: Section)
    requires Valid(s) && c.Consume? && Accepts(sig, s, c)
    ensures exists env :: Issued(s, c, env) && Opens(sig, s, c, env)
  {
    AcceptsIff(sig, s, c);
    var env :| Opens(sig, s, c, env);
    assert Issued(s, c, env);
  }

  // ----- runs, whatever the sections do ----------------------------------------------------------

  /** A store machine: its step and which consumptions it accepts. */
  datatype Machine = Machine(step: (Store, Section) -> Store, accepts: (Store, Section) -> bool)

  predicate Issued(s: Store, c: Section, env: Envelope)
    requires c.Consume?
  {
    Item(c.id, env) in s.entries && env.bindings == c.b && c.now < env.expiresAt
  }

  /** What one section of a sound machine does: nothing appears but the inserted envelope, and an
      accepted consumption removes a live envelope with the same bindings. */
  ghost predicate SoundAt(m: Machine, s: Store, c: Section) {
    Valid(s) && (c.Insert? ==> c.id !in Ids(s.entries)) ==>
      && Valid(m.step(s, c))
      && (forall x | x in m.step(s, c).entries :: x in s.entries || (c.Insert? && x == Item(c.id, c.env)))
      && (c.Consume? && m.accepts(s, c) ==>
            c.id !in Ids(m.step(s, c).entries) && exists env :: Issued(s, c, env))
  }

  ghost predicate Sound(m: Machine) {
    forall s, c :: SoundAt(m, s, c)
  }

  /** The store before section `n` of a run. */
  function Before(m: Machine, s: Store, run: seq<Section>, n: nat): Store
    requires n <= |run|
    decreases n
  {
    if n == 0 then s else Before(m, m.step(s, run[0]), run[1..], n - 1)
  }

  predicate AcceptedAt(m: Machine, s: Store, run: seq<Section>, n: nat)
    requires n < |run|
  {
    run[n].Consume? && m.accepts(Before(m, s, run, n), run[n])
  }

  predicate IssuedAs(s: Store, run: seq<Section>, n: nat, x: Item)
    requires n <= |run|
  {
    x in s.entries || exists i :: 0 <= i < n && run[i].Insert? && Item(run[i].id, run[i].env) == x
  }

  lemma {:induction false} BeforeSplits(m: Machine, s: Store, run: seq<Section>, k: nat, n: nat)
    requires k <= n <= |run|
    ensures Before(m, s, run, n) == Before(m, Before(m, s, run, k), run[k..], n - k)
    decreases k
  {
    if k == 0 {
      assert run[0..] == run;
    } else {
      BeforeSplits(m, m.step(s, run[0]), run[1..], k - 1, n - 1);
      assert run[1..][k - 1..] == run[k..];
    }
  }

  lemma NextSection(m: Machine, s: Store, run: seq<Section>, k: nat)
    requires k < |run|
    ensures Before(m, s, run, k + 1) == m.step(Before(m, s, run, k), run[k])
  {
    BeforeSplits(m, s, run, k, k + 1);
    var b := Before(m, s, run, k);
    assert run[k..][0] == run[k];
    assert Before(m, b, run[k..], 1) == Before(m, m.step(b, run[k]), run[k..][1..], 0);
  }

  /** Whatever the store holds after `n` sections was there or was inserted by one of them. */
  lemma {:induction false} StoreComesFromIssues(m: Machine, s: Store, run: seq<Section>, n: nat)
    requires Sound(m) && Valid(s) && FreshIds(run) && Unknown(s, run) && n <= |run|
    ensures var s' := Before(m, s, run, n);
      && Valid(s') && Unknown(s', run[n..])
      && forall x | x in s'.entries :: IssuedAs(s, run, n, x)
    decreases n
  {
    if n == 0 {
      assert run[0..] == run;
    } else {
      var s1 := m.step(s, run[0]);
      assert SoundAt(m, s, run[0]);
      StoreComesFromIssues(m, s1, run[1..], n - 1);
      assert run[1..][n - 1..] == run[n..];
      forall x | x in Before(m, s, run, n).entries ensures IssuedAs(s, run, n, x) {
        assert IssuedAs(s1, run[1..], n - 1, x);
        if x in s1.entries {
          assert x in s.entries || Item(run[0].id, run[0].env) == x;
        } else {
          var i :| 0 <= i < n - 1 && run[1..][i].Insert? && Item(run[1..][i].id, run[1..][i].env) == x;
          assert run[i + 1].Insert?;
        }
      }
    }
  }

  /** An accepted id was stored at the start, or inserted by an earlier section of the run. */
  lemma AcceptedWasIssued(m: Machine, s: Store, run: seq<Section>, n: nat) returns (env: Envelope)
    requires Sound(m) && Valid(s) && FreshIds(run) && Unknown(s, run) && n < |run| && AcceptedAt(m, s, run, n)
    ensures env.bindings == run[n].b && run[n].now < env.expiresAt
    ensures IssuedAs(s, run, n, Item(run[n].id, env))
  {
    var s' := Before(m, s, run, n);
    StoreComesFromIssues(m, s, run, n);
    assert SoundAt(m, s', run[n]);
    env :| Issued(s', run[n], env);
  }

  /** Once consumed, an id that is not inserted again is not accepted again. */
  lemma GoneIsGone(m: Machine, s: Store, run: seq<Section>, n: nat, id: KeyId)
    requires Sound(m) && Valid(s) && FreshIds(run) && Unknown(s, run) && n < |run| && AcceptedAt(m, s, run, n)
    requires id !in Ids(s.entries) && forall i | 0 <= i < n && run[i].Insert? :: run[i].id != id
    ensures run[n].id != id
  {
    var env := AcceptedWasIssued(m, s, run, n);
  }

  const EMPTY: Store := Store([], map[])

  lemma AcceptedOnce(m: Machine, run: seq<Section>, k: nat, n: nat)
    requires Sound(m) && FreshIds(run) && k < n < |run|
    requires AcceptedAt(m, EMPTY, run, k) && AcceptedAt(m, EMPTY, run, n)
    ensures run[k].id != run[n].id
  {
    var env := AcceptedWasIssued(m, EMPTY, run, k);
    var s, s1, rest := Before(m, EMPTY, run, k), Before(m, EMPTY, run, k + 1), run[k + 1..];
    StoreComesFromIssues(m, EMPTY, run, k);
    StoreComesFromIssues(m, EMPTY, run, k + 1);
    NextSection(m, EMPTY, run, k);
    assert SoundAt(m, s, run[k]);
    BeforeSplits(m, EMPTY, run, k + 1, n);
    forall i | 0 <= i < n - k - 1 && rest[i].Insert? ensures rest[i].id != run[k].id {
      assert run[k + 1 + i] == rest[i];
    }
    assert rest[n - k - 1] == run[n];
    GoneIsGone(m, s1, rest, n - k - 1, run[k].id);
  }

  // ----- the envelope store is such a machine ------------------------------------------------------

  function EnvelopeMachine(sig: Signature): Machine {
    Machine((s, c) => Step(sig, s, c), (s, c: Section) => c.Consume? && Accepts(sig, s, c))
  }

  lemma StepIsSound(sig: Signature, s: Store, c: Section)
    ensures SoundAt(EnvelopeMachine(sig), s, c)
  {
    if Valid(s) && (c.Insert? ==> c.id !in Ids(s.entries)) {
      StepIs(sig, s, c);
      if c.Consume? && Accepts(sig, s, c) {
        AcceptedIs(sig, s, c);
      }
    }
  }

  lemma EnvelopesAreSound(sig: Signature)
    ensures Sound(EnvelopeMachine(sig))
  {
    forall s, c ensures SoundAt(EnvelopeMachine(sig), s, c) {
      StepIsSound(sig, s, c);
    }
  }

  /** Over every run each key id is consumed at most once. */
  lemma ConsumedAtMostOnce(sig: Signature, run: seq<Section>, k: nat, n: nat)
    requires FreshIds(run) && k < n < |run|
    requires AcceptedAt(EnvelopeMachine(sig), EMPTY, run, k) && AcceptedAt(EnvelopeMachine(sig), EMPTY, run, n)
    ensures run[k].id != run[n].id
  {
    EnvelopesAreSound(sig);
    AcceptedOnce(EnvelopeMachine(sig), run, k, n);
  }

  /** A consumption succeeds only after an issue of the same id, with the bindings of that issue,
      before its expiry and with the token that signs it; and the store never holds more than 128
      entries. */
  lemma ConsumedAsIssued(sig: Signature, run: seq<Section>, n: nat)
    requires FreshIds(run) && n < |run|
    ensures |Before(EnvelopeMachine(sig), EMPTY, run, n).entries| <= MAX_ENTRIES
    ensures AcceptedAt(EnvelopeMachine(sig), EMPTY, run, n) ==>
      exists i :: 0 <= i < n && run[i].Insert? && run[i].id == run[n].id
                  && run[i].env.bindings == run[n].b && run[n].now < run[i].env.expiresAt
                  && run[n].token == sig(run[n].b, run[n].id, run[i].env.publicKeyHash, run[i].env.expiresAt)
  {
    var m := EnvelopeMachine(sig);
    EnvelopesAreSound(sig);
    StoreComesFromIssues(m, EMPTY, run, n);
    if AcceptedAt(m, EMPTY, run, n) {
      var s := Before(m, EMPTY, run, n);
      AcceptsIff(sig, s, run[n]);
      var env :| Opens(sig, s, run[n], env);
      assert IssuedAs(EMPTY, run, n, Item(run[n].id, env));
      var i :| 0 <= i < n && run[i].Insert? && Item(run[i].id, run[i].env) == Item(run[n].id, env);
    }
  }

  // ----- issues one after another ----------------------------------------------------------------

  const TTL: int := 30

  /** Whole-second clock readings that never go back, each issue completed before the next section:
      `expires_at` is the reading before the insertion plus the lifetime. */
  predicate Sequential(since: int, run: seq<Section>)
    decreases |run|
  {
    run == [] ||
    match run[0]
    case RateCheck(_, _) => Sequential(since, run[1..])
    case Insert(_, env, now1, now2) => since <= env.expiresAt - TTL <= now1 <= now2 && Sequential(now2, run[1..])
    case Consume(_, _, _, now) => since <= now && Sequential(now, run[1..])
  }

  /** Nothing stored expires later than what is issued from now on. */
  predicate Aged(s: Store, since: int) {
    forall x | x in s.entries :: x.env.expiresAt <= since + TTL
  }

  ghost predicate KeepsNewest(m: Machine, s: Store, c: Section) {
    Valid(s) && c.Insert? && c.id !in Ids(s.entries) && Aged(s, c.env.expiresAt - TTL) ==>
      (Item(c.id, c.env) in m.step(s, c).entries <==> c.now2 < c.env.expiresAt)
  }

  lemma InsertKeepsNewest(sig: Signature, s: Store, c: Section)
    requires Valid(s) && c.Insert? && c.id !in Ids(s.entries) && Aged(s, c.env.expiresAt - TTL)
    ensures Item(c.id, c.env) in Step(sig, s, c).entries <==> c.now2 < c.env.expiresAt
  {
    var x := Item(c.id, c.env);
    var kept := Prune(s.entries, c.now1);
    PruneIs(s.entries, c.now1);
    forall i | 0 <= i < |kept| ensures kept[i].id != c.id {
      assert kept[i] in s.entries;
    }
    if c.now2 < c.env.expiresAt {
      SequentialIssueSurvives(kept, x, c.now2);
    } else {
      PruneIs(kept + [x], c.now2);
    }
  }

  lemma {:induction false} NewestSurvives(m: Machine, s: Store, run: seq<Section>, n: nat, since: int)
    requires Sound(m) && forall s, c :: KeepsNewest(m, s, c)
    requires Valid(s) && FreshIds(run) && Unknown(s, run) && Sequential(since, run) && Aged(s, since)
    requires n < |run| && run[n].Insert?
    ensures Item(run[n].id, run[n].env) in Before(m, s, run, n + 1).entries <==> run[n].now2 < run[n].env.expiresAt
    decreases n
  {
    var c := run[0];
    var s1 := m.step(s, c);
    assert SoundAt(m, s, c) && KeepsNewest(m, s, c);
    if n == 0 {
      assert Before(m, s, run, 1) == Before(m, s1, run[1..], 0) == s1;
    } else {
      var later := if c.Insert? then c.now2 else if c.Consume? then c.now else since;
      NewestSurvives(m, s1, run[1..], n - 1, later);
    }
  }

  /** In a sequential run an issued envelope is stored exactly when it has not expired by the time
      of its own last prune; eviction never hits it. */
  lemma IssueSurvivesInSequence(sig: Signature, run: seq<Section>, n: nat, since: int)
    requires FreshIds(run) && Sequential(since, run) && n < |run| && run[n].Insert?
    ensures Item(run[n].id, run[n].env) in Before(EnvelopeMachine(sig), EMPTY, run, n + 1).entries
            <==> run[n].now2 < run[n].env.expiresAt
  {
    var m := EnvelopeMachine(sig);
    EnvelopesAreSound(sig);
    forall s, c ensures KeepsNewest(m, s, c) {
      if Valid(s) && c.Insert? && c.id !in Ids(s.entries) && Aged(s, c.env.expiresAt - TTL) {
        InsertKeepsNewest(sig, s, c);
      }
    }
    NewestSurvives(m, EMPTY, run, n, since);
  }

  // ----- the sliding window --------------------------------------------------------------------

  /** Times at which rate checks of `key` passed. */
  function Passed(m: map<string, seq<real>>, run: seq<Section>, key: string): seq<real>
    decreases |run|
  {
    if run == [] then []
    else if run[0].RateCheck? then
      (if run[0].key == key && Passes(m, key, run[0].mono) then [run[0].mono] else [])
      + Passed(AfterRateCheck(m, run[0].key, run[0].mono), run[1..], key)
    else Passed(m, run[1..], key)
  }

  /** Monotonic readings never go back. */
  predicate Timed(since: real, run: seq<Section>)
    decreases |run|
  {
    run == [] ||
    if run[0].RateCheck? then since <= run[0].mono && Timed(run[0].mono, run[1..]) else Timed(since, run[1..])
  }

  lemma {:induction false} AllNewer(times: seq<real>, cutoff: real)
    requires forall i | 0 <= i < |times| :: times[i] > cutoff
    ensures Newer(times, cutoff) == times
    decreases |times|
  {
    if times != [] {
      AllNewer(times[1..], cutoff);
    }
  }

  lemma {:induction false} NewerIsSuffix(times: seq<real>, cutoff: real) returns (m: nat)
    requires Nondecreasing(times)
    ensures m <= |times| && Newer(times, cutoff) == times[m..]
    ensures forall i | 0 <= i < m :: times[i] <= cutoff
    decreases |times|
  {
    if times == [] || times[0] > cutoff {
      m := 0;
      AllNewer(times, cutoff);
    } else {
      var m' := NewerIsSuffix(times[1..], cutoff);
      m := m' + 1;
      assert times[1..][m'..] == times[m..];
    }
  }

  /** What is stored for a key is the end of the passes so far; what was dropped is out of every
      window still to come. */
  predicate Kept(past: seq<real>, stored: seq<real>, now: real) {
    && |stored| <= |past| && stored == past[|past| - |stored|..]
    && (forall i | 0 <= i < |past| - |stored| :: past[i] <= now - RATE_WINDOW)
  }

  predicate RateInv(past: seq<real>, stored: seq<real>, now: real) {
    && Nondecreasing(past) && (forall i | 0 <= i < |past| :: past[i] <= now)
    && Kept(past, stored, now) && Spaced(past, RATE_MAX, RATE_WINDOW)
  }

  lemma SuffixOfSuffix(s: seq<real>, k: nat, m: nat)
    requires k + m <= |s|
    ensures s[k..][m..] == s[k + m..]
  {
  }

  lemma ConcatAssoc(a: seq<real>, b: seq<real>, c: seq<real>)
    ensures (a + b) + c == a + (b + c)
  {
  }

  lemma FilterKeeps(past: seq<real>, stored: seq<real>, since: real, now: real)
    requires RateInv(past, stored, since) && since <= now
    ensures Kept(past, Newer(stored, now - RATE_WINDOW), now)
  {
    var m := NewerIsSuffix(stored, now - RATE_WINDOW);
    var r := Newer(stored, now - RATE_WINDOW);
    SuffixOfSuffix(past, |past| - |stored|, m);
    forall i | 0 <= i < |past| - |r| ensures past[i] <= now - RATE_WINDOW {
      if i >= |past| - |stored| {
        assert past[i] == stored[i - (|past| - |stored|)];
      }
    }
  }

  lemma PassKeeps(past: seq<real>, newer: seq<real>, since: real, now: real)
    requires Nondecreasing(past) && (forall i | 0 <= i < |past| :: past[i] <= since) && since <= now
    requires Spaced(past, RATE_MAX, RATE_WINDOW) && Kept(past, newer, now) && |newer| < RATE_MAX
    ensures RateInv(past + [now], newer + [now], now)
  {
    var all := past + [now];
    assert all[|all| - |newer + [now]|..] == past[|past| - |newer|..] + [now];
    forall i, j | 0 <= i && i + RATE_MAX <= j < |all| ensures all[i] + RATE_WINDOW <= all[j] {
      if j == |past| {
        assert i < |past| - |newer| && all[i] == past[i];
      }
    }
  }

  lemma StepKeepsRate(past: seq<real>, m: map<string, seq<real>>, key: string, since: real, k: string, now: real)
    requires key != "" && RateInv(past, TimesOf(m, key), since) && since <= now
    ensures RateInv(past + (if k == key && Passes(m, key, now) then [now] else []),
                    TimesOf(AfterRateCheck(m, k, now), key), now)
  {
    var stored := TimesOf(m, key);
    var cutoff := now - RATE_WINDOW;
    FilterKeeps(past, stored, since, now);
    assert past + [] == past;
    if k == key {
      if Passes(m, key, now) {
        PassKeeps(past, Newer(stored, cutoff), since, now);
        var mine := Newer(stored, cutoff) + [now];
        assert mine[|mine| - 1] > cutoff;
        assert !Stale(mine, cutoff);
      }
    } else if TimesOf(AfterRateCheck(m, k, now), key) != stored {
      assert Stale(stored, cutoff) && TimesOf(AfterRateCheck(m, k, now), key) == [];
      forall i | 0 <= i < |past| ensures past[i] <= cutoff {
        if i >= |past| - |stored| {
          assert past[i] == stored[i - (|past| - |stored|)];
        }
      }
    }
  }

  /** The stored times and the last monotonic reading after a run. */
  function RatesAfter(m: map<string, seq<real>>, run: seq<Section>): map<string, seq<real>>
    decreases |run|
  {
    if run == [] then m
    else RatesAfter(if run[0].RateCheck? then AfterRateCheck(m, run[0].key, run[0].mono) else m, run[1..])
  }

  function LastReading(since: real, run: seq<Section>): real
    decreases |run|
  {
    if run == [] then since else LastReading(if run[0].RateCheck? then run[0].mono else since, run[1..])
  }

  lemma {:induction false} RunKeepsRate(
      past: seq<real>, m: map<string, seq<real>>, key: string, since: real, run: seq<Section>)
    requires key != "" && RateInv(past, TimesOf(m, key), since) && Timed(since, run)
    ensures RateInv(past + Passed(m, run, key), TimesOf(RatesAfter(m, run), key), LastReading(since, run))
    decreases |run|
  {
    if run == [] {
      assert past + [] == past;
    } else if run[0].RateCheck? {
      var c := run[0];
      StepKeepsRate(past, m, key, since, c.key, c.mono);
      var hit := if c.key == key && Passes(m, key, c.mono) then [c.mono] else [];
      var rest := Passed(AfterRateCheck(m, c.key, c.mono), run[1..], key);
      RunKeepsRate(past + hit, AfterRateCheck(m, c.key, c.mono), key, c.mono, run[1..]);
      ConcatAssoc(past, hit, rest);
    } else {
      RunKeepsRate(past, m, key, since, run[1..]);
    }
  }

  lemma {:induction false} NewerAreNewer(times: seq<real>, cutoff: real)
    ensures forall i | 0 <= i < |Newer(times, cutoff)| :: Newer(times, cutoff)[i] > cutoff
    decreases |times|
  {
    if times != [] {
      NewerAreNewer(times[1..], cutoff);
    }
  }

  /** The window that ends at `now`. */
  function Recent(now: real): real -> bool {
    p => now - RATE_WINDOW < p <= now
  }

  lemma CountOfKept(past: seq<real>, kept: seq<real>, now: real)
    requires Kept(past, kept, now) && forall i | 0 <= i < |kept| :: Recent(now)(kept[i])
    ensures Count(past, Recent(now)) == |kept|
  {
    var gone := |past| - |kept|;
    assert past == past[..gone] + kept;
    CountConcat(past[..gone], kept, Recent(now));
    CountAll(kept, Recent(now));
    CountsOnlyTheEnd(past, Recent(now), |kept|);
  }

  lemma CountOfNewer(past: seq<real>, stored: seq<real>, since: real, now: real)
    requires RateInv(past, stored, since) && since <= now
    ensures Count(past, Recent(now)) == |Newer(stored, now - RATE_WINDOW)|
  {
    var kept := Newer(stored, now - RATE_WINDOW);
    FilterKeeps(past, stored, since, now);
    NewerAreNewer(stored, now - RATE_WINDOW);
    forall i | 0 <= i < |kept| ensures Recent(now)(kept[i]) {
      assert kept[i] == past[|past| - |kept| + i];
    }
    CountOfKept(past, kept, now);
  }

  /** After any run a rate check of a key passes exactly when fewer than 128 checks of that key have
      passed in the last ten seconds; without a key every check passes. */
  lemma CheckPassesIff(key: string, since: real, run: seq<Section>, now: real)
    requires Timed(since, run) && LastReading(since, run) <= now
    ensures Passes(RatesAfter(map[], run), key, now) <==>
            key == "" || Count(Passed(map[], run, key), Recent(now)) < RATE_MAX
  {
    if key != "" {
      RunKeepsRate([], map[], key, since, run);
      assert [] + Passed(map[], run, key) == Passed(map[], run, key);
      CountOfNewer(Passed(map[], run, key), TimesOf(RatesAfter(map[], run), key), LastReading(since, run), now);
    }
  }

  /** After a check only times inside the window are stored for its key, and after one that passes no
      key is stored whose times are all outside. */
  lemma CheckDropsOldTimes(m: map<string, seq<real>>, key: string, now: real)
    requires key != ""
    ensures forall t | t in TimesOf(AfterRateCheck(m, key, now), key) :: t > now - RATE_WINDOW
    ensures Passes(m, key, now) ==>
      forall k | k in AfterRateCheck(m, key, now) :: !Stale(AfterRateCheck(m, key, now)[k], now - RATE_WINDOW)
  {
    NewerAreNewer(TimesOf(m, key), now - RATE_WINDOW);
  }

  /** In every run at most 128 rate checks of one key pass in any window (t - 10, t]. */
  lemma IssuesPerWindow(key: string, since: real, run: seq<Section>, t: real)
    requires key != "" && Timed(since, run)
    ensures Count(Passed(map[], run, key), p => t - RATE_WINDOW < p <= t) <= RATE_MAX
  {
    RunKeepsRate([], map[], key, since, run);
    var times := Passed(map[], run, key);
    assert [] + times == times;
    SpacingBoundsCount(times, p => t - RATE_WINDOW < p <= t, RATE_MAX, RATE_WINDOW);
  }

  // ----- the store -----------------------------------------------------------------------------

  /** `n` of the `overflow` entries to evict have been popped. */
  predicate Evicting(live: seq<Item>, overflow: nat, oldest: seq<Item>, items: seq<Item>, n: nat) {
    && n <= overflow <= |live| && |oldest| == |live|
    && Distinct(items) && |items| == |live| - n && oldest[n..] == SortedByExpiry(items)
    && DropOldest(live, overflow) == DropOldest(items, overflow - n)
  }

  lemma EvictNext(live: seq<Item>, overflow: nat, oldest: seq<Item>, items: seq<Item>, n: nat)
    requires Evicting(live, overflow, oldest, items, n) && n < overflow
    ensures Evicting(live, overflow, oldest, Without(items, oldest[n].id), n + 1)
  {
    PopOldest(items, overflow - n);
    assert oldest[n] == oldest[n..][0];
    assert oldest[n + 1..] == oldest[n..][1..];
  }

  class PasswordEnvelopeStore {
    var entries: seq<Item>
    var issueTimesByKey: map<string, seq<real>>

    function View(): (s: Store)
      reads this
    {
      Store(entries, issueTimesByKey)
    }

    constructor ()
      ensures View() == EMPTY
    {
      entries, issueTimesByKey := [], map[];
    }

    /** The ids `_prune_locked` finds expired. */
    method ExpiredIds(now: int) returns (expired: seq<KeyId>)
      requires Distinct(entries)
      ensures forall x | x in entries :: x.id in expired <==> x.env.expiresAt <= now
    {
      expired := [];
      var i := 0;
      while i < |entries|
        invariant 0 <= i <= |entries|
        invariant forall j | 0 <= j < i :: entries[j].id in expired <==> entries[j].env.expiresAt <= now
        invariant forall j | i <= j < |entries| :: entries[j].id !in expired
      {
        if entries[i].env.expiresAt <= now {
          expired := expired + [entries[i].id];
        }
        i := i + 1;
      }
    }

    /** First half of `_prune_locked`: pop the expired ids. */
    method PopExpired(now: int)
      requires Distinct(entries)
      modifies this
      ensures entries == Live(old(entries), now) && issueTimesByKey == old(issueTimesByKey)
    {
      ghost var was := entries;
      var expired := ExpiredIds(now);
      var i := 0;
      ghost var popped: set<KeyId> := {};
      ExceptNone(was);
      while i < |expired|
        invariant 0 <= i <= |expired| && issueTimesByKey == old(issueTimesByKey)
        invariant entries == Except(was, popped)
        invariant forall id :: id in popped <==> id in expired[..i]
      {
        ExceptPop(was, popped, expired[i]);
        entries := Without(entries, expired[i]);
        popped := popped + {expired[i]};
        i := i + 1;
      }
      assert expired[..i] == expired;
      ExceptExpiredIsLive(was, popped, now);
    }

    /** Second half of `_prune_locked`: pop the head of the entries sorted by expiry. */
    method EvictOverflow()
      requires Distinct(entries)
      modifies this`entries
      ensures entries == DropOldest(old(entries), Overflow(|old(entries)|))
    {
      if |entries| <= MAX_ENTRIES {
        return;
      }
      var overflow := |entries| - MAX_ENTRIES;
      ghost var live := entries;
      var oldest := SortedByExpiry(entries);
      var n := 0;
      while n < overflow
        invariant n <= overflow && Evicting(live, overflow, oldest, entries, n)
      {
        EvictNext(live, overflow, oldest, entries, n);
        entries := Without(entries, oldest[n].id);
        n := n + 1;
      }
    }

    /** `_prune_locked`. */
    method PruneLocked(now: int)
      requires Distinct(entries)
      modifies this
      ensures entries == Prune(old(entries), now) && issueTimesByKey == old(issueTimesByKey)
      ensures Distinct(entries) && |entries| <= MAX_ENTRIES
    {
      PruneIs(entries, now);
      LiveIs(entries, now);
      PopExpired(now);
      EvictOverflow();
    }

    /** `_check_rate_limit_locked`. */
    method CheckRateLimitLocked(rateKey: string, now: real) returns (passed: bool)
      modifies this
      ensures passed == Passes(old(issueTimesByKey), rateKey, now)
      ensures issueTimesByKey == AfterRateCheck(old(issueTimesByKey), rateKey, now) && entries == old(entries)
    {
      if rateKey == "" {
        return true;
      }
      var cutoff := now - RATE_WINDOW;
      var recent := Newer(TimesOf(issueTimesByKey, rateKey), cutoff);
      if |recent| >= RATE_MAX {
        issueTimesByKey := issueTimesByKey[rateKey := recent];
        return false;
      }
      issueTimesByKey := issueTimesByKey[rateKey := recent + [now]];
      var staleKeys := set k | k in issueTimesByKey && Stale(issueTimesByKey[k], cutoff);
      issueTimesByKey := issueTimesByKey - staleKeys;
      passed := true;
    }

    /** The insertion of `issue`: prune, store, prune. */
    method InsertLocked(id: KeyId, env: Envelope, now1: int, now2: int)
      requires Valid(View()) && id !in Ids(entries)
      modifies this
      ensures Valid(View()) && forall sig: Signature :: View() == Step(sig, old(View()), Insert(id, env, now1, now2))
    {
      PruneIs(entries, now1);
      PruneLocked(now1);
      forall i | 0 <= i < |entries| ensures entries[i].id != id {
        assert entries[i] in old(entries);
      }
      entries := entries + [Item(id, env)];
      PruneLocked(now2);
    }

    /** The locked part of `consume`: prune, look up, compare every binding and the token, pop. */
    method ConsumeLocked(sig: Signature, id: KeyId, b: Bindings, token: string, now: int) returns (r: Option<Envelope>)
      requires Valid(View())
      modifies this
      ensures Valid(View()) && View() == Step(sig, old(View()), Consume(id, b, token, now))
      ensures r.Some? <==> Accepts(sig, old(View()), Consume(id, b, token, now))
      ensures r.Some? ==> r.value.bindings == b && now < r.value.expiresAt && id !in Ids(entries)
    {
      StepIs(sig, View(), Consume(id, b, token, now));
      PruneIs(entries, now);
      PruneLocked(now);
      FindIs(entries, id);
      var entry := Find(entries, id);
      if entry.None? {
        return None;
      }
      var expected := sig(b, id, entry.value.publicKeyHash, entry.value.expiresAt);
      if entry.value.bindings != b || expected != token {
        return None;
      }
      entries := Without(entries, id);
      r := entry;
    }
  }
}
