/** Expiry and eviction of stored password envelopes. The store is a dictionary that keeps
    insertion order, modelled as a sequence of items with distinct ids. */
module EnvelopePrune {
  const MAX_ENTRIES: nat := 128

  type KeyId = string

  datatype Bindings = Bindings(scope: string, purpose: string, username: string, csrfToken: string)

  datatype Envelope = Envelope(bindings: Bindings, publicKeyHash: string, expiresAt: int)

  datatype Item = Item(id: KeyId, env: Envelope)

  predicate Distinct(items: seq<Item>) {
    forall i, j | 0 <= i < j < |items| :: items[i].id != items[j].id
  }

  function Ids(items: seq<Item>): set<KeyId> {
    set x | x in items :: x.id
  }

  // ----- dictionary operations ---------------------------------------------------------------

  /** `dict.pop(id, None)`. */
  function Without(items: seq<Item>, id: KeyId): seq<Item> {
    if items == [] then []
    else if items[0].id == id then Without(items[1..], id)
    else [items[0]] + Without(items[1..], id)
  }

  lemma {:induction false} WithoutMembers(items: seq<Item>, id: KeyId)
    ensures forall x :: x in Without(items, id) <==> x in items && x.id != id
    ensures |Without(items, id)| <= |items|
    decreases |items|
  {
    if items != [] {
      WithoutMembers(items[1..], id);
      assert items == [items[0]] + items[1..];
    }
  }

  lemma {:induction false} WithoutDistinct(items: seq<Item>, id: KeyId)
    requires Distinct(items)
    ensures Distinct(Without(items, id))
    decreases |items|
  {
    if items != [] {
      WithoutDistinct(items[1..], id);
      WithoutMembers(items[1..], id);
      var rest := Without(items[1..], id);
      forall i | 0 <= i < |rest| ensures rest[i].id != items[0].id {
        assert rest[i] in items[1..];
      }
    }
  }

  lemma WithoutIs(items: seq<Item>, id: KeyId)
    ensures forall x :: x in Without(items, id) <==> x in items && x.id != id
    ensures |Without(items, id)| <= |items|
    ensures Distinct(items) ==> Distinct(Without(items, id))
  {
    WithoutMembers(items, id);
    if Distinct(items) {
      WithoutDistinct(items, id);
    }
  }

  lemma {:induction false} WithoutAbsent(items: seq<Item>, id: KeyId)
    requires forall i | 0 <= i < |items| :: items[i].id != id
    ensures Without(items, id) == items
    decreases |items|
  {
    if items != [] {
      WithoutAbsent(items[1..], id);
    }
  }

  function RemoveAt(items: seq<Item>, m: nat): seq<Item>
    requires m < |items|
  {
    items[..m] + items[m + 1..]
  }

  lemma {:induction false} PopIsRemoveAt(items: seq<Item>, m: nat)
    requires Distinct(items) && m < |items|
    ensures Without(items, items[m].id) == RemoveAt(items, m)
    decreases m
  {
    if m == 0 {
      WithoutAbsent(items[1..], items[0].id);
    } else {
      PopIsRemoveAt(items[1..], m - 1);
      assert [items[0]] + items[1..][..m - 1] == items[..m];
      assert items[1..][m..] == items[m + 1..];
    }
  }

  // ----- expiry --------------------------------------------------------------------------------

  function Live(items: seq<Item>, now: int): seq<Item> {
    if items == [] then []
    else (if items[0].env.expiresAt > now then [items[0]] else []) + Live(items[1..], now)
  }

  lemma {:induction false} LiveMembers(items: seq<Item>, now: int)
    ensures forall x :: x in Live(items, now) <==> x in items && x.env.expiresAt > now
    ensures |Live(items, now)| <= |items|
    decreases |items|
  {
    if items != [] {
      LiveMembers(items[1..], now);
      assert items == [items[0]] + items[1..];
    }
  }

  lemma {:induction false} LiveDistinct(items: seq<Item>, now: int)
    requires Distinct(items)
    ensures Distinct(Live(items, now))
    decreases |items|
  {
    if items != [] {
      var rest := Live(items[1..], now);
      LiveDistinct(items[1..], now);
      LiveMembers(items[1..], now);
      forall j | 0 <= j < |rest| ensures rest[j].id != items[0].id {
        assert rest[j] in items[1..];
      }
    }
  }

  lemma LiveIs(items: seq<Item>, now: int)
    requires Distinct(items)
    ensures forall x :: x in Live(items, now) <==> x in items && x.env.expiresAt > now
    ensures |Live(items, now)| <= |items|
    ensures Distinct(Live(items, now))
  {
    LiveMembers(items, now);
    LiveDistinct(items, now);
  }

  lemma {:induction false} LiveConcat(a: seq<Item>, b: seq<Item>, now: int)
    ensures Live(a + b, now) == Live(a, now) + Live(b, now)
    decreases |a|
  {
    if a == [] {
      assert a + b == b;
    } else {
      assert (a + b)[0] == a[0] && (a + b)[1..] == a[1..] + b;
      LiveConcat(a[1..], b, now);
    }
  }

  /** Popping a set of ids. */
  function Except(items: seq<Item>, ids: set<KeyId>): seq<Item> {
    if items == [] then []
    else (if items[0].id in ids then [] else [items[0]]) + Except(items[1..], ids)
  }

  lemma {:induction false} ExceptNone(items: seq<Item>)
    ensures Except(items, {}) == items
    decreases |items|
  {
    if items != [] {
      ExceptNone(items[1..]);
    }
  }

  lemma {:induction false} ExceptPop(items: seq<Item>, ids: set<KeyId>, id: KeyId)
    ensures Without(Except(items, ids), id) == Except(items, ids + {id})
    decreases |items|
  {
    if items != [] {
      ExceptPop(items[1..], ids, id);
      var rest := Except(items[1..], ids);
      if items[0].id in ids {
        assert Except(items, ids) == rest;
      } else {
        assert ([items[0]] + rest)[1..] == rest;
      }
    }
  }

  lemma {:induction false} ExceptExpiredIsLive(items: seq<Item>, ids: set<KeyId>, now: int)
    requires forall x | x in items :: x.id in ids <==> x.env.expiresAt <= now
    ensures Except(items, ids) == Live(items, now)
    decreases |items|
  {
    if items != [] {
      ExceptExpiredIsLive(items[1..], ids, now);
    }
  }

  // ----- the stable sort -------------------------------------------------------------------------

  /** The first of the items that expire earliest. */
  function FirstMin(items: seq<Item>): (m: nat)
    requires items != []
    ensures m < |items|
    ensures forall i | 0 <= i < |items| :: items[m].env.expiresAt <= items[i].env.expiresAt
    ensures forall i | 0 <= i < m :: items[m].env.expiresAt < items[i].env.expiresAt
  {
    if |items| == 1 then 0
    else
      var m := FirstMin(items[1..]);
      assert forall i | 1 <= i < |items| :: items[i] == items[1..][i - 1];
      if items[0].env.expiresAt <= items[1..][m].env.expiresAt then 0 else m + 1
  }

  /** `sorted(entries, key=expires_at)`: earliest first, ties in insertion order. */
  function SortedByExpiry(items: seq<Item>): (r: seq<Item>)
    ensures |r| == |items|
    decreases |items|
  {
    if items == [] then []
    else
      var m := FirstMin(items);
      [items[m]] + SortedByExpiry(RemoveAt(items, m))
  }

  lemma RemoveAtMultiset(items: seq<Item>, m: nat)
    requires m < |items|
    ensures multiset(items) == multiset{items[m]} + multiset(RemoveAt(items, m))
  {
    assert items == items[..m] + ([items[m]] + items[m + 1..]);
  }

  lemma {:induction false} SortedPermutes(items: seq<Item>)
    ensures multiset(SortedByExpiry(items)) == multiset(items)
    decreases |items|
  {
    if items != [] {
      var m := FirstMin(items);
      SortedPermutes(RemoveAt(items, m));
      RemoveAtMultiset(items, m);
    }
  }

  lemma {:induction false} SortedIsSorted(items: seq<Item>)
    ensures var r := SortedByExpiry(items);
      forall i, j | 0 <= i < j < |r| :: r[i].env.expiresAt <= r[j].env.expiresAt
    decreases |items|
  {
    if items != [] {
      var m := FirstMin(items);
      var rest := SortedByExpiry(RemoveAt(items, m));
      SortedIsSorted(RemoveAt(items, m));
      SortedPermutes(RemoveAt(items, m));
      forall j | 0 <= j < |rest| ensures items[m].env.expiresAt <= rest[j].env.expiresAt {
        assert rest[j] in multiset(RemoveAt(items, m));
        assert rest[j] in RemoveAt(items, m);
      }
    }
  }

  // ----- eviction --------------------------------------------------------------------------------

  /** The items with one expiry, in order. */
  function Expiring(items: seq<Item>, at: int): seq<Item> {
    if items == [] then []
    else (if items[0].env.expiresAt == at then [items[0]] else []) + Expiring(items[1..], at)
  }

  lemma {:induction false} ExpiringConcat(a: seq<Item>, b: seq<Item>, at: int)
    ensures Expiring(a + b, at) == Expiring(a, at) + Expiring(b, at)
    decreases |a|
  {
    if a == [] {
      assert a + b == b;
    } else {
      assert (a + b)[0] == a[0] && (a + b)[1..] == a[1..] + b;
      ExpiringConcat(a[1..], b, at);
    }
  }

  lemma {:induction false} ExpiringNone(items: seq<Item>, at: int)
    requires forall i | 0 <= i < |items| :: items[i].env.expiresAt != at
    ensures Expiring(items, at) == []
    decreases |items|
  {
    if items != [] {
      ExpiringNone(items[1..], at);
    }
  }

  /** Taking out the first of the earliest takes the first of its kind and leaves the others alone. */
  lemma FirstMinIsFirst(items: seq<Item>, at: int)
    requires items != []
    ensures var m := FirstMin(items);
      Expiring(items, at) ==
      (if items[m].env.expiresAt == at then [items[m]] else []) + Expiring(RemoveAt(items, m), at)
  {
    var m := FirstMin(items);
    var x := items[m];
    assert items == items[..m] + ([x] + items[m + 1..]);
    ExpiringConcat(items[..m], [x] + items[m + 1..], at);
    ExpiringConcat([x], items[m + 1..], at);
    ExpiringConcat(items[..m], items[m + 1..], at);
    assert Expiring([x], at) == if x.env.expiresAt == at then [x] else [];
    if x.env.expiresAt == at {
      ExpiringNone(items[..m], at);
    }
  }

  /** Sorting is stable: items of equal expiry keep their insertion order. */
  lemma {:induction false} SortIsStable(items: seq<Item>, at: int)
    ensures Expiring(SortedByExpiry(items), at) == Expiring(items, at)
    decreases |items|
  {
    if items != [] {
      var m := FirstMin(items);
      SortIsStable(RemoveAt(items, m), at);
      FirstMinIsFirst(items, at);
    }
  }

  /** Pop the first `n` items of the sorted order. */
  function DropOldest(items: seq<Item>, n: nat): seq<Item>
    requires n <= |items|
    decreases n
  {
    if n == 0 then items else DropOldest(RemoveAt(items, FirstMin(items)), n - 1)
  }

  /** Popping the first id of the sorted order is one eviction, and leaves the rest sorted. */
  lemma PopOldest(items: seq<Item>, k: nat)
    requires Distinct(items) && 0 < k <= |items|
    ensures var rest := Without(items, SortedByExpiry(items)[0].id);
      && Distinct(rest) && |rest| == |items| - 1
      && SortedByExpiry(rest) == SortedByExpiry(items)[1..]
      && DropOldest(items, k) == DropOldest(rest, k - 1)
  {
    var m := FirstMin(items);
    PopIsRemoveAt(items, m);
    WithoutIs(items, items[m].id);
  }

  lemma RemoveAtMembers(items: seq<Item>, m: nat)
    requires Distinct(items) && m < |items|
    ensures Distinct(RemoveAt(items, m))
    ensures forall x :: x in RemoveAt(items, m) <==> x in items && x != items[m]
  {
    var rest := RemoveAt(items, m);
    forall x | x in items && x != items[m] ensures x in rest {
      var i :| 0 <= i < |items| && items[i] == x;
      assert rest[if i < m then i else i - 1] == x;
    }
  }

  lemma {:induction false} DropOldestIs(items: seq<Item>, n: nat)
    requires Distinct(items) && n <= |items|
    ensures var r := DropOldest(items, n);
      && |r| == |items| - n && Distinct(r)
      && (forall x | x in r :: x in items)
      && (forall x, e | x in r && e in items && e !in r :: e.env.expiresAt <= x.env.expiresAt)
    decreases n
  {
    if n > 0 {
      var m := FirstMin(items);
      RemoveAtMembers(items, m);
      DropOldestIs(RemoveAt(items, m), n - 1);
    }
  }

  function Overflow(n: nat): nat {
    if n <= MAX_ENTRIES then 0 else n - MAX_ENTRIES
  }

  /** `_prune_locked`. */
  function Prune(items: seq<Item>, now: int): seq<Item> {
    var live := Live(items, now);
    DropOldest(live, Overflow(|live|))
  }

  /** At most 128 entries remain, all of them old entries that have not expired; nothing is evicted
      while there is room; and what is evicted expires no later than anything that stays. */
  lemma PruneIs(items: seq<Item>, now: int)
    requires Distinct(items)
    ensures var r := Prune(items, now);
      && |r| <= MAX_ENTRIES && Distinct(r)
      && (forall x | x in r :: x in items && x.env.expiresAt > now)
      && (|Live(items, now)| <= MAX_ENTRIES ==> r == Live(items, now))
      && (|Live(items, now)| > MAX_ENTRIES ==> |r| == MAX_ENTRIES)
      && (forall x, e | x in r && e in items && e.env.expiresAt > now && e !in r :: e.env.expiresAt <= x.env.expiresAt)
  {
    LiveIs(items, now);
    var live := Live(items, now);
    DropOldestIs(live, Overflow(|live|));
  }

  /** With one item too many, the last one is evicted exactly when all others expire later. */
  lemma LastIsEvictedIff(live: seq<Item>, x: Item)
    requires Distinct(live + [x])
    ensures x !in DropOldest(live + [x], 1) <==> forall y | y in live :: y.env.expiresAt > x.env.expiresAt
  {
    var all := live + [x];
    var m := FirstMin(all);
    assert DropOldest(all, 1) == DropOldest(RemoveAt(all, m), 0) == RemoveAt(all, m);
    assert forall i | 0 <= i < |live| :: all[i] == live[i] && live[i] != all[|live|];
    if m == |live| {
      assert RemoveAt(all, m) == live;
    } else {
      assert RemoveAt(all, m)[|live| - 1] == x;
      assert live[m] in live;
    }
  }

  lemma LiveAppend(items: seq<Item>, x: Item, now: int)
    ensures Live(items + [x], now) == Live(items, now) + (if x.env.expiresAt > now then [x] else [])
  {
    LiveConcat(items, [x], now);
    assert Live([x][1..], now) == [];
  }

  predicate SomeNoLater(live: seq<Item>, x: Item) {
    exists y :: y in live && y.env.expiresAt <= x.env.expiresAt
  }

  lemma UnexpiredSurvivesIff(items: seq<Item>, x: Item, now: int)
    requires Distinct(items + [x]) && |items| <= MAX_ENTRIES && x.env.expiresAt > now
    ensures x in Prune(items + [x], now) <==> |Live(items, now)| < MAX_ENTRIES || SomeNoLater(Live(items, now), x)
  {
    var live := Live(items, now);
    LiveAppend(items, x, now);
    LiveMembers(items, now);
    LiveDistinct(items + [x], now);
    if |live| == MAX_ENTRIES {
      LastIsEvictedIff(live, x);
    } else {
      assert Prune(items + [x], now) == live + [x];
    }
  }

  /** A new entry survives the prune that follows its insertion exactly when it has not expired and
      there was room or something else expires no later than it. */
  lemma NewEntrySurvivesIff(items: seq<Item>, x: Item, now: int)
    requires Distinct(items + [x]) && |items| <= MAX_ENTRIES
    ensures x in Prune(items + [x], now) <==>
      x.env.expiresAt > now && (|Live(items, now)| < MAX_ENTRIES || SomeNoLater(Live(items, now), x))
  {
    if x.env.expiresAt > now {
      UnexpiredSurvivesIff(items, x, now);
    } else {
      PruneIs(items + [x], now);
    }
  }

  /** Issued one after another under a clock that does not go back, an entry expires no earlier
      than all stored ones, so it survives unless it has already expired. */
  lemma SequentialIssueSurvives(items: seq<Item>, x: Item, now: int)
    requires Distinct(items + [x]) && |items| <= MAX_ENTRIES
    requires forall y | y in items :: y.env.expiresAt <= x.env.expiresAt
    requires x.env.expiresAt > now
    ensures x in Prune(items + [x], now)
  {
    NewEntrySurvivesIff(items, x, now);
    LiveMembers(items, now);
    if |Live(items, now)| >= MAX_ENTRIES {
      assert Live(items, now)[0] in Live(items, now);
    }
  }
}
