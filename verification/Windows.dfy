/** Counting events in a time window. */
module Windows {
  function Count(times: seq<real>, inside: real -> bool): (n: nat)
    ensures n <= |times|
  {
    if times == [] then 0
    else
      var last := |times| - 1;
      Count(times[..last], inside) + (if inside(times[last]) then 1 else 0)
  }

  predicate Nondecreasing(times: seq<real>) {
    forall i, j | 0 <= i <= j < |times| :: times[i] <= times[j]
  }

  /** Any event and the `m`-th one after it are at least `width` apart. */
  predicate Spaced(times: seq<real>, m: nat, width: real) {
    forall i, j | 0 <= i && i + m <= j < |times| :: times[i] + width <= times[j]
  }

  lemma {:induction false} CountsOnlyTheEnd(times: seq<real>, inside: real -> bool, m: nat)
    requires forall i | 0 <= i < |times| - m :: !inside(times[i])
    ensures Count(times, inside) <= m
    decreases |times|
  {
    if |times| > m {
      var rest := times[..|times| - 1];
      CountsOnlyTheEnd(rest, inside, if m == 0 then 0 else m - 1);
    }
  }

  /** A window narrower than the spacing holds at most `m` events. */
  lemma {:induction false} SpacingBoundsCount(times: seq<real>, inside: real -> bool, m: nat, width: real)
    requires Spaced(times, m, width)
    requires forall i, j | 0 <= i <= j < |times| && inside(times[i]) && inside(times[j]) :: times[j] - times[i] < width
    ensures Count(times, inside) <= m
    decreases |times|
  {
    if times != [] {
      var last := |times| - 1;
      if inside(times[last]) {
        forall i | 0 <= i < |times| - m ensures !inside(times[i]) {
          if m > 0 || i < last {
            assert i + m <= last;
            assert times[i] + width <= times[last];
          }
        }
        CountsOnlyTheEnd(times, inside, m);
      } else {
        SpacingBoundsCount(times[..last], inside, m, width);
      }
    }
  }

  lemma {:induction false} CountConcat(a: seq<real>, b: seq<real>, inside: real -> bool)
    ensures Count(a + b, inside) == Count(a, inside) + Count(b, inside)
    decreases |b|
  {
    if b == [] {
      assert a + b == a;
    } else {
      var last := |b| - 1;
      assert (a + b)[..|a + b| - 1] == a + b[..last];
      CountConcat(a, b[..last], inside);
    }
  }

  lemma {:induction false} CountAll(times: seq<real>, inside: real -> bool)
    requires forall i | 0 <= i < |times| :: inside(times[i])
    ensures Count(times, inside) == |times|
    decreases |times|
  {
    if times != [] {
      CountAll(times[..|times| - 1], inside);
    }
  }
}
