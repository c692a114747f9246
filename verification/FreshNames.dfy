/** Searching for an unused name: distinct candidates run out of taken names. */
module FreshNames {
  import opened Numerals

  /** Candidates from `start` on are pairwise different. */
  ghost predicate Injective(candidate: nat -> string, start: nat) {
    forall i, j | start <= i < j :: candidate(i) != candidate(j)
  }

  lemma {:induction false} DistinctImages(candidate: nat -> string, start: nat, n: nat)
    requires Injective(candidate, start) && start <= n
    ensures |set i | start <= i < n :: candidate(i)| == n - start
    decreases n
  {
    if start < n {
      DistinctImages(candidate, start, n - 1);
      var less := set i | start <= i < n - 1 :: candidate(i);
      assert (set i | start <= i < n :: candidate(i)) == less + {candidate(n - 1)};
    }
  }

  lemma SubsetIsSmaller(a: set<string>, b: set<string>)
    requires a <= b
    ensures |a| <= |b|
  {
    assert b == a + (b - a);
  }

  ghost predicate AllTaken(candidate: nat -> string, start: nat, n: nat, taken: set<string>) {
    forall i | start <= i < n :: candidate(i) in taken
  }

  /** Pigeonhole: when all candidates up to `n` are taken, there are at least that many names. */
  lemma TakenBounds(candidate: nat -> string, start: nat, n: nat, taken: set<string>)
    requires Injective(candidate, start) && start <= n && AllTaken(candidate, start, n, taken)
    ensures n - start <= |taken|
  {
    DistinctImages(candidate, start, n);
    SubsetIsSmaller(set i | start <= i < n :: candidate(i), taken);
  }

  /** `name` is the first candidate from `start` on that is not taken; at most |taken| come before. */
  ghost predicate FirstFree(candidate: nat -> string, start: nat, taken: set<string>, name: string) {
    exists n: nat ::
      && start <= n <= start + |taken|
      && AllTaken(candidate, start, n, taken)
      && name == candidate(n) && name !in taken
  }

  /** The end of a search. */
  lemma Found(candidate: nat -> string, start: nat, n: nat, taken: set<string>)
    requires Injective(candidate, start) && start <= n && AllTaken(candidate, start, n, taken)
    requires candidate(n) !in taken
    ensures FirstFree(candidate, start, taken, candidate(n))
  {
    TakenBounds(candidate, start, n, taken);
  }

  /** One more failed try leaves fewer to come. */
  lemma Missed(candidate: nat -> string, start: nat, n: nat, taken: set<string>)
    requires Injective(candidate, start) && start <= n && AllTaken(candidate, start, n, taken)
    requires candidate(n) in taken
    ensures AllTaken(candidate, start, n + 1, taken) && n < start + |taken|
  {
    TakenBounds(candidate, start, n + 1, taken);
  }

  /** One of the next |taken| + 1 candidates is free. */
  lemma SomeFree(candidate: nat -> string, start: nat, taken: set<string>) returns (n: nat)
    requires Injective(candidate, start)
    ensures start <= n <= start + |taken| && candidate(n) !in taken
  {
    if AllTaken(candidate, start, start + |taken| + 1, taken) {
      TakenBounds(candidate, start, start + |taken| + 1, taken);
      assert false;
    }
    n :| start <= n < start + |taken| + 1 && candidate(n) !in taken;
  }

  // ----- numbered names ----------------------------------------------------------------------

  predicate DashFree(s: string) { '-' !in s }

  /** What follows the last dash is determined by the whole. */
  lemma LastPartIsUnique(p: string, d: string, q: string, e: string)
    requires p + "-" + d == q + "-" + e && DashFree(d) && DashFree(e)
    ensures d == e
  {
    var s := p + "-" + d;
    assert s == q + "-" + e;
    forall i | |p| < i < |s| ensures s[i] != '-' {
      assert s[i] == d[i - |p| - 1];
    }
    forall i | |q| < i < |s| ensures s[i] != '-' {
      assert s[i] == e[i - |q| - 1];
    }
    assert s[|p|] == '-' && s[|q|] == '-';
    assert d == s[|p| + 1..] && e == s[|q| + 1..];
  }

  /** Names ending in different numbers are different. */
  lemma NumberedNamesDiffer(p: string, i: nat, q: string, j: nat)
    requires i != j
    ensures p + "-" + Decimal(i) != q + "-" + Decimal(j)
  {
    if p + "-" + Decimal(i) == q + "-" + Decimal(j) {
      LastPartIsUnique(p, Decimal(i), q, Decimal(j));
      NumberOfDecimal(i);
      NumberOfDecimal(j);
    }
  }
}
