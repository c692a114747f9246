/** Numerals as names: contest indices (bijective base 26) and decimal suffixes. */
module Numerals {
  // ----- contest indices ---------------------------------------------------------------------

  function Letter(d: int): (c: char)
    requires 0 <= d < 26
    ensures 'A' <= c <= 'Z' && c as int == 'A' as int + d
  {
    (('A' as int) + d) as char
  }

  predicate Letters(s: string) {
    forall i | 0 <= i < |s| :: 'A' <= s[i] <= 'Z'
  }

  /** A, B, ..., Z, AA, AB, ... for 1, 2, ...; the empty string for 0. */
  function Index(n: nat): (s: string)
    ensures Letters(s) && (n > 0 ==> s != "")
  {
    if n == 0 then "" else Index((n - 1) / 26) + [Letter((n - 1) % 26)]
  }

  /** `_excel_column_number`, the number the sort key of a letter index uses. */
  function Column(s: string): nat
    requires Letters(s)
  {
    if s == "" then 0
    else Column(s[..|s| - 1]) * 26 + (s[|s| - 1] as int - 'A' as int + 1)
  }

  lemma {:induction false} ColumnOfIndex(n: nat)
    ensures Column(Index(n)) == n
    decreases n
  {
    if n > 0 {
      ColumnOfIndex((n - 1) / 26);
      var s := Index(n);
      assert s[..|s| - 1] == Index((n - 1) / 26);
    }
  }

  lemma {:induction false} IndexOfColumn(s: string)
    requires Letters(s)
    ensures Index(Column(s)) == s
    decreases |s|
  {
    if s != "" {
      var init, last := s[..|s| - 1], s[|s| - 1];
      var d := last as int - 'A' as int;
      IndexOfColumn(init);
      assert Column(s) - 1 == Column(init) * 26 + d;
      assert (Column(s) - 1) / 26 == Column(init) && (Column(s) - 1) % 26 == d;
      assert s == init + [last];
    }
  }

  /** Indices and positive numbers correspond one to one. */
  lemma IndexIsBijective(n: nat, m: nat, s: string)
    ensures Column(Index(n)) == n
    ensures Index(n) == Index(m) ==> n == m
    ensures Letters(s) && s != "" ==> Column(s) > 0 && Index(Column(s)) == s
  {
    ColumnOfIndex(n);
    ColumnOfIndex(m);
    if Letters(s) {
      IndexOfColumn(s);
    }
  }

  /** Strings of one length, compared from the left. */
  predicate LexLess(a: string, b: string) {
    exists k :: 0 <= k < |a| && k < |b| && a[..k] == b[..k] && a[k] < b[k]
  }

  /** Shorter first, then alphabetically. */
  predicate Precedes(a: string, b: string) {
    |a| < |b| || (|a| == |b| && LexLess(a, b))
  }

  lemma PrecedesGrows(a: string, b: string, x: char, y: char)
    requires Precedes(a, b)
    ensures Precedes(a + [x], b + [y])
  {
    if |a| == |b| {
      var k :| 0 <= k < |a| && k < |b| && a[..k] == b[..k] && a[k] < b[k];
      assert (a + [x])[..k] == a[..k] && (b + [y])[..k] == b[..k];
    }
  }

  /** Larger numbers have later indices. */
  lemma {:induction false} IndexIsMonotone(m: nat, n: nat)
    requires m < n
    ensures Precedes(Index(m), Index(n))
    decreases n
  {
    if m > 0 {
      var m', n' := (m - 1) / 26, (n - 1) / 26;
      if m' < n' {
        IndexIsMonotone(m', n');
        PrecedesGrows(Index(m'), Index(n'), Letter((m - 1) % 26), Letter((n - 1) % 26));
      } else {
        assert m' == n' && (m - 1) % 26 < (n - 1) % 26;
        var k := |Index(m')|;
        assert Index(m)[..k] == Index(n)[..k];
      }
    }
  }

  function Reverse(s: string): string {
    if s == "" then "" else Reverse(s[1..]) + [s[0]]
  }

  lemma {:induction false} ReverseAppend(s: string, c: char)
    ensures Reverse(s + [c]) == [c] + Reverse(s)
    decreases |s|
  {
    if s != "" {
      assert (s + [c])[0] == s[0] && (s + [c])[1..] == s[1..] + [c];
      ReverseAppend(s[1..], c);
    }
  }

  /** `_contest_idx_from_sequence`. */
  method ContestIdxFromSequence(number: int) returns (idx: string)
    ensures idx == Index(if number < 1 then 1 else number)
  {
    var value := if number < 1 then 1 else number;
    ghost var start := value;
    var chars := "";
    while value > 0
      invariant value >= 0
      invariant Index(value) + Reverse(chars) == Index(start)
    {
      var digit := value - 1;
      ReverseAppend(chars, Letter(digit % 26));
      assert Index(digit / 26) + ([Letter(digit % 26)] + Reverse(chars)) == Index(value) + Reverse(chars);
      chars := chars + [Letter(digit % 26)];
      value := digit / 26;
    }
    idx := Reverse(chars);
    assert "" + idx == idx;
  }

  // ----- decimal suffixes --------------------------------------------------------------------

  function Digit(d: int): (c: char)
    requires 0 <= d < 10
    ensures '0' <= c <= '9' && c as int == '0' as int + d
  {
    (('0' as int) + d) as char
  }

  predicate Digits(s: string) {
    forall i | 0 <= i < |s| :: '0' <= s[i] <= '9'
  }

  function Decimal(n: nat): (s: string)
    ensures s != "" && Digits(s)
  {
    if n < 10 then [Digit(n)] else Decimal(n / 10) + [Digit(n % 10)]
  }

  function Number(s: string): nat
    requires Digits(s)
  {
    if s == "" then 0 else Number(s[..|s| - 1]) * 10 + (s[|s| - 1] as int - '0' as int)
  }

  lemma {:induction false} NumberOfDecimal(n: nat)
    ensures Number(Decimal(n)) == n
    decreases n
  {
    var s := Decimal(n);
    if n < 10 {
      assert s[..0] == "";
    } else {
      NumberOfDecimal(n / 10);
      assert s[..|s| - 1] == Decimal(n / 10);
    }
  }
}
