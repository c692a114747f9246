/** Names assigned by a contest import: problem indices and contest slugs. */
module ImportNames {
  import opened Wrappers
  import opened Text
  import opened Numerals
  import opened FreshNames
  import opened Slugs

  // ----- problem indices -----------------------------------------------------------------------

  lemma IndicesDiffer(start: nat)
    ensures Injective(Index, start)
  {
    forall i, j | start <= i < j ensures Index(i) != Index(j) {
      ColumnOfIndex(i);
      ColumnOfIndex(j);
    }
  }

  /** The indices handed out during one import. */
  class ImportIndices {
    var used: set<string>

    constructor ()
      ensures used == {}
    {
      used := {};
    }

    /** `_normalize_import_contest_idx`. `token` is the canonical form of the raw index, absent when
        the raw index is invalid. A usable one is kept; otherwise the first free index from the
        sequence number on is taken. */
    method Assign(token: Option<string>, number: int) returns (idx: string)
      modifies this
      ensures idx !in old(used) && used == old(used) + {idx}
      ensures var keeps := token.Some? && token.value != "" && token.value !in old(used);
        && (keeps ==> idx == token.value)
        && (!keeps ==> FirstFree(Index, if number < 1 then 1 else number, old(used), idx))
    {
      if token.Some? && token.value != "" && token.value !in used {
        used := used + {token.value};
        return token.value;
      }
      var start := if number < 1 then 1 else number;
      var candidateSeq := start;
      IndicesDiffer(start);
      while true
        invariant start <= candidateSeq && used == old(used)
        invariant AllTaken(Index, start, candidateSeq, used)
        decreases start + |used| - candidateSeq
      {
        var candidate := ContestIdxFromSequence(candidateSeq);
        if candidate !in used {
          Found(Index, start, candidateSeq, used);
          used := used + {candidate};
          return candidate;
        }
        Missed(Index, start, candidateSeq, used);
        candidateSeq := candidateSeq + 1;
      }
    }
  }

  predicate Usable(token: Option<string>, before: seq<string>) {
    token.Some? && token.value != "" && token.value !in before
  }

  /** Row `i` keeps a usable index, and otherwise gets the first free one from its own number on. */
  ghost predicate AssignedAt(tokens: seq<Option<string>>, indices: seq<string>, i: nat)
    requires i < |tokens| && i < |indices|
  {
    if Usable(tokens[i], indices[..i]) then indices[i] == tokens[i].value
    else FirstFree(Index, i + 1, (set x | x in indices[..i]), indices[i])
  }

  /** A whole import: whatever raw indices arrive, the assigned ones are pairwise different, a usable
      raw index is kept by its first owner, and any other row gets the first free index. */
  method AssignAll(tokens: seq<Option<string>>) returns (indices: seq<string>)
    ensures |indices| == |tokens|
    ensures forall i, j | 0 <= i < j < |indices| :: indices[i] != indices[j]
    ensures forall i | 0 <= i < |tokens| :: AssignedAt(tokens, indices, i)
  {
    var names := new ImportIndices();
    indices := [];
    for row := 0 to |tokens|
      invariant |indices| == row
      invariant fresh(names) && names.used == set x | x in indices
      invariant forall i, j | 0 <= i < j < row :: indices[i] != indices[j]
      invariant forall i | 0 <= i < row :: AssignedAt(tokens, indices, i)
    {
      ghost var was := indices;
      var idx := names.Assign(tokens[row], row + 1);
      indices := indices + [idx];
      forall i | 0 <= i <= row ensures AssignedAt(tokens, indices, i) {
        assert indices[..i] == was[..i];
        assert i < row ==> AssignedAt(tokens, was, i);
        assert was[..row] == was;
      }
    }
  }

  // ----- slugs ---------------------------------------------------------------------------------

  function Suffix(i: nat): string { "-" + Decimal(i) }

  /** The `i`-th alternative to a taken slug: as much of it as fits before the numeric suffix. */
  function Numbered(token: string, i: nat, maxLength: nat, fallback: string): string {
    var room := if maxLength - |Suffix(i)| < 1 then 1 else maxLength - |Suffix(i)|;
    var head := TrimEnd(if |token| > room then token[..room] else token, IsDash);
    (if head == "" then fallback else head) + Suffix(i)
  }

  function Alternatives(token: string, maxLength: nat, fallback: string): nat -> string {
    (i: nat) => Numbered(token, i, maxLength, fallback)
  }

  /** A part of the base that can stand before the suffix. */
  predicate IsHead(token: string, room: nat, h: string) {
    h <= token && 0 < |h| <= room && h[|h| - 1] != '-'
  }

  function RoomFor(i: nat, maxLength: nat): nat {
    if |Suffix(i)| < maxLength then maxLength - |Suffix(i)| else 1
  }

  /** An alternative keeps as much of the base as it can: the longest part that leaves room for the
      suffix, at least one character, and does not end in a dash; the fallback when there is none. */
  lemma NumberedKeepsLongestHead(token: string, i: nat, maxLength: nat, fallback: string) returns (head: string)
    ensures Numbered(token, i, maxLength, fallback) == head + Suffix(i)
    ensures if exists h :: IsHead(token, RoomFor(i, maxLength), h)
            then IsHead(token, RoomFor(i, maxLength), head)
            else head == fallback
    ensures forall h | IsHead(token, RoomFor(i, maxLength), h) :: |h| <= |head|
  {
    var room := RoomFor(i, maxLength);
    var part := if |token| > room then token[..room] else token;
    var kept := TrimEnd(part, IsDash);
    head := if kept == "" then fallback else kept;
    forall h | IsHead(token, room, h) ensures 0 < |h| <= |kept| {
      assert part[|h| - 1] == h[|h| - 1];
    }
    assert kept != "" ==> IsHead(token, room, kept);
  }

  /** A base that leaves room for the suffix is kept whole. */
  lemma NumberedKeepsShortBase(token: string, i: nat, maxLength: nat, fallback: string)
    requires token != "" && token[|token| - 1] != '-' && |token + Suffix(i)| <= maxLength
    ensures Numbered(token, i, maxLength, fallback) == token + Suffix(i)
  {
  }

  lemma NumberedEnds(token: string, i: nat, maxLength: nat, fallback: string) returns (head: string)
    ensures Numbered(token, i, maxLength, fallback) == head + "-" + Decimal(i)
  {
    var s := Numbered(token, i, maxLength, fallback);
    head := s[..|s| - |Suffix(i)|];
  }

  lemma AlternativesDiffer(token: string, maxLength: nat, fallback: string)
    ensures Injective(Alternatives(token, maxLength, fallback), 2)
  {
    var f := Alternatives(token, maxLength, fallback);
    forall i: nat, j: nat | 2 <= i < j ensures f(i) != f(j) {
      var a := NumberedEnds(token, i, maxLength, fallback);
      var b := NumberedEnds(token, j, maxLength, fallback);
      NumberedNamesDiffer(a, i, b, j);
    }
  }

  /** Alternatives stay within the limit as long as their suffix leaves room for one character. */
  lemma NumberedFits(token: string, i: nat, maxLength: nat, fallback: string)
    requires |fallback| == 1 && |Suffix(i)| < maxLength
    ensures |Numbered(token, i, maxLength, fallback)| <= maxLength
  {
  }

  lemma {:induction false} DecimalLengthGrows(i: nat, j: nat)
    requires i <= j
    ensures |Decimal(i)| <= |Decimal(j)|
    decreases j
  {
    if j >= 10 && i >= 10 {
      DecimalLengthGrows(i / 10, j / 10);
    }
  }

  const CONTEST_SLUG_MAX: nat := 64

  predicate IsIdentChar(c: char) { IsAlnum(c) || c == '.' || c == '_' || c == '-' }

  /** `CONTEST_IDENT_RE`. */
  predicate IsContestIdent(s: string) {
    0 < |s| <= CONTEST_SLUG_MAX && IsAlnum(s[0]) && forall i | 0 <= i < |s| :: IsIdentChar(s[i])
  }

  /** The alternatives of a valid contest slug are valid contest slugs. */
  lemma NumberedIsContestIdent(token: string, i: nat)
    requires IsContestIdent(token) && |Suffix(i)| < CONTEST_SLUG_MAX
    ensures IsContestIdent(Numbered(token, i, CONTEST_SLUG_MAX, "c"))
  {
    NumberedFits(token, i, CONTEST_SLUG_MAX, "c");
    var s := Numbered(token, i, CONTEST_SLUG_MAX, "c");
    var n := |s| - |Suffix(i)|;
    forall k | 0 <= k < |s| ensures IsIdentChar(s[k]) {
      if k >= n {
        assert s[k] == Suffix(i)[k - n];
      }
    }
  }

  /** A search among few enough names stays within the valid contest slugs. */
  lemma ContestSlugIsIdent(token: string, taken: set<string>, slug: string)
    requires IsContestIdent(token) && |Suffix(|taken| + 2)| < CONTEST_SLUG_MAX
    requires FirstFree(Alternatives(token, CONTEST_SLUG_MAX, "c"), 2, taken, slug)
    ensures IsContestIdent(slug)
  {
    var n: nat :| 2 <= n <= 2 + |taken| && slug == Alternatives(token, CONTEST_SLUG_MAX, "c")(n);
    DecimalLengthGrows(n, |taken| + 2);
    NumberedIsContestIdent(token, n);
  }

  function ContestToken(base: string): string {
    if Strip(base) == "" then "imported-contest" else Strip(base)
  }

  /** `_next_available_contest_slug`: the base itself, or its first free numbered alternative. */
  method NextAvailableContestSlug(base: string, taken: set<string>) returns (slug: string)
    ensures slug !in taken
    ensures ContestToken(base) !in taken ==> slug == ContestToken(base)
    ensures ContestToken(base) in taken ==>
      FirstFree(Alternatives(ContestToken(base), CONTEST_SLUG_MAX, "c"), 2, taken, slug)
    ensures IsContestIdent(ContestToken(base)) && |Suffix(|taken| + 2)| < CONTEST_SLUG_MAX ==> IsContestIdent(slug)
    ensures Strip(base) == "" && "imported-contest" !in taken ==> slug == "imported-contest"
    ensures Strip(base) != "" && Strip(base) !in taken ==> slug == Strip(base)
  {
    var token := Strip(base);
    if token == "" {
      token := "imported-contest";
    }
    ghost var f := Alternatives(token, CONTEST_SLUG_MAX, "c");
    AlternativesDiffer(token, CONTEST_SLUG_MAX, "c");
    slug := token;
    var idx := 2;
    while slug in taken
      invariant 2 <= idx && slug == if idx == 2 then token else f(idx - 1)
      invariant idx > 2 ==> token in taken && AllTaken(f, 2, idx - 1, taken)
      decreases 3 + |taken| - idx
    {
      if idx > 2 {
        Missed(f, 2, idx - 1, taken);
      }
      slug := Numbered(token, idx, CONTEST_SLUG_MAX, "c");
      idx := idx + 1;
    }
    if idx > 2 {
      Found(f, 2, idx - 1, taken);
      if IsContestIdent(token) && |Suffix(|taken| + 2)| < CONTEST_SLUG_MAX {
        ContestSlugIsIdent(token, taken, slug);
      }
    }
  }
}
