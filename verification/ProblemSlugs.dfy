/** Problem slugs assigned by a contest import: `_next_available_problem_slug`. */
module ProblemSlugs {
  import opened Wrappers
  import opened Text
  import opened Numerals
  import opened FreshNames
  import opened Slugs
  import opened ImportNames
  import SlugOnePass

  /** A candidate clashes when it was reserved in this import or when its canonical form is known. */
  predicate Clashes(canon: string -> string, candidate: string, reserved: set<string>, known: set<string>) {
    candidate in reserved || canon(candidate) in known
  }

  function Canonizer(maxLength: nat): string -> string {
    s => Slugify(s, maxLength)
  }

  lemma NumberedIsSlug(token: string, i: nat, maxLength: nat)
    requires IsSlug(token) && token != ""
    ensures IsSlug(Numbered(token, i, maxLength, "p")) && Numbered(token, i, maxLength, "p")[0] == token[0]
  {
    var room := if maxLength - |Suffix(i)| < 1 then 1 else maxLength - |Suffix(i)|;
    CutIs(token, room);
    var head := Cut(token, room);
    assert head[0] == token[0];
    var s := head + Suffix(i);
    assert Numbered(token, i, maxLength, "p") == s;
    forall k | 0 <= k < |s| ensures JointAt(s, k) && (IsWordChar(s[k]) || s[k] == '-') {
      assert k < |head| ==> JointAt(head, k) && s[k] == head[k];
      assert k > |head| ==> s[k] == Decimal(i)[k - |head| - 1];
      assert |head| <= k < |s| - 1 ==> s[k + 1] == Decimal(i)[k - |head|];
    }
  }

  /** While the suffix fits, an alternative is its own canonical form. */
  lemma NumberedIsCanonical(token: string, i: nat, maxLength: nat)
    requires IsSlug(token) && token != "" && |Suffix(i)| < maxLength
    ensures var c := Numbered(token, i, maxLength, "p"); Slugify(c, maxLength) == c && |c| <= maxLength
  {
    var c := Numbered(token, i, maxLength, "p");
    NumberedIsSlug(token, i, maxLength);
    NumberedFits(token, i, maxLength, "p");
    SlugifySlug(c, maxLength);
    CutIs(c, maxLength);
  }

  function ProblemBase(base: string): string {
    if Strip(base) == "" then "imported-problem" else Strip(base)
  }

  function ProblemToken(base: string, maxLength: nat): string {
    Slugify(ProblemBase(base), maxLength)
  }

  /** The first of the names tried that does not clash; trying starts at 1. */
  predicate FirstTry(canon: string -> string, tries: nat -> string, reserved: set<string>, known: set<string>, n: nat) {
    && 1 <= n && !Clashes(canon, tries(n), reserved, known)
    && forall i | 1 <= i < n :: Clashes(canon, tries(i), reserved, known)
  }

  ghost predicate Ends(canon: string -> string, tries: nat -> string, reserved: set<string>, known: set<string>) {
    exists n: nat :: 1 <= n && !Clashes(canon, tries(n), reserved, known)
  }

  /** `problem_full_slug` refuses an empty segment and one that makes the full name too long. */
  predicate Refused(segment: string, room: int) { segment == "" || |segment| > room }

  ghost predicate AllFit(canon: string -> string, tries: nat -> string, room: int) {
    forall n: nat | 1 <= n :: !Refused(canon(tries(n)), room)
  }

  ghost predicate NoneFit(canon: string -> string, tries: nat -> string, room: int) {
    forall n: nat | 1 <= n :: Refused(canon(tries(n)), room)
  }

  /** The loop of `_next_available_problem_slug`, over the names it tries; absent when a lookup
      refuses a name. */
  method SearchProblemSlug(
    canon: string -> string, tries: nat -> string, room: int, reserved: set<string>, known: set<string>)
    returns (slug: Option<string>)
    requires AllFit(canon, tries, room) || NoneFit(canon, tries, room)
    requires Ends(canon, tries, reserved, if AllFit(canon, tries, room) then known else {})
    ensures NoneFit(canon, tries, room) ==> slug.None?
    ensures AllFit(canon, tries, room) ==>
      exists n: nat :: FirstTry(canon, tries, reserved, known, n) && slug == Some(tries(n))
  {
    ghost var looked := if AllFit(canon, tries, room) then known else {};
    ghost var end: nat :| 1 <= end && !Clashes(canon, tries(end), reserved, looked);
    var candidate := tries(1);
    var idx := 2;
    while true
      invariant 2 <= idx <= end + 1 && candidate == tries(idx - 1)
      invariant forall i | 1 <= i < idx - 1 :: Clashes(canon, tries(i), reserved, looked)
      decreases end + 1 - idx
    {
      if candidate !in reserved {
        if Refused(canon(candidate), room) {
          return None;
        }
        if canon(candidate) !in known {
          assert AllFit(canon, tries, room) ==> FirstTry(canon, tries, reserved, known, idx - 1);
          return Some(candidate);
        }
      }
      candidate := tries(idx);
      idx := idx + 1;
    }
  }

  /** What is tried: the base, then its alternatives 2, 3, ... */
  function Tried(token: string, maxLength: nat, n: nat): string {
    if n < 2 then token else Numbered(token, n, maxLength, "p")
  }

  function Tries(token: string, maxLength: nat): nat -> string {
    (n: nat) => Tried(token, maxLength, n)
  }

  // ----- when the search ends ------------------------------------------------------------------

  /** An alternative whose number does not fit is cut back: to the leading digits, or with a limit
      of one or two characters to the first character of the base. */
  ghost predicate IsCutForm(token: string, maxLength: nat, c: string)
    requires token != ""
  {
    if maxLength <= 2 then c == token[..1]
    else exists j: nat :: j >= 1 && |Decimal(j)| == maxLength - 2 && c == token[..1] + Suffix(j)
  }

  /** Checkable before the call: the base is free, or an alternative that fits the limit is, or a
      name that longer alternatives are cut back to is unknown. */
  ghost predicate CanEnd(token: string, maxLength: nat, reserved: set<string>, known: set<string>)
    requires token != ""
  {
    || token !in reserved + known
    || (exists i: nat :: 2 <= i && |Suffix(i)| < maxLength && Numbered(token, i, maxLength, "p") !in reserved + known)
    || (exists c :: IsCutForm(token, maxLength, c) && c !in known)
  }

  lemma LongAlternative(token: string, i: nat, maxLength: nat)
    requires IsSlug(token) && 0 < |token| <= maxLength <= |Suffix(i)|
    ensures Numbered(token, i, maxLength, "p") == token[..1] + Suffix(i)
  {
    assert token[..1][0] == token[0];
    assert TrimEnd(token[..1], IsDash) == token[..1];
    assert |token| == 1 ==> token[..1] == token;
  }

  lemma CutDropsSuffix(head: string, i: nat, maxLength: nat)
    requires |head| == 1 && head[0] != '-' && 1 <= maxLength <= 2
    ensures Cut(head + Suffix(i), maxLength) == head
  {
    var c := head + Suffix(i);
    if maxLength == 1 {
      assert c[..1] == head;
    } else {
      assert c[..2] == head + "-";
      assert (head + "-")[..1] == head;
    }
  }

  lemma CutKeepsDigits(head: string, i: nat, maxLength: nat)
    requires |head| == 1 && 3 <= maxLength <= |Suffix(i)|
    ensures Cut(head + Suffix(i), maxLength) == head + "-" + Decimal(i)[..maxLength - 2]
  {
    var c := head + Suffix(i);
    var digits := Decimal(i)[..maxLength - 2];
    var short := head + "-" + digits;
    assert c[..maxLength] == short;
    assert short[maxLength - 1] == digits[maxLength - 3] == Decimal(i)[maxLength - 3];
    assert TrimEnd(short, IsDash) == short;
  }

  lemma LongIsCut(token: string, i: nat, maxLength: nat)
    requires IsSlug(token) && 0 < |token| <= maxLength <= |Suffix(i)|
    ensures Slugify(Numbered(token, i, maxLength, "p"), maxLength) ==
      if maxLength <= 2 then token[..1] else token[..1] + "-" + Decimal(i)[..maxLength - 2]
  {
    NumberedIsSlug(token, i, maxLength);
    SlugifySlug(Numbered(token, i, maxLength, "p"), maxLength);
    LongAlternative(token, i, maxLength);
    if maxLength <= 2 {
      CutDropsSuffix(token[..1], i, maxLength);
    } else {
      CutKeepsDigits(token[..1], i, maxLength);
    }
  }

  /** Leading digits are the numeral of a positive number. */
  lemma {:induction false} LeadingDigits(i: nat, n: nat) returns (j: nat)
    requires i >= 1 && 1 <= n <= |Decimal(i)|
    ensures j >= 1 && Decimal(j) == Decimal(i)[..n]
    decreases i
  {
    if n == |Decimal(i)| {
      j := i;
    } else {
      j := LeadingDigits(i / 10, n);
    }
  }

  /** `j` followed by `k` zeros. */
  function Tens(j: nat, k: nat): nat {
    if k == 0 then j else Tens(j, k - 1) * 10
  }

  lemma {:induction false} TensExtend(j: nat, k: nat)
    requires j >= 1
    ensures Tens(j, k) >= j && |Decimal(Tens(j, k))| == |Decimal(j)| + k && Decimal(j) <= Decimal(Tens(j, k))
    decreases k
  {
    if k > 0 {
      TensExtend(j, k - 1);
      assert Decimal(Tens(j, k)) == Decimal(Tens(j, k - 1)) + [Digit(0)];
    }
  }

  /** Numbers that start with `j` give names outside any finite set. */
  lemma UnreservedExtension(head: string, j: nat, reserved: set<string>) returns (k: nat)
    requires j >= 1
    ensures k >= 1 && head + Suffix(Tens(j, k)) !in reserved
  {
    var f := (k: nat) => head + Suffix(Tens(j, k));
    forall k: nat, l: nat | 1 <= k < l ensures f(k) != f(l) {
      TensExtend(j, k);
      TensExtend(j, l);
      assert |f(k)| != |f(l)|;
    }
    k := SomeFree(f, 1, reserved);
  }

  lemma LeadingDigitsName(head: string, n: nat, j: nat)
    requires Decimal(j) <= Decimal(n)
    ensures head + "-" + Decimal(n)[..|Decimal(j)|] == head + Suffix(j)
  {
    assert Decimal(n)[..|Decimal(j)|] == Decimal(j);
    assert head + "-" + Decimal(j) == head + Suffix(j);
  }

  lemma LeadingDigitsAreCutForm(token: string, n: nat, maxLength: nat)
    requires token != "" && n >= 1 && 3 <= maxLength <= |Suffix(n)|
    ensures IsCutForm(token, maxLength, token[..1] + "-" + Decimal(n)[..maxLength - 2])
  {
    var j := LeadingDigits(n, maxLength - 2);
    LeadingDigitsName(token[..1], n, j);
  }

  lemma LongIsCutTo(token: string, n: nat, j: nat, maxLength: nat)
    requires IsSlug(token) && 0 < |token| <= maxLength <= |Suffix(n)|
    requires |Decimal(j)| == maxLength - 2 && Decimal(j) <= Decimal(n)
    ensures Slugify(Numbered(token, n, maxLength, "p"), maxLength) == token[..1] + Suffix(j)
  {
    LongIsCut(token, n, maxLength);
    LeadingDigitsName(token[..1], n, j);
  }

  /** The canonical form of the `n`-th name tried. */
  function CanonicalTry(token: string, maxLength: nat, n: nat): string {
    Canonizer(maxLength)(Tries(token, maxLength)(n))
  }

  lemma LeadingDigitsAreReached(token: string, maxLength: nat, reserved: set<string>, j: nat) returns (n: nat)
    requires IsSlug(token) && 0 < |token| <= maxLength && j >= 1 && |Decimal(j)| == maxLength - 2
    ensures n >= 2 && Tries(token, maxLength)(n) !in reserved
    ensures CanonicalTry(token, maxLength, n) == token[..1] + Suffix(j)
  {
    var k := UnreservedExtension(token[..1], j, reserved);
    TensExtend(j, k);
    n := Tens(j, k);
    assert n >= 2;
    LongAlternative(token, n, maxLength);
    LongIsCutTo(token, n, j, maxLength);
  }

  lemma FirstLetterIsReached(token: string, maxLength: nat, reserved: set<string>) returns (n: nat)
    requires IsSlug(token) && 0 < |token| <= maxLength <= 2
    ensures n >= 2 && Tries(token, maxLength)(n) !in reserved && CanonicalTry(token, maxLength, n) == token[..1]
  {
    AlternativesDiffer(token, maxLength, "p");
    n := SomeFree(Alternatives(token, maxLength, "p"), 2, reserved);
    LongIsCut(token, n, maxLength);
  }

  /** Names that a known set does not stop are reached, since only finitely many are reserved. */
  lemma CutFormIsReached(token: string, maxLength: nat, reserved: set<string>, c: string) returns (n: nat)
    requires IsSlug(token) && 0 < |token| <= maxLength && IsCutForm(token, maxLength, c)
    ensures n >= 2 && Tries(token, maxLength)(n) !in reserved && CanonicalTry(token, maxLength, n) == c
  {
    if maxLength <= 2 {
      n := FirstLetterIsReached(token, maxLength, reserved);
    } else {
      var j: nat :| j >= 1 && |Decimal(j)| == maxLength - 2 && c == token[..1] + Suffix(j);
      n := LeadingDigitsAreReached(token, maxLength, reserved, j);
    }
  }

  lemma LongNumberedIsCutForm(token: string, n: nat, maxLength: nat)
    requires IsSlug(token) && 0 < |token| <= maxLength <= |Suffix(n)| && n >= 1
    ensures IsCutForm(token, maxLength, Slugify(Numbered(token, n, maxLength, "p"), maxLength))
  {
    LongIsCut(token, n, maxLength);
    if maxLength > 2 {
      LeadingDigitsAreCutForm(token, n, maxLength);
    }
  }

  lemma LongTryIsCutForm(token: string, n: nat, maxLength: nat)
    requires IsSlug(token) && 0 < |token| <= maxLength <= |Suffix(n)| && n >= 2
    ensures IsCutForm(token, maxLength, CanonicalTry(token, maxLength, n))
  {
    LongNumberedIsCutForm(token, n, maxLength);
    assert CanonicalTry(token, maxLength, n) == Slugify(Numbered(token, n, maxLength, "p"), maxLength);
  }

  lemma ShortTryIsCanonical(token: string, n: nat, maxLength: nat)
    requires IsSlug(token) && 0 < |token| <= maxLength && (n < 2 || |Suffix(n)| < maxLength)
    ensures CanonicalTry(token, maxLength, n) == Tried(token, maxLength, n)
  {
    if n < 2 {
      SlugifySlug(token, maxLength);
      CutIs(token, maxLength);
    } else {
      NumberedIsCanonical(token, n, maxLength);
    }
  }

  /** A name tried that does not clash shows why the search can end. */
  lemma EndMeansCanEnd(token: string, maxLength: nat, reserved: set<string>, known: set<string>, n: nat)
    requires IsSlug(token) && 0 < |token| <= maxLength && n >= 1
    requires Tried(token, maxLength, n) !in reserved && CanonicalTry(token, maxLength, n) !in known
    ensures CanEnd(token, maxLength, reserved, known)
  {
    if n < 2 || |Suffix(n)| < maxLength {
      ShortTryIsCanonical(token, n, maxLength);
    } else {
      LongTryIsCutForm(token, n, maxLength);
    }
  }

  lemma CanEndMeansEnd(token: string, maxLength: nat, reserved: set<string>, known: set<string>) returns (n: nat)
    requires IsSlug(token) && 0 < |token| <= maxLength && CanEnd(token, maxLength, reserved, known)
    ensures n >= 1 && Tried(token, maxLength, n) !in reserved && CanonicalTry(token, maxLength, n) !in known
  {
    if token !in reserved + known {
      n := 1;
      ShortTryIsCanonical(token, n, maxLength);
    } else if c :| IsCutForm(token, maxLength, c) && c !in known {
      n := CutFormIsReached(token, maxLength, reserved, c);
    } else {
      n :| 2 <= n && |Suffix(n)| < maxLength && Numbered(token, n, maxLength, "p") !in reserved + known;
      ShortTryIsCanonical(token, n, maxLength);
    }
  }

  lemma EndsIs(canon: string -> string, tries: nat -> string, reserved: set<string>, known: set<string>)
    ensures Ends(canon, tries, reserved, known) <==>
            exists n: nat :: n >= 1 && tries(n) !in reserved && canon(tries(n)) !in known
  {
  }

  /** The search ends exactly when it can. */
  lemma SearchEndsIff(token: string, maxLength: nat, reserved: set<string>, known: set<string>)
    requires IsSlug(token) && 0 < |token| <= maxLength
    ensures Ends(Canonizer(maxLength), Tries(token, maxLength), reserved, known) <==>
            CanEnd(token, maxLength, reserved, known)
  {
    EndsIs(Canonizer(maxLength), Tries(token, maxLength), reserved, known);
    if CanEnd(token, maxLength, reserved, known) {
      var n := CanEndMeansEnd(token, maxLength, reserved, known);
      assert Tries(token, maxLength)(n) !in reserved;
    }
    if Ends(Canonizer(maxLength), Tries(token, maxLength), reserved, known) {
      var n: nat :| n >= 1 && Tries(token, maxLength)(n) !in reserved
                    && Canonizer(maxLength)(Tries(token, maxLength)(n)) !in known;
      EndMeansCanEnd(token, maxLength, reserved, known, n);
    }
  }

  /** While the suffix fits, what is tried is a non-empty slug within the limit and canonical. */
  lemma TryIsCanonical(token: string, n: nat, bound: nat, maxLength: nat)
    requires IsSlug(token) && 0 < |token| <= maxLength && n <= bound && |Suffix(bound)| < maxLength
    ensures var slug := Tried(token, maxLength, n);
      IsSlug(slug) && 0 < |slug| <= maxLength && CanonicalTry(token, maxLength, n) == slug
  {
    DecimalLengthGrows(n, bound);
    ShortTryIsCanonical(token, n, maxLength);
    if n >= 2 {
      NumberedIsSlug(token, n, maxLength);
      NumberedFits(token, n, maxLength, "p");
    }
  }

  lemma FirstTryIs(
    canon: string -> string, tries: nat -> string, reserved: set<string>, known: set<string>, n: nat, m: nat)
    requires FirstTry(canon, tries, reserved, known, n)
    requires m >= 1 && tries(m) !in reserved && canon(tries(m)) !in known
    ensures n <= m && (canon(tries(n)) == tries(n) ==> tries(n) !in reserved + known)
  {
  }

  lemma SomeShortTryIsFree(token: string, maxLength: nat, reserved: set<string>, known: set<string>) returns (m: nat)
    requires IsSlug(token) && 0 < |token| <= maxLength && |Suffix(|reserved + known| + 2)| < maxLength
    ensures 2 <= m <= |reserved + known| + 2
    ensures Tried(token, maxLength, m) !in reserved + known && CanonicalTry(token, maxLength, m) !in known
  {
    AlternativesDiffer(token, maxLength, "p");
    m := SomeFree(Alternatives(token, maxLength, "p"), 2, reserved + known);
    TryIsCanonical(token, m, |reserved + known| + 2, maxLength);
  }

  /** When the limit leaves room for as many suffixes as there are names, the search ends within
      that many tries, with a canonical slug within the limit that is in neither set. */
  lemma RoomIsEnough(token: string, maxLength: nat, reserved: set<string>, known: set<string>)
    requires IsSlug(token) && 0 < |token| <= maxLength && |Suffix(|reserved + known| + 2)| < maxLength
    ensures CanEnd(token, maxLength, reserved, known)
    ensures forall n: nat | FirstTry(Canonizer(maxLength), Tries(token, maxLength), reserved, known, n) ::
      var slug := Tried(token, maxLength, n);
      n <= |reserved + known| + 2 && IsSlug(slug) && 0 < |slug| <= maxLength && slug !in reserved + known
  {
    var canon, tries := Canonizer(maxLength), Tries(token, maxLength);
    var m := SomeShortTryIsFree(token, maxLength, reserved, known);
    EndMeansCanEnd(token, maxLength, reserved, known, m);
    forall n: nat | FirstTry(canon, tries, reserved, known, n)
      ensures var slug := Tried(token, maxLength, n);
        n <= |reserved + known| + 2 && IsSlug(slug) && 0 < |slug| <= maxLength && slug !in reserved + known
    {
      FirstTryIs(canon, tries, reserved, known, n, m);
      TryIsCanonical(token, n, |reserved + known| + 2, maxLength);
    }
  }

  // ----- owners --------------------------------------------------------------------------------

  const PROBLEM_ID_MAX_LEN: nat := 64
  const USERNAME_MAX_LEN: nat := 16

  function SafeOwner(owner: string): string { Lower(Strip(owner)) }

  /** `USER_IDENT_RE` of a lower-case name. */
  predicate IsOwner(owner: string) { owner != "" && IsSlug(owner) }

  /** What the full name leaves for the segment. */
  function Room(owner: string): int { PROBLEM_ID_MAX_LEN - |owner| - 1 }

  /** `problem_slug_segment_max_len`. */
  function SegmentMax(owner: string): nat { if Room(owner) < 1 then 1 else Room(owner) }

  lemma CanonicalTryFits(token: string, maxLength: nat, n: nat)
    requires IsSlug(token) && 0 < |token| <= maxLength
    ensures 0 < |CanonicalTry(token, maxLength, n)| <= maxLength
  {
    if n >= 2 {
      NumberedIsSlug(token, n, maxLength);
    }
    SlugifySlug(Tried(token, maxLength, n), maxLength);
    CutIs(Tried(token, maxLength, n), maxLength);
  }

  /** Whether full names fit depends on the owner alone. */
  lemma OwnerDecides(owner: string, token: string)
    requires IsSlug(token) && 0 < |token| <= SegmentMax(owner)
    ensures var canon, tries := Canonizer(SegmentMax(owner)), Tries(token, SegmentMax(owner));
      if Room(owner) >= 1 then AllFit(canon, tries, Room(owner)) else NoneFit(canon, tries, Room(owner))
  {
    var max := SegmentMax(owner);
    forall n: nat | 1 <= n
      ensures Refused(Canonizer(max)(Tries(token, max)(n)), Room(owner)) <==> Room(owner) < 1
    {
      CanonicalTryFits(token, max, n);
    }
  }

  /** Without a lookup every search ends. */
  lemma EndsUnlooked(token: string, maxLength: nat, reserved: set<string>)
    requires IsSlug(token) && 0 < |token| <= maxLength
    ensures Ends(Canonizer(maxLength), Tries(token, maxLength), reserved, {})
  {
    AlternativesDiffer(token, maxLength, "p");
    var n := SomeFree(Alternatives(token, maxLength, "p"), 2, reserved);
    assert !Clashes(Canonizer(maxLength), Tries(token, maxLength)(n), reserved, {});
  }

  /** The first name tried for the owner that is not reserved and whose canonical form is not known. */
  ghost predicate IsNext(owner: string, token: string, reserved: set<string>, known: set<string>, slug: string) {
    var canon, tries := Canonizer(SegmentMax(owner)), Tries(token, SegmentMax(owner));
    exists n: nat :: FirstTry(canon, tries, reserved, known, n) && slug == tries(n)
  }

  /** The search for a canonical base: absent exactly when the owner leaves no room. */
  method NextFromToken(owner: string, token: string, reserved: set<string>, known: set<string>)
    returns (slug: Option<string>)
    requires IsSlug(token) && 0 < |token| <= SegmentMax(owner)
    requires Room(owner) >= 1 ==> CanEnd(token, SegmentMax(owner), reserved, known)
    ensures slug.None? <==> Room(owner) < 1
    ensures slug.Some? ==> IsNext(owner, token, reserved, known, slug.value)
  {
    var canon, tries := Canonizer(SegmentMax(owner)), Tries(token, SegmentMax(owner));
    OwnerDecides(owner, token);
    if Room(owner) >= 1 {
      SearchEndsIff(token, SegmentMax(owner), reserved, known);
    } else {
      EndsUnlooked(token, SegmentMax(owner), reserved);
      assert Refused(canon(tries(1)), Room(owner));
    }
    slug := SearchProblemSlug(canon, tries, Room(owner), reserved, known);
  }

  function OwnedToken(owner: string, base: string): string {
    ProblemToken(base, SegmentMax(SafeOwner(owner)))
  }

  lemma OwnedTokenIs(owner: string, base: string)
    ensures IsSlug(OwnedToken(owner, base)) && |OwnedToken(owner, base)| <= SegmentMax(SafeOwner(owner))
  {
    SlugifyIs(ProblemBase(base), SegmentMax(SafeOwner(owner)));
  }

  lemma DefaultNameIsSlug()
    ensures IsSlug("imported-problem") && |"imported-problem"| == 16
  {
    var s := "imported-problem";
    assert s[8] == '-' && forall i | 0 <= i < 16 && i != 8 :: IsLower(s[i]);
    forall i | 0 <= i < |s| ensures JointAt(s, i) {
    }
  }

  /** The base of the search: the words of the given name, or a default for a blank name. */
  lemma ProblemTokenIs(base: string, maxLength: nat)
    ensures Strip(base) == "" && maxLength >= 16 ==> ProblemToken(base, maxLength) == "imported-problem"
    ensures Strip(base) != "" ==> ProblemToken(base, maxLength) == Cut(SlugOnePass.Words(base), maxLength)
  {
    if Strip(base) == "" {
      DefaultNameIsSlug();
      SlugifySlug("imported-problem", maxLength);
      CutIs("imported-problem", maxLength);
    } else {
      SlugOnePass.SlugifyIsOnePass(Strip(base), maxLength);
      SlugOnePass.SkipAround(base, IsSpace);
    }
  }

  /** The call refuses the owner, the base or every full name. */
  predicate Refuses(owner: string, base: string) {
    !IsOwner(SafeOwner(owner)) || OwnedToken(owner, base) == "" || Room(SafeOwner(owner)) < 1
  }

  /** `_next_available_problem_slug`, wherever its search ends. Absent when it raises: the owner is
      not a user name or leaves no room, or the base has no canonical form. `known` are the segments
      of the owner's problems. */
  method NextAvailableProblemSlug(owner: string, base: string, reserved: set<string>, known: set<string>)
    returns (slug: Option<string>)
    requires Refuses(owner, base) || CanEnd(OwnedToken(owner, base), SegmentMax(SafeOwner(owner)), reserved, known)
    ensures slug.None? <==> Refuses(owner, base)
    ensures slug.Some? ==> IsNext(SafeOwner(owner), OwnedToken(owner, base), reserved, known, slug.value)
  {
    var safeOwner := SafeOwner(owner);
    if !IsOwner(safeOwner) {
      return None;
    }
    var token := OwnedToken(owner, base);
    OwnedTokenIs(owner, base);
    if token == "" {
      return None;
    }
    slug := NextFromToken(safeOwner, token, reserved, known);
  }

  /** For every owner the user-name rule admits, the search ends among any names whose count is
      written with at most 45 digits, with a slug in neither set whose full name fits. */
  lemma UserSearchEnds(owner: string, token: string, reserved: set<string>, known: set<string>)
    requires IsOwner(owner) && |owner| <= USERNAME_MAX_LEN
    requires IsSlug(token) && 0 < |token| <= SegmentMax(owner)
    requires |Suffix(|reserved + known| + 2)| <= 46
    ensures SegmentMax(owner) >= 47 && CanEnd(token, SegmentMax(owner), reserved, known)
    ensures forall slug | IsNext(owner, token, reserved, known, slug) ::
      && IsSlug(slug) && slug !in reserved + known
      && 0 < |slug| && |owner| + 1 + |slug| <= PROBLEM_ID_MAX_LEN
  {
    RoomIsEnough(token, SegmentMax(owner), reserved, known);
  }

  /** The search can go on forever, for an owner of 61 or 62 characters: with known problems named
      like the base and its first character, every alternative clashes. */
  lemma LongOwnerNeverEnds(owner: string, token: string, known: set<string>)
    requires IsOwner(owner) && 61 <= |owner| <= 62
    requires IsSlug(token) && 0 < |token| <= SegmentMax(owner) && token in known && token[..1] in known
    ensures !Ends(Canonizer(SegmentMax(owner)), Tries(token, SegmentMax(owner)), {}, known)
  {
    SearchEndsIff(token, SegmentMax(owner), {}, known);
    assert {} + known == known;
    forall i: nat ensures |Suffix(i)| >= 2 {
    }
  }
}
