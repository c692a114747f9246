/** Slugs: `_slugify_contest_id` (limit 64) and `slugify_problem_id` (limit per owner). */
module Slugs {
  import opened Text

  predicate IsWordChar(c: char) { IsLower(c) || IsDigit(c) }

  predicate IsDash(c: char) { c == '-' }

  function LowerChar(c: char): char {
    if IsUpper(c) then (c as int - 'A' as int + 'a' as int) as char else c
  }

  function Lower(s: string): (r: string)
    ensures |r| == |s|
  {
    if s == "" then "" else [LowerChar(s[0])] + Lower(s[1..])
  }

  predicate IsOther(c: char) { !IsWordChar(c) }

  /** `re.sub(r"[^a-z0-9]+", "-", s)`. */
  function Dashed(s: string): string
    decreases |s|
  {
    if s == "" then ""
    else if IsOther(s[0]) then "-" + Dashed(TrimStart(s[1..], IsOther))
    else [s[0]] + Dashed(s[1..])
  }

  /** `re.sub(r"-{2,}", "-", s)`. */
  function SingleDashes(s: string): string
    decreases |s|
  {
    if s == "" then ""
    else if s[0] == '-' then "-" + SingleDashes(TrimStart(s[1..], IsDash))
    else [s[0]] + SingleDashes(s[1..])
  }

  function Cut(s: string, maxLength: nat): string {
    TrimEnd(if |s| > maxLength then s[..maxLength] else s, IsDash)
  }

  function Slugify(raw: string, maxLength: nat): string {
    Cut(Trim(SingleDashes(Dashed(Lower(Strip(raw)))), IsDash), maxLength)
  }

  // ----- the shape of a slug -----------------------------------------------------------------

  /** Character `i` may be followed by character `i + 1`. */
  predicate JointAt(s: string, i: int) {
    0 <= i < |s| - 1 ==> !(s[i] == '-' && s[i + 1] == '-')
  }

  predicate Joined(s: string) {
    && (forall i | 0 <= i < |s| :: IsWordChar(s[i]) || s[i] == '-')
    && (forall i | 0 <= i < |s| :: JointAt(s, i))
  }

  /** The empty string, or words of lower-case letters and digits separated by single dashes. */
  predicate IsSlug(s: string) {
    Joined(s) && (s != "" ==> s[0] != '-' && s[|s| - 1] != '-')
  }

  lemma PartIsJoined(s: string, i: nat, j: nat)
    requires Joined(s) && i <= j <= |s|
    ensures Joined(s[i..j])
  {
    forall k | 0 <= k < j - i ensures JointAt(s[i..j], k) {
      assert JointAt(s, i + k);
    }
  }

  lemma PrependJoined(c: char, r: string)
    requires Joined(r) && (IsWordChar(c) || (c == '-' && (r != "" ==> r[0] != '-')))
    ensures Joined([c] + r)
  {
    forall i | 0 <= i <= |r| ensures JointAt([c] + r, i) {
      assert i > 0 ==> JointAt(r, i - 1);
    }
  }

  lemma {:induction false} DashedIs(s: string)
    ensures Joined(Dashed(s)) && (s != "" && IsWordChar(s[0]) ==> Dashed(s) != "" && Dashed(s)[0] != '-')
    ensures s == "" ==> Dashed(s) == ""
    decreases |s|
  {
    if s != "" {
      if IsOther(s[0]) {
        var t := TrimStart(s[1..], IsOther);
        DashedIs(t);
        PrependJoined('-', Dashed(t));
      } else {
        DashedIs(s[1..]);
        PrependJoined(s[0], Dashed(s[1..]));
      }
    }
  }

  /** The second substitution finds nothing left to do. */
  lemma {:induction false} SingleDashesIdle(s: string)
    requires Joined(s)
    ensures SingleDashes(s) == s
    decreases |s|
  {
    if s != "" {
      assert JointAt(s, 0);
      PartIsJoined(s, 1, |s|);
      assert s[1..|s|] == s[1..];
      SingleDashesIdle(s[1..]);
    }
  }

  lemma {:induction false} DashedIdle(s: string)
    requires Joined(s)
    ensures Dashed(s) == s
    decreases |s|
  {
    if s != "" {
      assert JointAt(s, 0);
      PartIsJoined(s, 1, |s|);
      assert s[1..|s|] == s[1..];
      if s[0] == '-' {
        assert TrimStart(s[1..], IsOther) == s[1..];
      }
      DashedIdle(s[1..]);
    }
  }

  lemma {:induction false} LowerIdle(s: string)
    requires Joined(s)
    ensures Lower(s) == s
    decreases |s|
  {
    if s != "" {
      PartIsJoined(s, 1, |s|);
      assert s[1..|s|] == s[1..];
      LowerIdle(s[1..]);
    }
  }

  lemma CutIs(s: string, maxLength: nat)
    requires IsSlug(s)
    ensures IsSlug(Cut(s, maxLength)) && |Cut(s, maxLength)| <= maxLength
    ensures |s| <= maxLength ==> Cut(s, maxLength) == s
    ensures s != "" && maxLength > 0 ==> Cut(s, maxLength) != ""
  {
    var r := Cut(s, maxLength);
    assert r == s[0..|r|];
    PartIsJoined(s, 0, |r|);
  }

  lemma TrimDashesIs(s: string)
    requires Joined(s)
    ensures IsSlug(Trim(s, IsDash))
  {
    var i, j := TrimIsPart(s, IsDash);
    PartIsJoined(s, i, j);
  }

  /** On a slug, slugifying only cuts. */
  lemma SlugifySlug(s: string, maxLength: nat)
    requires IsSlug(s)
    ensures Slugify(s, maxLength) == Cut(s, maxLength)
  {
    if s != "" {
      assert IsWordChar(s[0]) && IsWordChar(s[|s| - 1]);
      assert !IsSpace(s[0]) && !IsSpace(s[|s| - 1]);
    }
    assert Strip(s) == s;
    LowerIdle(s);
    DashedIdle(s);
    SingleDashesIdle(s);
    assert Trim(s, IsDash) == s;
  }

  /** Every result is a slug within the limit, and slugifying again changes nothing. */
  lemma SlugifyIs(raw: string, maxLength: nat)
    ensures IsSlug(Slugify(raw, maxLength)) && |Slugify(raw, maxLength)| <= maxLength
    ensures Slugify(Slugify(raw, maxLength), maxLength) == Slugify(raw, maxLength)
  {
    var d := Dashed(Lower(Strip(raw)));
    DashedIs(Lower(Strip(raw)));
    SingleDashesIdle(d);
    TrimDashesIs(d);
    CutIs(Trim(d, IsDash), maxLength);
    var r := Slugify(raw, maxLength);
    SlugifySlug(r, maxLength);
    CutIs(r, maxLength);
  }
}
