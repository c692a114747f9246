/** Slugs against a one-pass reference: the words of a text, lower-cased and joined by dashes. */
module SlugOnePass {
  import opened Text
  import opened Slugs

  /** What has been written, and whether something other than a letter or digit came since. */
  datatype Reader = Reader(out: string, gap: bool)

  const START: Reader := Reader("", false)

  function Write(st: Reader, c: char): Reader {
    Reader(st.out + (if st.gap then "-" else "") + [c], false)
  }

  /** Letters and digits are written in lower case; anything else separates words. */
  function Feed(st: Reader, c: char): Reader {
    if 'a' <= c <= 'z' || '0' <= c <= '9' then Write(st, c)
    else if 'A' <= c <= 'Z' then Write(st, (c as int + 32) as char)
    else st.(gap := st.out != "")
  }

  function Read(st: Reader, s: string): Reader
    decreases |s|
  {
    if s == "" then st else Read(Feed(st, s[0]), s[1..])
  }

  /** The words of a text, joined by dashes. */
  function Words(raw: string): string { Read(START, raw).out }

  lemma ReadCons(st: Reader, c: char, rest: string)
    ensures Read(st, [c] + rest) == Read(Feed(st, c), rest)
  {
    assert ([c] + rest)[1..] == rest;
  }

  lemma {:induction false} ReadSnoc(st: Reader, s: string, c: char)
    ensures Read(st, s + [c]) == Feed(Read(st, s), c)
    decreases |s|
  {
    if s == "" {
      assert s + [c] == [c] && [c][1..] == "";
    } else {
      assert (s + [c])[0] == s[0] && (s + [c])[1..] == s[1..] + [c];
      ReadSnoc(Feed(st, s[0]), s[1..], c);
    }
  }

  // ----- the steps of the slugifier --------------------------------------------------------------

  predicate Separates(c: char) { !IsAlnum(c) }

  lemma {:induction false} ReadLower(st: Reader, s: string)
    ensures Read(st, Lower(s)) == Read(st, s)
    decreases |s|
  {
    if s != "" {
      ReadLower(Feed(st, s[0]), s[1..]);
      ReadCons(st, LowerChar(s[0]), Lower(s[1..]));
    }
  }

  lemma {:induction false} LowerHasNoUpper(s: string)
    ensures forall i | 0 <= i < |s| :: !IsUpper(Lower(s)[i])
    decreases |s|
  {
    if s != "" {
      LowerHasNoUpper(s[1..]);
    }
  }

  lemma {:induction false} SkipLeading(st: Reader, s: string, p: char -> bool)
    requires Feed(st, '-') == st && forall c | p(c) :: Separates(c)
    ensures Read(st, TrimStart(s, p)) == Read(st, s)
    decreases |s|
  {
    if s != "" && p(s[0]) {
      assert Feed(st, s[0]) == st;
      SkipLeading(st, s[1..], p);
    }
  }

  lemma {:induction false} SkipTrailing(st: Reader, s: string, p: char -> bool)
    requires forall c | p(c) :: Separates(c)
    ensures Read(st, TrimEnd(s, p)).out == Read(st, s).out
    decreases |s|
  {
    if s != "" && p(s[|s| - 1]) {
      var n := |s| - 1;
      SkipTrailing(st, s[..n], p);
      assert s == s[..n] + [s[n]];
      ReadSnoc(st, s[..n], s[n]);
    }
  }

  lemma SkipAround(s: string, p: char -> bool)
    requires forall c | p(c) :: Separates(c)
    ensures Words(Trim(s, p)) == Words(s)
  {
    SkipLeading(START, s, p);
    SkipTrailing(START, TrimStart(s, p), p);
  }

  predicate NoUpper(s: string) { forall i | 0 <= i < |s| :: !IsUpper(s[i]) }

  lemma {:induction false} SkipOthers(st: Reader, s: string)
    requires Feed(st, '-') == st && NoUpper(s)
    ensures Read(st, TrimStart(s, IsOther)) == Read(st, s)
    decreases |s|
  {
    if s != "" && IsOther(s[0]) {
      assert Feed(st, s[0]) == st;
      SkipOthers(st, s[1..]);
    }
  }

  lemma {:induction false} ReadDashed(st: Reader, s: string)
    requires NoUpper(s)
    ensures Read(st, Dashed(s)) == Read(st, s)
    decreases |s|
  {
    if s == "" {
    } else if IsOther(s[0]) {
      var tail := TrimStart(s[1..], IsOther);
      var next := Feed(st, '-');
      assert next == Feed(st, s[0]) && Feed(next, '-') == next;
      ReadDashed(next, tail);
      SkipOthers(next, s[1..]);
      ReadCons(st, '-', Dashed(tail));
    } else {
      ReadDashed(Feed(st, s[0]), s[1..]);
      ReadCons(st, s[0], Dashed(s[1..]));
    }
  }

  // ----- a slug is its own words -------------------------------------------------------------------

  lemma {:induction false} ReadSlug(s: string, n: nat)
    requires IsSlug(s) && n <= |s|
    ensures Read(START, s[..n]) ==
            if n > 0 && s[n - 1] == '-' then Reader(s[..n - 1], true) else Reader(s[..n], false)
    decreases n
  {
    if n > 0 {
      ReadSlug(s, n - 1);
      assert s[..n] == s[..n - 1] + [s[n - 1]];
      ReadSnoc(START, s[..n - 1], s[n - 1]);
      assert n > 1 ==> JointAt(s, n - 2) && s[..n - 1] == s[..n - 2] + [s[n - 2]];
    }
  }

  lemma SlugIsItsWords(s: string)
    requires IsSlug(s)
    ensures Words(s) == s
  {
    ReadSlug(s, |s|);
    assert s[..|s|] == s;
  }

  lemma DashedKeepsWords(raw: string)
    ensures Words(Dashed(Lower(Strip(raw)))) == Words(raw)
  {
    SkipAround(raw, IsSpace);
    ReadLower(START, Strip(raw));
    LowerHasNoUpper(Strip(raw));
    ReadDashed(START, Lower(Strip(raw)));
  }

  lemma SkipDashes(s: string)
    ensures Words(Trim(s, IsDash)) == Words(s)
  {
    SkipAround(s, IsDash);
  }

  lemma TrimmedIsWords(dashed: string, slug: string)
    requires IsSlug(slug) && Words(slug) == Words(dashed)
    ensures slug == Words(dashed)
  {
    SlugIsItsWords(slug);
  }

  lemma JoinedTrimsToWords(dashed: string)
    requires Joined(dashed)
    ensures Trim(dashed, IsDash) == Words(dashed)
  {
    TrimDashesIs(dashed);
    SkipDashes(dashed);
    TrimmedIsWords(dashed, Trim(dashed, IsDash));
  }

  /** Slugifying writes the words of the text, lower-cased and joined by dashes, cut at the limit. */
  lemma SlugifyIsOnePass(raw: string, maxLength: nat)
    ensures Slugify(raw, maxLength) == Cut(Words(raw), maxLength)
  {
    DashedIs(Lower(Strip(raw)));
    SingleDashesIdle(Dashed(Lower(Strip(raw))));
    JoinedTrimsToWords(Dashed(Lower(Strip(raw))));
    DashedKeepsWords(raw);
  }

  /** The cut leaves the longest prefix within the limit that does not end in a dash. */
  lemma CutIsLongest(s: string, maxLength: nat, h: string)
    ensures var r := Cut(s, maxLength);
      && r <= s && |r| <= maxLength && (r != "" ==> r[|r| - 1] != '-')
      && (h <= s && |h| <= maxLength && (h != "" ==> h[|h| - 1] != '-') ==> |h| <= |r|)
  {
    var part := if |s| > maxLength then s[..maxLength] else s;
    var r := TrimEnd(part, IsDash);
    if h <= s && 0 < |h| <= maxLength {
      assert part[|h| - 1] == h[|h| - 1];
    }
  }
}
