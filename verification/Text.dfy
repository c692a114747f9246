/** The Python text operations the program uses. */
module Text {
  /** Characters `str.strip` removes. */
  predicate IsSpace(c: char) {
    || '\t' <= c <= '\r' || '\U{1c}' <= c <= ' ' || c == '\U{85}' || c == '\U{a0}' || c == '\U{1680}'
    || '\U{2000}' <= c <= '\U{200a}' || c == '\U{2028}' || c == '\U{2029}' || c == '\U{202f}'
    || c == '\U{205f}' || c == '\U{3000}'
  }

  predicate IsLower(c: char) { 'a' <= c <= 'z' }
  predicate IsUpper(c: char) { 'A' <= c <= 'Z' }
  predicate IsDigit(c: char) { '0' <= c <= '9' }
  predicate IsAlnum(c: char) { IsLower(c) || IsUpper(c) || IsDigit(c) }

  /** Removes the trailing characters satisfying `p`. */
  function TrimEnd(s: string, p: char -> bool): (r: string)
    ensures r <= s
    ensures r != "" ==> !p(r[|r| - 1])
    ensures forall i | |r| <= i < |s| :: p(s[i])
  {
    if s == "" || !p(s[|s| - 1]) then s else TrimEnd(s[..|s| - 1], p)
  }

  /** Removes the leading characters satisfying `p`. */
  function TrimStart(s: string, p: char -> bool): (r: string)
    ensures |r| <= |s| && r == s[|s| - |r|..]
    ensures r != "" ==> !p(r[0])
  {
    if s == "" || !p(s[0]) then s else TrimStart(s[1..], p)
  }

  function Trim(s: string, p: char -> bool): (r: string)
    ensures r != "" ==> !p(r[0]) && !p(r[|r| - 1])
    ensures s != "" && !p(s[0]) && !p(s[|s| - 1]) ==> r == s
    ensures s == "" ==> r == ""
  {
    TrimEnd(TrimStart(s, p), p)
  }

  /** `str.strip()`. */
  function Strip(s: string): string { Trim(s, IsSpace) }

  /** `str.rstrip()`. */
  function Rstrip(s: string): string { TrimEnd(s, IsSpace) }

  /** Trimming leaves a contiguous part. */
  lemma TrimIsPart(s: string, p: char -> bool) returns (i: nat, j: nat)
    ensures i <= j <= |s| && Trim(s, p) == s[i..j]
  {
    var a := TrimStart(s, p);
    var r := TrimEnd(a, p);
    i := |s| - |a|;
    j := i + |r|;
    assert a == s[i..];
    assert r == a[..|r|] == s[i..j];
  }

  /** `str.replace` of one character. */
  function ReplaceChar(s: string, c: char, image: string): string {
    if s == "" then "" else (if s[0] == c then image else [s[0]]) + ReplaceChar(s[1..], c, image)
  }

  lemma {:induction false} ReplaceAbsent(s: string, c: char, image: string)
    requires c !in s
    ensures ReplaceChar(s, c, image) == s
    decreases |s|
  {
    if s != "" {
      ReplaceAbsent(s[1..], c, image);
    }
  }
}
