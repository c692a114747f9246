/** The flash normaliser against a one-pass reference: reading the message character by character and
    keeping its lines. */
module FlashOnePass {
  import opened Text
  import opened FlashQueue

  /** The lines kept so far, the current line up to its last solid character, and the white space
      after it. */
  datatype Reader = Reader(lines: seq<string>, line: string, gap: string)

  const START: Reader := Reader([], "", "")

  /** A line break keeps the line unless it is empty and forgets the white space before it. */
  function EndLine(st: Reader): Reader {
    Reader(if st.line == "" then st.lines else st.lines + [st.line], "", "")
  }

  /** White space counts between solid characters only, and a run of blanks counts once. */
  function Feed(st: Reader, c: char): Reader {
    if c == '\r' || c == '\n' then EndLine(st)
    else if !IsSpace(c) then Reader(st.lines, st.line + st.gap + [c], "")
    else if st.line == "" then st
    else if IsBlank(c) then
      if st.gap != "" && st.gap[|st.gap| - 1] == ' ' then st else st.(gap := st.gap + " ")
    else st.(gap := st.gap + [c])
  }

  function Read(st: Reader, s: string): Reader
    decreases |s|
  {
    if s == "" then st else Read(Feed(st, s[0]), s[1..])
  }

  /** The lines a message is to show. */
  function KeptLines(raw: string): seq<string> {
    EndLine(Read(START, raw)).lines
  }

  lemma {:induction false} ReadConcat(st: Reader, a: string, b: string)
    ensures Read(st, a + b) == Read(Read(st, a), b)
    decreases |a|
  {
    if a == "" {
      assert a + b == b;
    } else {
      assert (a + b)[0] == a[0] && (a + b)[1..] == a[1..] + b;
      ReadConcat(Feed(st, a[0]), a[1..], b);
    }
  }

  lemma ReadOne(st: Reader, c: char)
    ensures Read(st, [c]) == Feed(st, c)
  {
    assert [c][1..] == "";
  }

  // ----- the steps of the cleanup ----------------------------------------------------------------

  lemma {:induction false} ReadJoinCrLf(st: Reader, s: string)
    ensures Read(st, JoinCrLf(s)) == Read(st, s)
    decreases |s|
  {
    if s == "" {
    } else if |s| >= 2 && s[0] == '\r' && s[1] == '\n' {
      var rest := JoinCrLf(s[2..]);
      assert JoinCrLf(s) == "\n" + rest && ("\n" + rest)[1..] == rest;
      assert s[1..][1..] == s[2..];
      ReadJoinCrLf(Feed(st, '\n'), s[2..]);
    } else {
      var rest := JoinCrLf(s[1..]);
      assert JoinCrLf(s) == [s[0]] + rest && ([s[0]] + rest)[1..] == rest;
      ReadJoinCrLf(Feed(st, s[0]), s[1..]);
    }
  }

  lemma {:induction false} ReadReplaced(st: Reader, s: string)
    ensures Read(st, ReplaceChar(s, '\r', "\n")) == Read(st, s)
    decreases |s|
  {
    if s != "" {
      var c := if s[0] == '\r' then '\n' else s[0];
      var rest := ReplaceChar(s[1..], '\r', "\n");
      assert ReplaceChar(s, '\r', "\n") == [c] + rest && ([c] + rest)[1..] == rest;
      ReadReplaced(Feed(st, s[0]), s[1..]);
    }
  }

  lemma ReadCons(st: Reader, c: char, rest: string)
    ensures Read(st, [c] + rest) == Read(Feed(st, c), rest)
  {
    assert ([c] + rest)[1..] == rest;
  }

  /** All blanks read alike, and two like one. */
  lemma FeedBlank(st: Reader, c: char)
    requires IsBlank(c)
    ensures Feed(st, c) == Feed(st, ' ') && Feed(Feed(st, ' '), ' ') == Feed(st, ' ')
  {
  }

  lemma {:induction false} ReadCollapsed(st: Reader, s: string)
    ensures Read(st, CollapseBlanks(s)) == Read(st, s)
    decreases |s|
  {
    if s == "" {
    } else if IsBlank(s[0]) {
      FeedBlank(st, s[0]);
      var next := Feed(st, ' ');
      var tail := TrimStart(s[1..], IsBlank);
      ReadCollapsed(next, tail);
      SkipBlanks(next, s[1..]);
      ReadCons(st, ' ', CollapseBlanks(tail));
    } else {
      ReadCollapsed(Feed(st, s[0]), s[1..]);
      ReadCons(st, s[0], CollapseBlanks(s[1..]));
    }
  }

  /** After a blank further blanks change nothing. */
  lemma {:induction false} SkipBlanks(st: Reader, s: string)
    requires Feed(st, ' ') == st
    ensures Read(st, TrimStart(s, IsBlank)) == Read(st, s)
    decreases |s|
  {
    if s != "" && IsBlank(s[0]) {
      FeedBlank(st, s[0]);
      SkipBlanks(st, s[1..]);
    }
  }

  predicate AtLineStart(st: Reader) { st.line == "" && st.gap == "" }

  /** At the start of a line white space changes nothing. */
  lemma {:induction false} SkipLeading(st: Reader, s: string)
    requires AtLineStart(st)
    ensures Read(st, TrimStart(s, IsSpace)) == Read(st, s)
    decreases |s|
  {
    if s != "" && IsSpace(s[0]) {
      assert Feed(st, s[0]) == st;
      SkipLeading(st, s[1..]);
    }
  }

  /** Before the end of a line white space changes nothing. */
  lemma {:induction false} SkipTrailing(st: Reader, s: string)
    ensures EndLine(Read(st, TrimEnd(s, IsSpace))) == EndLine(Read(st, s))
    decreases |s|
  {
    if s != "" && IsSpace(s[|s| - 1]) {
      var n := |s| - 1;
      SkipTrailing(st, s[..n]);
      assert s == s[..n] + [s[n]];
      ReadConcat(st, s[..n], [s[n]]);
      ReadOne(Read(st, s[..n]), s[n]);
    }
  }

  lemma SkipAround(st: Reader, s: string)
    requires AtLineStart(st)
    ensures EndLine(Read(st, Strip(s))) == EndLine(Read(st, s))
  {
    SkipLeading(st, s);
    SkipTrailing(st, TrimStart(s, IsSpace));
  }

  // ----- line by line ----------------------------------------------------------------------------

  function ReadLines(st: Reader, lines: seq<string>): Reader
    decreases |lines|
  {
    if lines == [] then st else ReadLines(EndLine(Read(st, lines[0])), lines[1..])
  }

  lemma {:induction false} UnlinesReads(st: Reader, lines: seq<string>)
    requires AtLineStart(st)
    ensures EndLine(Read(st, Unlines(lines))) == ReadLines(st, lines)
    decreases |lines|
  {
    if |lines| > 1 {
      var rest := Unlines(lines[1..]);
      assert Unlines(lines) == lines[0] + ("\n" + rest);
      ReadConcat(st, lines[0], "\n" + rest);
      assert ("\n" + rest)[1..] == rest;
      UnlinesReads(EndLine(Read(st, lines[0])), lines[1..]);
    }
  }

  lemma {:induction false} LinesJoin(s: string)
    ensures Unlines(Lines(s)) == s && Lines(s) != []
    decreases |s|
  {
    var k := FirstNewline(s);
    if k < |s| {
      LinesJoin(s[k + 1..]);
      Rejoin(s, k);
    }
  }

  lemma {:induction false} CleanLinesRead(st: Reader, lines: seq<string>)
    requires AtLineStart(st)
    ensures ReadLines(st, CleanLines(lines)) == ReadLines(st, lines)
    decreases |lines|
  {
    if lines != [] {
      var clean := CleanLine(lines[0]);
      ReadCollapsed(st, lines[0]);
      SkipAround(st, CollapseBlanks(lines[0]));
      var next := EndLine(Read(st, lines[0]));
      assert EndLine(Read(st, clean)) == next;
      CleanLinesRead(next, lines[1..]);
      if clean != "" {
        assert ([clean] + CleanLines(lines[1..]))[1..] == CleanLines(lines[1..]);
      } else {
        assert next == st;
        assert CleanLines(lines) == CleanLines(lines[1..]);
      }
    }
  }

  /** The cleanup keeps what the reader keeps. */
  lemma CleanupKeepsLines(raw: string)
    ensures KeptLines(Cleanup(raw)) == KeptLines(raw)
  {
    var joined := JoinCrLf(raw);
    var broken := ReplaceChar(joined, '\r', "\n");
    ReadJoinCrLf(START, raw);
    ReadReplaced(START, joined);
    SkipAround(START, broken);
    var text := Strip(broken);
    if text != "" {
      var lines := Lines(text);
      LinesJoin(text);
      UnlinesReads(START, lines);
      CleanLinesRead(START, lines);
      UnlinesReads(START, CleanLines(lines));
      SkipAround(START, Unlines(CleanLines(lines)));
    }
  }

  // ----- clean text is what it keeps ---------------------------------------------------------------

  /** The text read so far, when nothing of it was dropped. */
  function Shown(st: Reader): string { Unlines(st.lines + [st.line + st.gap]) }

  lemma {:induction false} UnlinesLast(lines: seq<string>, x: string, y: string)
    ensures Unlines(lines + [x + y]) == Unlines(lines + [x]) + y
    ensures Unlines(lines + [x] + [""]) == Unlines(lines + [x]) + "\n"
    decreases |lines|
  {
    if lines == [] {
      assert [x] + [""] == [x, ""] && [x, ""][1..] == [""];
    } else {
      UnlinesLast(lines[1..], x, y);
      var l := lines[0];
      assert (lines + [x + y])[1..] == lines[1..] + [x + y];
      assert (lines + [x])[1..] == lines[1..] + [x];
      assert (lines + [x] + [""])[1..] == lines[1..] + [x] + [""];
    }
  }

  /** `st` has read the text `done` and dropped nothing. */
  predicate Faithful(st: Reader, done: string) {
    && Shown(st) == done
    && (AtLineStart(st) <==> done == "" || done[|done| - 1] == '\n')
    && (st.line == "" ==> st.gap == "")
    && (st.gap != "" ==> done != "" && st.gap[|st.gap| - 1] == done[|done| - 1])
    && (st.gap != "" <==> done != "" && done[|done| - 1] != '\n' && IsSpace(done[|done| - 1]))
  }

  lemma FeedIsFaithful(st: Reader, done: string, c: char)
    requires Faithful(st, done) && c != '\r' && c != '\t'
    requires if done == "" then !IsSpace(c) else GoodPair(done[|done| - 1], c)
    ensures Faithful(Feed(st, c), done + [c])
  {
    if c == '\n' {
      UnlinesLast(st.lines, st.line, "");
      assert st.line + st.gap == st.line && st.line + "" == st.line && "" + "" == "";
    } else if !IsSpace(c) {
      UnlinesLast(st.lines, st.line + st.gap, [c]);
      assert st.line + st.gap + [c] + "" == st.line + st.gap + [c];
    } else {
      UnlinesLast(st.lines, st.line + st.gap, [c]);
      assert st.line + (st.gap + [c]) == st.line + st.gap + [c];
    }
  }

  lemma {:induction false} ReadIsFaithful(s: string, n: nat)
    requires GoodPairs(s) && NoTabs(s) && n <= |s| && (s != "" ==> !IsSpace(s[0]))
    ensures Faithful(Read(START, s[..n]), s[..n])
    decreases n
  {
    if n > 0 {
      ReadIsFaithful(s, n - 1);
      assert s[..n] == s[..n - 1] + [s[n - 1]];
      ReadConcat(START, s[..n - 1], [s[n - 1]]);
      ReadOne(Read(START, s[..n - 1]), s[n - 1]);
      assert n > 1 ==> PairAt(s, n - 2) && s[..n - 1][n - 2] == s[n - 2];
      FeedIsFaithful(Read(START, s[..n - 1]), s[..n - 1], s[n - 1]);
    }
  }

  lemma CleanIsKept(s: string)
    requires Clean(s)
    ensures Unlines(KeptLines(s)) == s
  {
    ReadIsFaithful(s, |s|);
    assert s[..|s|] == s;
    var st := Read(START, s);
    assert st.line + "" == st.line;
    if s == "" {
      assert st == START;
    }
  }

  /** The cleanup is the one-pass reader: its lines, joined by newlines. */
  lemma CleanupIsOnePass(raw: string)
    ensures Cleanup(raw) == Unlines(KeptLines(raw))
  {
    CleanupCleans(raw);
    CleanIsKept(Cleanup(raw));
    CleanupKeepsLines(raw);
  }

  /** The kept lines with a period after a final letter, digit or closing parenthesis. */
  function Sentence(raw: string): string {
    var text := Unlines(KeptLines(raw));
    if text != "" && var c := text[|text| - 1]; 'a' <= c <= 'z' || 'A' <= c <= 'Z' || '0' <= c <= '9' || c == ')'
    then text + "." else text
  }

  /** `r` is `full` when that fits, and otherwise its longest prefix within the limit that does not end
      in white space. */
  predicate IsCut(full: string, maxLength: nat, r: string) {
    if |full| <= maxLength then r == full
    else r <= full && |r| <= maxLength && (r != "" ==> !IsSpace(r[|r| - 1]))
         && forall i | |r| <= i < maxLength :: IsSpace(full[i])
  }

  lemma TruncateIsCut(full: string, maxLength: nat)
    ensures IsCut(full, maxLength, Truncate(full, maxLength))
  {
    if |full| > maxLength {
      var cut := full[..maxLength];
      var r := Rstrip(cut);
      forall i | |r| <= i < maxLength ensures IsSpace(full[i]) {
        assert IsSpace(cut[i]);
      }
    }
  }

  /** A normal form is the sentence, cut at the limit. */
  lemma NormalizeIsOnePass(raw: string, maxLength: nat)
    ensures IsCut(Sentence(raw), maxLength, Normalize(raw, maxLength))
  {
    CleanupIsOnePass(raw);
    assert Punctuate(Cleanup(raw)) == Sentence(raw);
    TruncateIsCut(Sentence(raw), maxLength);
  }
}
