/** Flash messages: the normaliser and the cookie queue. The JSON and base64 layers of the cookie
    are taken as an exact transport of a non-empty list of strings. */
module FlashQueue {
  import opened Text
  import opened Wrappers

  // ----- the normaliser ----------------------------------------------------------------------

  /** `text.replace("\r\n", "\n")`. */
  function JoinCrLf(s: string): string
    decreases |s|
  {
    if s == "" then ""
    else if |s| >= 2 && s[0] == '\r' && s[1] == '\n' then "\n" + JoinCrLf(s[2..])
    else [s[0]] + JoinCrLf(s[1..])
  }

  function FirstNewline(s: string): (k: nat)
    ensures k <= |s| && (k < |s| ==> s[k] == '\n')
    ensures forall i | 0 <= i < k :: s[i] != '\n'
  {
    if s == "" || s[0] == '\n' then 0 else 1 + FirstNewline(s[1..])
  }

  /** `text.split("\n")`. */
  function Lines(s: string): seq<string>
    decreases |s|
  {
    var k := FirstNewline(s);
    if k == |s| then [s] else [s[..k]] + Lines(s[k + 1..])
  }

  /** `"\n".join(lines)`. */
  function Unlines(lines: seq<string>): string {
    if lines == [] then ""
    else if |lines| == 1 then lines[0]
    else lines[0] + "\n" + Unlines(lines[1..])
  }

  predicate IsBlank(c: char) { c == ' ' || c == '\t' }

  /** `re.sub(r"[ \t]+", " ", line)`. */
  function CollapseBlanks(s: string): string
    decreases |s|
  {
    if s == "" then ""
    else if IsBlank(s[0]) then " " + CollapseBlanks(TrimStart(s[1..], IsBlank))
    else [s[0]] + CollapseBlanks(s[1..])
  }

  function CleanLine(s: string): string { Strip(CollapseBlanks(s)) }

  /** The cleaned lines that are not empty. */
  function CleanLines(lines: seq<string>): seq<string> {
    if lines == [] then []
    else (if CleanLine(lines[0]) == "" then [] else [CleanLine(lines[0])]) + CleanLines(lines[1..])
  }

  /** Everything up to the final punctuation. */
  function Cleanup(raw: string): string {
    var text := Strip(ReplaceChar(JoinCrLf(raw), '\r', "\n"));
    if text == "" then "" else Strip(Unlines(CleanLines(Lines(text))))
  }

  predicate WantsPeriod(text: string) {
    text != "" && (IsAlnum(text[|text| - 1]) || text[|text| - 1] == ')')
  }

  function Punctuate(text: string): string {
    if WantsPeriod(text) then text + "." else text
  }

  function Truncate(text: string, maxLength: nat): string {
    if |text| > maxLength then Rstrip(text[..maxLength]) else text
  }

  /** `_normalize_flash_message` for a configured maximum length. */
  function Normalize(raw: string, maxLength: nat): string {
    Truncate(Punctuate(Cleanup(raw)), maxLength)
  }

  // ----- clean text --------------------------------------------------------------------------

  predicate GoodPair(a: char, b: char) {
    && !(a == ' ' && b == ' ')
    && (a == '\n' ==> !IsSpace(b))
    && (b == '\n' ==> !IsSpace(a))
  }

  predicate PairAt(s: string, i: int) {
    0 <= i < |s| - 1 ==> GoodPair(s[i], s[i + 1])
  }

  predicate GoodPairs(s: string) {
    forall i | 0 <= i < |s| :: PairAt(s, i)
  }

  predicate NoTabs(s: string) { '\r' !in s && '\t' !in s }

  predicate SolidEnds(s: string) { s != "" ==> !IsSpace(s[0]) && !IsSpace(s[|s| - 1]) }

  /** What the normaliser leaves: no blank runs, no tabs, and white space only strictly inside lines. */
  predicate Clean(s: string) { GoodPairs(s) && NoTabs(s) && SolidEnds(s) }

  predicate GoodLine(s: string) { s != "" && Clean(s) && '\n' !in s }

  lemma {:induction false} JoinCrLfAbsent(s: string)
    requires '\r' !in s
    ensures JoinCrLf(s) == s
    decreases |s|
  {
    if s != "" {
      JoinCrLfAbsent(s[1..]);
    }
  }

  lemma {:induction false} CollapseGood(s: string)
    requires GoodPairs(s) && NoTabs(s)
    ensures CollapseBlanks(s) == s
    decreases |s|
  {
    if s != "" {
      if IsBlank(s[0]) {
        assert PairAt(s, 0);
        assert TrimStart(s[1..], IsBlank) == s[1..];
      }
      PartIsGood(s, 1, |s|);
      assert s[1..|s|] == s[1..];
      CollapseGood(s[1..]);
    }
  }

  lemma GoodLineStays(s: string)
    requires GoodLine(s)
    ensures CleanLine(s) == s
  {
    CollapseGood(s);
  }

  /** Part of a clean text between two newlines. */
  lemma PartIsGood(s: string, i: nat, j: nat)
    requires GoodPairs(s) && NoTabs(s) && i <= j <= |s|
    ensures GoodPairs(s[i..j]) && NoTabs(s[i..j])
  {
    forall k | 0 <= k < j - i ensures PairAt(s[i..j], k) {
      assert PairAt(s, i + k);
    }
  }

  /** The newline of a clean text has solid text on both sides. */
  lemma NewlineIsInside(s: string, k: nat)
    requires Clean(s) && k < |s| && s[k] == '\n'
    ensures 0 < k < |s| - 1 && !IsSpace(s[k - 1]) && !IsSpace(s[k + 1])
  {
    assert IsSpace('\n');
    assert PairAt(s, k);
    if k > 0 {
      assert PairAt(s, k - 1);
    }
  }

  lemma SolidPart(s: string, i: nat, j: nat)
    requires Clean(s) && i < j <= |s| && !IsSpace(s[i]) && !IsSpace(s[j - 1])
    ensures Clean(s[i..j])
  {
    PartIsGood(s, i, j);
    assert s[i..j][0] == s[i] && s[i..j][j - i - 1] == s[j - 1];
  }

  lemma Rejoin(s: string, k: nat)
    requires k < |s| && s[k] == '\n'
    ensures s == s[..k] + "\n" + s[k + 1..]
  {
  }

  /** The first line of a clean text is good, and so is the text after it. */
  lemma FirstLineIsGood(s: string, k: nat)
    requires Clean(s) && k < |s| && k == FirstNewline(s)
    ensures GoodLine(s[..k])
  {
    NewlineIsInside(s, k);
    SolidPart(s, 0, k);
    assert s[0..k] == s[..k];
  }

  lemma RestIsClean(s: string, k: nat)
    requires Clean(s) && k < |s| && s[k] == '\n'
    ensures s[k + 1..] != "" && Clean(s[k + 1..])
  {
    NewlineIsInside(s, k);
    SolidPart(s, k + 1, |s|);
    assert s[k + 1..|s|] == s[k + 1..];
  }

  lemma CleanLinesCons(head: string, lines: seq<string>)
    requires GoodLine(head) && CleanLines(lines) != []
    ensures CleanLines([head] + lines) == [head] + CleanLines(lines)
    ensures Unlines(CleanLines([head] + lines)) == head + "\n" + Unlines(CleanLines(lines))
  {
    GoodLineStays(head);
    assert ([head] + lines)[1..] == lines;
    var all := [head] + CleanLines(lines);
    assert CleanLines([head] + lines) == all;
    assert all[1..] == CleanLines(lines);
  }

  /** Clean text is left alone by the line-wise cleanup. */
  lemma {:induction false} CleanLinesStay(s: string)
    requires Clean(s) && s != ""
    ensures Unlines(CleanLines(Lines(s))) == s && CleanLines(Lines(s)) != []
    decreases |s|
  {
    var k := FirstNewline(s);
    if k == |s| {
      GoodLineStays(s);
      assert Lines(s) == [s];
      assert CleanLines([s][1..]) == [];
      assert CleanLines([s]) == [s];
    } else {
      FirstLineIsGood(s, k);
      RestIsClean(s, k);
      Rejoin(s, k);
      CleanLinesStay(s[k + 1..]);
      CleanLinesCons(s[..k], Lines(s[k + 1..]));
    }
  }

  /** Clean text is a fixed point of the cleanup. */
  lemma CleanStays(s: string)
    requires Clean(s)
    ensures Cleanup(s) == s
  {
    JoinCrLfAbsent(s);
    ReplaceAbsent(s, '\r', "\n");
    if s != "" {
      CleanLinesStay(s);
    }
  }

  // ----- the cleanup cleans --------------------------------------------------------------------

  lemma {:induction false} ReplaceRemoves(s: string)
    ensures '\r' !in ReplaceChar(s, '\r', "\n")
    decreases |s|
  {
    if s != "" {
      ReplaceRemoves(s[1..]);
    }
  }

  lemma {:induction false} CollapseIs(s: string)
    requires '\r' !in s && '\n' !in s
    ensures var r := CollapseBlanks(s);
      && NoTabs(r) && '\n' !in r && GoodPairs(r)
      && (r != "" && r[0] == ' ' ==> s != "" && IsBlank(s[0]))
    decreases |s|
  {
    if s != "" {
      if IsBlank(s[0]) {
        var t := TrimStart(s[1..], IsBlank);
        assert forall c | c in t :: c in s;
        CollapseIs(t);
        var r := CollapseBlanks(t);
        assert r != "" ==> r[0] != ' ';
        PrependGood(' ', r);
      } else {
        CollapseIs(s[1..]);
        PrependGood(s[0], CollapseBlanks(s[1..]));
      }
    }
  }

  lemma PrependGood(c: char, r: string)
    requires GoodPairs(r) && (r != "" ==> GoodPair(c, r[0]))
    ensures GoodPairs([c] + r)
  {
    forall i | 0 <= i <= |r| ensures PairAt([c] + r, i) {
      assert i > 0 ==> PairAt(r, i - 1);
    }
  }

  lemma CleanLineIs(s: string)
    requires '\r' !in s && '\n' !in s
    ensures CleanLine(s) != "" ==> GoodLine(CleanLine(s))
  {
    CollapseIs(s);
    var r := CollapseBlanks(s);
    var i, j := TrimIsPart(r, IsSpace);
    PartIsGood(r, i, j);
  }

  lemma {:induction false} LinesHaveNoBreaks(s: string)
    requires '\r' !in s
    ensures forall l | l in Lines(s) :: '\r' !in l && '\n' !in l
    decreases |s|
  {
    var k := FirstNewline(s);
    if k < |s| {
      LinesHaveNoBreaks(s[k + 1..]);
    }
  }

  lemma {:induction false} CleanLinesAreGood(lines: seq<string>)
    requires forall l | l in lines :: '\r' !in l && '\n' !in l
    ensures forall l | l in CleanLines(lines) :: GoodLine(l)
    decreases |lines|
  {
    if lines != [] {
      assert lines[0] in lines;
      CleanLineIs(lines[0]);
      CleanLinesAreGood(lines[1..]);
    }
  }

  lemma {:induction false} UnlinesIsClean(lines: seq<string>)
    requires forall l | l in lines :: GoodLine(l)
    ensures Clean(Unlines(lines)) && (lines != [] ==> Unlines(lines) != "")
    decreases |lines|
  {
    if |lines| > 1 {
      assert lines[0] in lines;
      UnlinesIsClean(lines[1..]);
      GluedIsClean(lines[0], Unlines(lines[1..]));
    } else if |lines| == 1 {
      assert lines[0] in lines;
    }
  }

  lemma GluedIsClean(a: string, b: string)
    requires a != "" && Clean(a) && b != "" && Clean(b)
    ensures Clean(a + "\n" + b)
  {
    var s := a + "\n" + b;
    forall i | 0 <= i < |s| ensures PairAt(s, i) {
      assert i < |a| ==> PairAt(a, i);
      assert i > |a| ==> PairAt(b, i - |a| - 1);
    }
  }

  lemma CleanupCleans(raw: string)
    ensures Clean(Cleanup(raw))
  {
    var plain := ReplaceChar(JoinCrLf(raw), '\r', "\n");
    ReplaceRemoves(JoinCrLf(raw));
    var text := Strip(plain);
    var i, j := TrimIsPart(plain, IsSpace);
    assert '\r' !in text;
    if text != "" {
      LinesHaveNoBreaks(text);
      CleanLinesAreGood(Lines(text));
      UnlinesIsClean(CleanLines(Lines(text)));
    }
  }

  // ----- the fixed point -----------------------------------------------------------------------

  lemma TruncateIs(s: string, maxLength: nat)
    requires Clean(s) && maxLength > 0
    ensures Clean(Truncate(s, maxLength)) && |Truncate(s, maxLength)| <= maxLength
    ensures s != "" ==> Truncate(s, maxLength) != ""
  {
    if |s| > maxLength {
      var r := Rstrip(s[..maxLength]);
      assert r == s[0..|r|];
      PartIsGood(s, 0, |r|);
      assert s[..maxLength][0] == s[0];
      assert r != "" by {
        assert !IsSpace(s[..maxLength][0]);
      }
    }
  }

  lemma PunctuateIs(s: string)
    requires Clean(s)
    ensures Clean(Punctuate(s)) && (s != "" ==> Punctuate(s) != "") && !WantsPeriod(Punctuate(s))
  {
    if WantsPeriod(s) {
      var r := s + ".";
      forall i | 0 <= i < |r| ensures PairAt(r, i) {
        assert i < |s| ==> PairAt(s, i);
      }
    }
  }

  /** A normalised message is clean and within the limit, and not empty unless nothing was left. */
  lemma NormalizeIs(raw: string, maxLength: nat)
    requires maxLength > 0
    ensures Clean(Normalize(raw, maxLength)) && |Normalize(raw, maxLength)| <= maxLength
    ensures Normalize(raw, maxLength) == "" <==> Cleanup(raw) == ""
  {
    CleanupCleans(raw);
    PunctuateIs(Cleanup(raw));
    TruncateIs(Punctuate(Cleanup(raw)), maxLength);
  }

  /** A normalised message changes once more exactly when it ends like a sentence without its
      period and there is room for one. */
  lemma NormalizeAgain(t: string, maxLength: nat)
    requires Clean(t) && 0 < maxLength && |t| <= maxLength
    ensures Normalize(t, maxLength) == if WantsPeriod(t) && |t| < maxLength then t + "." else t
  {
    CleanStays(t);
    if WantsPeriod(t) && |t| == maxLength {
      assert (t + ".")[..maxLength] == t;
      assert Rstrip(t) == t;
    }
  }

  lemma NormalFormSettles(t: string, maxLength: nat)
    requires Clean(t) && 0 < maxLength && |t| <= maxLength
    ensures var u := Normalize(t, maxLength);
      && Normalize(u, maxLength) == u && |u| <= maxLength && (u == "" <==> t == "")
      && (u == t <==> !WantsPeriod(t) || |t| == maxLength)
  {
    NormalizeAgain(t, maxLength);
    if WantsPeriod(t) && |t| < maxLength {
      PunctuateIs(t);
      NormalizeAgain(t + ".", maxLength);
    }
  }

  /** Normalising is stable after two applications, and the second one changes something exactly
      when the first normal form wants a period and has room for it. */
  lemma StableAfterTwo(raw: string, maxLength: nat)
    requires maxLength > 0
    ensures var once := Normalize(raw, maxLength);
      var twice := Normalize(once, maxLength);
      && Normalize(twice, maxLength) == twice
      && (twice == once <==> !WantsPeriod(once) || |once| == maxLength)
      && |once| <= maxLength && |twice| <= maxLength
      && (twice == "" <==> once == "")
  {
    NormalizeIs(raw, maxLength);
    NormalFormSettles(Normalize(raw, maxLength), maxLength);
  }

  /** Before truncation: the cut falls right after white space and what is left wants a period. */
  predicate CutWantsPeriod(text: string, maxLength: nat) {
    0 < maxLength < |text| && IsSpace(text[maxLength - 1]) && WantsPeriod(Rstrip(text[..maxLength]))
  }

  lemma TruncateWantsPeriodIff(text: string, maxLength: nat)
    requires maxLength > 0 && !WantsPeriod(text)
    ensures var once := Truncate(text, maxLength);
      WantsPeriod(once) && |once| != maxLength <==> CutWantsPeriod(text, maxLength)
  {
    if |text| > maxLength {
      var cut := text[..maxLength];
      assert cut[maxLength - 1] == text[maxLength - 1];
      assert |Rstrip(cut)| == maxLength <==> !IsSpace(cut[maxLength - 1]);
    }
  }

  /** Once is enough exactly when the punctuated text is not cut, or not at such a place. */
  lemma OnceIsEnoughIff(raw: string, maxLength: nat)
    requires maxLength > 0
    ensures Normalize(Normalize(raw, maxLength), maxLength) == Normalize(raw, maxLength) <==>
            !CutWantsPeriod(Punctuate(Cleanup(raw)), maxLength)
  {
    StableAfterTwo(raw, maxLength);
    CleanupCleans(raw);
    PunctuateIs(Cleanup(raw));
    TruncateWantsPeriodIff(Punctuate(Cleanup(raw)), maxLength);
  }

  lemma AppendWord(head: string)
    requires GoodLine(head)
    ensures Clean(head + " b")
  {
    var raw := head + " b";
    assert !IsSpace('b');
    assert raw[0] == head[0] && raw[|raw| - 1] == 'b' && raw[|head|] == ' ';
    forall i | 0 <= i < |raw| ensures PairAt(raw, i) {
      assert i < |head| ==> PairAt(head, i);
    }
  }

  /** A limit that cuts right after a blank leaves a text that wants its period. */
  lemma CutAtBlank(head: string)
    requires GoodLine(head) && WantsPeriod(head)
    ensures Normalize(head + " b", |head| + 1) == head
  {
    var raw := head + " b";
    AppendWord(head);
    CleanStays(raw);
    assert Punctuate(raw) == raw + ".";
    assert (raw + ".")[..|head| + 1] == head + " ";
    assert (head + " ")[..|head|] == head && IsSpace(' ');
    assert TrimEnd(head + " ", IsSpace) == TrimEnd(head, IsSpace) == head;
  }

  lemma LettersAreGood(n: nat)
    requires n > 0
    ensures var s := seq(n, i => 'a'); GoodLine(s) && WantsPeriod(s)
  {
    var s := seq(n, i => 'a');
    forall i | 0 <= i < |s| ensures PairAt(s, i) {
    }
    assert s[0] == 'a' && s[n - 1] == 'a';
  }

  /** Idempotence does fail, at every limit above one, by a message whose cut falls on a blank. */
  lemma NotIdempotent(maxLength: nat)
    requires maxLength > 1
    ensures exists raw :: Normalize(Normalize(raw, maxLength), maxLength) != Normalize(raw, maxLength)
  {
    var head := seq(maxLength - 1, i => 'a');
    LettersAreGood(maxLength - 1);
    CutAtBlank(head);
    NormalFormSettles(head, maxLength);
    assert Normalize(head + " b", maxLength) == head;
  }

  // ----- the queue -----------------------------------------------------------------------------

  function Normalizer(maxLength: nat): string -> string {
    raw => Normalize(raw, maxLength)
  }

  /** The first `room` non-empty normal forms. */
  function Normalized(norm: string -> string, queue: seq<string>, room: nat): (items: seq<string>)
    ensures |items| <= room
    decreases |queue|
  {
    if queue == [] || room == 0 then []
    else if norm(queue[0]) == "" then Normalized(norm, queue[1..], room)
    else [norm(queue[0])] + Normalized(norm, queue[1..], room - 1)
  }

  lemma {:induction false} NormalizedAppend(norm: string -> string, a: seq<string>, x: string, room: nat)
    ensures var so := Normalized(norm, a, room);
      Normalized(norm, a + [x], room) == if |so| == room || norm(x) == "" then so else so + [norm(x)]
    decreases |a|
  {
    if a == [] {
      assert (a + [x])[1..] == [];
    } else if room > 0 {
      assert (a + [x])[0] == a[0] && (a + [x])[1..] == a[1..] + [x];
      NormalizedAppend(norm, a[1..], x, if norm(a[0]) == "" then room else room - 1);
    }
  }

  lemma {:induction false} NormalizedStopsFull(norm: string -> string, a: seq<string>, b: seq<string>, room: nat)
    requires |Normalized(norm, a, room)| == room
    ensures Normalized(norm, a + b, room) == Normalized(norm, a, room)
    decreases |a|
  {
    if a != [] && room > 0 {
      assert (a + b)[0] == a[0] && (a + b)[1..] == a[1..] + b;
      NormalizedStopsFull(norm, a[1..], b, if norm(a[0]) == "" then room else room - 1);
    }
  }

  /** The loop shared by `_encode_flash_queue` and `_decode_flash_queue`. */
  method CollectNormalized(norm: string -> string, queue: seq<string>, maxItems: nat) returns (items: seq<string>)
    requires maxItems > 0
    ensures items == Normalized(norm, queue, maxItems)
  {
    items := [];
    var i := 0;
    assert queue[..0] == [];
    while i < |queue|
      invariant 0 <= i <= |queue|
      invariant items == Normalized(norm, queue[..i], maxItems) && |items| < maxItems
    {
      var normalized := norm(queue[i]);
      NormalizedAppend(norm, queue[..i], queue[i], maxItems);
      assert queue[..i + 1] == queue[..i] + [queue[i]];
      i := i + 1;
      if normalized == "" {
        continue;
      }
      items := items + [normalized];
      if |items| >= maxItems {
        NormalizedStopsFull(norm, queue[..i], queue[i..], maxItems);
        assert queue[..i] + queue[i..] == queue;
        return;
      }
    }
    assert queue[..i] == queue;
  }

  /** All non-empty normal forms, in order. */
  function NonEmptyForms(norm: string -> string, queue: seq<string>): seq<string> {
    if queue == [] then []
    else (if norm(queue[0]) == "" then [] else [norm(queue[0])]) + NonEmptyForms(norm, queue[1..])
  }

  /** The loop keeps as many of them as the limit allows, from the front. */
  lemma {:induction false} NormalizedIsPrefix(norm: string -> string, queue: seq<string>, room: nat)
    ensures var all := NonEmptyForms(norm, queue);
      Normalized(norm, queue, room) == if |all| <= room then all else all[..room]
    decreases |queue|
  {
    if queue != [] && room > 0 {
      var x, rest := norm(queue[0]), NonEmptyForms(norm, queue[1..]);
      if x == "" {
        NormalizedIsPrefix(norm, queue[1..], room);
      } else {
        NormalizedIsPrefix(norm, queue[1..], room - 1);
        assert |rest| >= room ==> ([x] + rest)[..room] == [x] + rest[..room - 1];
      }
    }
  }

  /** The cookie: absent when nothing is queued. */
  function Encode(norm: string -> string, queue: seq<string>, maxItems: nat): Option<seq<string>> {
    var items := Normalized(norm, queue, maxItems);
    if items == [] then None else Some(items)
  }

  function Decode(norm: string -> string, cookie: Option<seq<string>>, maxItems: nat): seq<string> {
    if cookie.None? then [] else Normalized(norm, cookie.value, maxItems)
  }

  function RoundTrip(norm: string -> string, queue: seq<string>, maxItems: nat): seq<string> {
    Decode(norm, Encode(norm, queue, maxItems), maxItems)
  }

  /** One more application reaches a non-empty fixed point. */
  predicate Image(norm: string -> string, items: seq<string>) {
    forall i | 0 <= i < |items| :: items[i] != "" && norm(items[i]) != "" && norm(norm(items[i])) == norm(items[i])
  }

  predicate Settled(norm: string -> string, items: seq<string>) {
    forall i | 0 <= i < |items| :: items[i] != "" && norm(items[i]) == items[i]
  }

  lemma {:induction false} FirstPass(norm: string -> string, queue: seq<string>, room: nat)
    requires forall raw :: norm(norm(norm(raw))) == norm(norm(raw)) && (norm(norm(raw)) == "" <==> norm(raw) == "")
    ensures Image(norm, Normalized(norm, queue, room))
    decreases |queue|
  {
    if queue != [] && room > 0 {
      FirstPass(norm, queue[1..], if norm(queue[0]) == "" then room else room - 1);
      assert norm(norm(norm(queue[0]))) == norm(norm(queue[0]));
    }
  }

  lemma {:induction false} SecondPass(norm: string -> string, items: seq<string>, room: nat)
    requires Image(norm, items) && |items| <= room
    ensures Settled(norm, Normalized(norm, items, room))
    ensures Settled(norm, items) ==> Normalized(norm, items, room) == items
    decreases |items|
  {
    if items != [] {
      assert forall i | 0 <= i < |items[1..]| :: items[1..][i] == items[i + 1];
      SecondPass(norm, items[1..], room - 1);
    }
  }

  /** A queue of settled messages within the limit comes back as it was. */
  lemma SettledQueueSurvives(norm: string -> string, queue: seq<string>, maxItems: nat)
    requires Settled(norm, queue) && |queue| <= maxItems
    ensures RoundTrip(norm, queue, maxItems) == queue
  {
    SecondPass(norm, queue, maxItems);
  }

  /** After one trip through the cookie a queue is stable: every further trip is the identity, no
      item is empty, and both limits hold. */
  lemma RoundTripSettles(queue: seq<string>, maxItems: nat, maxLength: nat)
    requires maxItems > 0 && maxLength > 0
    ensures var norm := Normalizer(maxLength);
      var q := RoundTrip(norm, queue, maxItems);
      && RoundTrip(norm, q, maxItems) == q
      && |q| <= maxItems && (forall i | 0 <= i < |q| :: 0 < |q[i]| <= maxLength)
  {
    var norm := Normalizer(maxLength);
    forall raw ensures norm(norm(norm(raw))) == norm(norm(raw)) && (norm(norm(raw)) == "" <==> norm(raw) == "") {
      StableAfterTwo(raw, maxLength);
    }
    var once := Normalized(norm, queue, maxItems);
    FirstPass(norm, queue, maxItems);
    SecondPass(norm, once, maxItems);
    var q := RoundTrip(norm, queue, maxItems);
    assert Settled(norm, q);
    SecondPass(norm, q, maxItems);
    forall i | 0 <= i < |q| ensures 0 < |q[i]| <= maxLength {
      NormalizeIs(q[i], maxLength);
      assert norm(q[i]) == Normalize(q[i], maxLength);
    }
  }
}
