/** The agent API's plain-text output: the scalar printer and the column keys. */
module AgentText {
  import opened Wrappers
  import opened Text
  import opened Numerals
  import opened FreshNames
  import opened Slugs

  // ----- the scalar printer --------------------------------------------------------------------

  /** `_YAML_SIMPLE_RE`. */
  predicate IsSimpleChar(c: char) {
    IsAlnum(c) || c in "_./@+=,-() "
  }

  predicate IsPlain(text: string) {
    && text != ""
    && (forall i | 0 <= i < |text| :: IsSimpleChar(text[i]))
    && text == Strip(text)
    && Lower(text) !in ["null", "true", "false", "yes", "no", "on", "off"]
  }

  /** The chain of `replace` calls. */
  function Escape(text: string): string {
    ReplaceChar(ReplaceChar(ReplaceChar(ReplaceChar(text, '\\', "\\\\"), '"', "\\\""), '\n', "\\n"), '\r', "\\r")
  }

  /** `_yaml_scalar` of a text. */
  function YamlScalar(text: string): string {
    if text == "" then "\"\""
    else if IsPlain(text) then text
    else "\"" + Escape(text) + "\""
  }

  /** One character at a time, as section 5.7 of YAML 1.2 writes it. */
  function EscapeChar(c: char): string {
    if c == '\\' then "\\\\" else if c == '"' then "\\\"" else if c == '\n' then "\\n" else if c == '\r' then "\\r"
    else [c]
  }

  function EscapeOnePass(text: string): string {
    if text == "" then "" else EscapeChar(text[0]) + EscapeOnePass(text[1..])
  }

  lemma {:induction false} ReplaceConcat(a: string, b: string, c: char, image: string)
    ensures ReplaceChar(a + b, c, image) == ReplaceChar(a, c, image) + ReplaceChar(b, c, image)
    decreases |a|
  {
    if a == "" {
      assert a + b == b;
    } else {
      assert (a + b)[0] == a[0] && (a + b)[1..] == a[1..] + b;
      ReplaceConcat(a[1..], b, c, image);
    }
  }

  lemma EscapeConcat(a: string, b: string)
    ensures Escape(a + b) == Escape(a) + Escape(b)
  {
    ReplaceConcat(a, b, '\\', "\\\\");
    var a1, b1 := ReplaceChar(a, '\\', "\\\\"), ReplaceChar(b, '\\', "\\\\");
    ReplaceConcat(a1, b1, '"', "\\\"");
    var a2, b2 := ReplaceChar(a1, '"', "\\\""), ReplaceChar(b1, '"', "\\\"");
    ReplaceConcat(a2, b2, '\n', "\\n");
    ReplaceConcat(ReplaceChar(a2, '\n', "\\n"), ReplaceChar(b2, '\n', "\\n"), '\r', "\\r");
  }

  lemma ReplaceOne(x: char, c: char, image: string)
    ensures ReplaceChar([x], c, image) == if x == c then image else [x]
  {
    assert ReplaceChar([x][1..], c, image) == "";
  }

  lemma ReplaceTwo(x: char, y: char, c: char, image: string)
    requires x != c && y != c
    ensures ReplaceChar([x, y], c, image) == [x, y]
  {
    ReplaceAbsent([x, y], c, image);
  }

  lemma EscapeOne(x: char)
    ensures Escape([x]) == EscapeChar(x)
  {
    ReplaceOne(x, '\\', "\\\\");
    ReplaceOne(x, '"', "\\\"");
    ReplaceOne(x, '\n', "\\n");
    ReplaceOne(x, '\r', "\\r");
    if x == '\\' {
      ReplaceTwo('\\', '\\', '"', "\\\"");
      ReplaceTwo('\\', '\\', '\n', "\\n");
      ReplaceTwo('\\', '\\', '\r', "\\r");
    } else if x == '"' {
      ReplaceTwo('\\', '"', '\n', "\\n");
      ReplaceTwo('\\', '"', '\r', "\\r");
    } else if x == '\n' {
      ReplaceTwo('\\', 'n', '\r', "\\r");
    }
  }

  /** The chained replacements do what a single pass does. */
  lemma {:induction false} ChainIsOnePass(text: string)
    ensures Escape(text) == EscapeOnePass(text)
    decreases |text|
  {
    if text != "" {
      assert text == [text[0]] + text[1..];
      EscapeConcat([text[0]], text[1..]);
      EscapeOne(text[0]);
      ChainIsOnePass(text[1..]);
    }
  }

  // ----- reading back --------------------------------------------------------------------------

  function Unescaped(c: char): Option<char> {
    if c == '\\' then Some('\\') else if c == '"' then Some('"') else if c == 'n' then Some('\n')
    else if c == 'r' then Some('\r') else None
  }

  /** The double-quoted style of section 7.3.1 of YAML 1.2, after the opening quote, on one line:
      the text and what follows the closing quote. */
  function ReadQuoted(s: string): Option<(string, string)>
    decreases |s|
  {
    if s == "" || s[0] == '\n' || s[0] == '\r' then None
    else if s[0] == '"' then Some(("", s[1..]))
    else if s[0] == '\\' then
      if |s| < 2 || Unescaped(s[1]).None? then None
      else
        var rest := ReadQuoted(s[2..]);
        if rest.None? then None else Some(([Unescaped(s[1]).value] + rest.value.0, rest.value.1))
    else
      var rest := ReadQuoted(s[1..]);
      if rest.None? then None else Some(([s[0]] + rest.value.0, rest.value.1))
  }

  /** Reading a scalar that stands alone. */
  function ReadScalar(s: string): Option<string> {
    if s != "" && s[0] == '"' then
      var r := ReadQuoted(s[1..]);
      if r.Some? && r.value.1 == "" then Some(r.value.0) else None
    else Some(s)
  }

  /** Escaped text is self-delimiting: the reader stops exactly at the closing quote. */
  lemma {:induction false} ReadsBack(text: string, rest: string)
    ensures ReadQuoted(EscapeOnePass(text) + "\"" + rest) == Some((text, rest))
    decreases |text|
  {
    var s := EscapeOnePass(text) + "\"" + rest;
    if text == "" {
      assert s == "\"" + rest;
    } else {
      var e := EscapeChar(text[0]);
      var tail := EscapeOnePass(text[1..]) + "\"" + rest;
      assert s == e + tail;
      ReadsBack(text[1..], rest);
      if |e| == 2 {
        assert s[0] == '\\' && s[1] == e[1] && s[2..] == tail;
      } else {
        assert s[0] == text[0] && s[1..] == tail;
      }
      assert [text[0]] + text[1..] == text;
    }
  }

  /** Every text is recovered from its printed form. */
  lemma ScalarRoundTrip(text: string)
    ensures ReadScalar(YamlScalar(text)) == Some(text)
  {
    if text != "" && IsPlain(text) {
      assert IsSimpleChar(text[0]);
    } else {
      ChainIsOnePass(text);
      ReadsBack(text, "");
      var inner := EscapeOnePass(text) + "\"";
      assert YamlScalar(text) == "\"" + inner;
      assert inner + "" == inner;
    }
  }

  /** Different texts print differently. */
  lemma ScalarIsInjective(a: string, b: string)
    requires YamlScalar(a) == YamlScalar(b)
    ensures a == b
  {
    ScalarRoundTrip(a);
    ScalarRoundTrip(b);
  }

  lemma {:induction false} EscapedIsOneLine(text: string)
    ensures '\n' !in EscapeOnePass(text) && '\r' !in EscapeOnePass(text)
    decreases |text|
  {
    if text != "" {
      EscapedIsOneLine(text[1..]);
    }
  }

  lemma SimpleIsOneLine(text: string)
    requires forall i | 0 <= i < |text| :: IsSimpleChar(text[i])
    ensures '\n' !in text && '\r' !in text
  {
    assert !IsSimpleChar('\n') && !IsSimpleChar('\r');
  }

  /** A printed scalar never breaks its line. */
  lemma ScalarIsOneLine(text: string)
    ensures '\n' !in YamlScalar(text) && '\r' !in YamlScalar(text)
  {
    if text == "" {
    } else if IsPlain(text) {
      SimpleIsOneLine(text);
    } else {
      ChainIsOnePass(text);
      EscapedIsOneLine(text);
      assert YamlScalar(text) == "\"" + EscapeOnePass(text) + "\"";
    }
  }

  // ----- what is printed plainly -----------------------------------------------------------------

  const RESERVED: seq<string> := ["null", "true", "false", "yes", "no", "on", "off"]

  /** `word` in any mixture of cases. */
  predicate SpelledLike(text: string, word: string) {
    && |text| == |word|
    && forall i | 0 <= i < |text| :: text[i] == word[i] || (IsUpper(text[i]) && text[i] as int + 32 == word[i] as int)
  }

  lemma {:induction false} LowerIs(text: string)
    ensures forall i | 0 <= i < |text| :: Lower(text)[i] == LowerChar(text[i])
    decreases |text|
  {
    if text != "" {
      LowerIs(text[1..]);
    }
  }

  lemma LowerIsWordIff(text: string, word: string)
    requires forall i | 0 <= i < |word| :: IsLower(word[i])
    ensures Lower(text) == word <==> SpelledLike(text, word)
  {
    LowerIs(text);
  }

  lemma ReservedAreLower()
    ensures forall w, i | w in RESERVED && 0 <= i < |w| :: IsLower(w[i])
  {
  }

  lemma StripIsIdleIff(text: string)
    requires text != "" && forall i | 0 <= i < |text| :: IsSimpleChar(text[i])
    ensures text == Strip(text) <==> text[0] != ' ' && text[|text| - 1] != ' '
  {
    assert forall i | 0 <= i < |text| :: IsSpace(text[i]) <==> text[i] == ' ';
  }

  lemma {:induction false} EscapeGrows(text: string)
    ensures |EscapeOnePass(text)| >= |text|
    decreases |text|
  {
    if text != "" {
      EscapeGrows(text[1..]);
    }
  }

  /** A text is printed without quotes exactly when it consists of letters, digits, inner blanks and the
      listed signs and does not spell one of the words YAML reads as something else. */
  lemma PrintedPlainIff(text: string)
    ensures YamlScalar(text) == text <==>
      && text != ""
      && (forall i | 0 <= i < |text| :: IsAlnum(text[i]) || text[i] in "_./@+=,-() ")
      && text[0] != ' ' && text[|text| - 1] != ' '
      && (forall w | w in RESERVED :: !SpelledLike(text, w))
  {
    ChainIsOnePass(text);
    EscapeGrows(text);
    assert YamlScalar(text) == text <==> IsPlain(text);
    if text != "" && forall i | 0 <= i < |text| :: IsSimpleChar(text[i]) {
      StripIsIdleIff(text);
    }
    ReservedAreLower();
    forall w | w in RESERVED ensures Lower(text) == w <==> SpelledLike(text, w) {
      LowerIsWordIff(text, w);
    }
  }

  // ----- column keys ---------------------------------------------------------------------------

  /** The fields of a run column the keys use; empty when missing. */
  datatype Column = Column(title: string, source: string, id: string)

  function Or(a: string, b: string): string { if a != "" then a else b }

  function Label(c: Column): string { Or(c.title, Or(c.source, Or(c.id, "column"))) }

  function CountBy(columns: seq<Column>, p: Column -> bool): nat {
    if columns == [] then 0
    else (if p(columns[|columns| - 1]) then 1 else 0) + CountBy(columns[..|columns| - 1], p)
  }

  function HasLabel(name: string): Column -> bool { c => Label(c) == name }

  function LabelCount(columns: seq<Column>, name: string): nat { CountBy(columns, HasLabel(name)) }

  /** A title that labels one column only is its key; otherwise the source comes first. */
  function RawKey(columns: seq<Column>, c: Column): string {
    if c.title != "" && LabelCount(columns, c.title) == 1 then c.title
    else Or(c.source, Or(c.title, Or(c.id, "column")))
  }

  /** One column satisfies `p`, and no other. */
  ghost predicate OnlyOne(columns: seq<Column>, p: Column -> bool) {
    exists i :: OnlyAt(columns, p, i)
  }

  predicate OnlyAt(columns: seq<Column>, p: Column -> bool, i: nat) {
    i < |columns| && p(columns[i]) && forall j | 0 <= j < |columns| && j != i :: !p(columns[j])
  }

  lemma {:induction false} CountIsZeroIff(columns: seq<Column>, p: Column -> bool)
    ensures CountBy(columns, p) == 0 <==> forall i | 0 <= i < |columns| :: !p(columns[i])
    decreases |columns|
  {
    if columns != [] {
      CountIsZeroIff(columns[..|columns| - 1], p);
    }
  }

  lemma {:induction false} CountIsOneIff(columns: seq<Column>, p: Column -> bool)
    ensures CountBy(columns, p) == 1 <==> OnlyOne(columns, p)
    decreases |columns|
  {
    if columns != [] {
      var n := |columns| - 1;
      var rest := columns[..n];
      CountIsZeroIff(rest, p);
      CountIsOneIff(rest, p);
      if p(columns[n]) {
        assert OnlyOne(columns, p) <==> OnlyAt(columns, p, n);
      } else {
        assert forall i: nat :: OnlyAt(columns, p, i) <==> OnlyAt(rest, p, i);
      }
    }
  }

  /** `name` is the first non-empty of a column's title, source and id, or the word for none. */
  predicate Named(c: Column, name: string) {
    || (c.title != "" && name == c.title)
    || (c.title == "" && c.source != "" && name == c.source)
    || (c.title == "" && c.source == "" && c.id != "" && name == c.id)
    || (c.title == "" && c.source == "" && c.id == "" && name == "column")
  }

  function NamedAs(name: string): Column -> bool { c => Named(c, name) }

  lemma SameNames(columns: seq<Column>, name: string)
    ensures OnlyOne(columns, HasLabel(name)) <==> OnlyOne(columns, NamedAs(name))
  {
    if i :| OnlyAt(columns, HasLabel(name), i) {
      assert OnlyAt(columns, NamedAs(name), i);
    }
    if i :| OnlyAt(columns, NamedAs(name), i) {
      assert OnlyAt(columns, HasLabel(name), i);
    }
  }

  /** Which key a column prefers: a title that names this column alone; else its source, its title, its
      id, or the word column, whichever comes first. */
  lemma PreferredKey(columns: seq<Column>, c: Column)
    ensures var k, alone := RawKey(columns, c), OnlyOne(columns, NamedAs(c.title));
      && (c.title != "" && alone ==> k == c.title)
      && (c.title == "" || !alone ==>
            && (c.source != "" ==> k == c.source)
            && (c.source == "" && c.title != "" ==> k == c.title)
            && (c.source == "" && c.title == "" && c.id != "" ==> k == c.id)
            && (c.source == "" && c.title == "" && c.id == "" ==> k == "column"))
  {
    CountIsOneIff(columns, HasLabel(c.title));
    SameNames(columns, c.title);
  }

  function Suffixed(raw: string): nat -> string {
    (i: nat) => raw + "-" + Decimal(i)
  }

  lemma SuffixedDiffer(raw: string)
    ensures Injective(Suffixed(raw), 2)
  {
    forall i: nat, j: nat | 2 <= i < j ensures Suffixed(raw)(i) != Suffixed(raw)(j) {
      NumberedNamesDiffer(raw, i, raw, j);
    }
  }

  /** The inner loop: the raw key, or its first free numbered form. */
  method FreeKey(raw: string, used: set<string>) returns (key: string)
    ensures key !in used
    ensures raw !in used ==> key == raw
    ensures raw in used ==> FirstFree(Suffixed(raw), 2, used, key)
  {
    ghost var f := Suffixed(raw);
    SuffixedDiffer(raw);
    key := raw;
    var suffix := 2;
    while key in used
      invariant 2 <= suffix && key == if suffix == 2 then raw else f(suffix - 1)
      invariant suffix > 2 ==> raw in used && AllTaken(f, 2, suffix - 1, used)
      decreases 3 + |used| - suffix
    {
      if suffix > 2 {
        Missed(f, 2, suffix - 1, used);
      }
      key := raw + "-" + Decimal(suffix);
      suffix := suffix + 1;
    }
    if suffix > 2 {
      Found(f, 2, suffix - 1, used);
    }
  }

  ghost predicate KeyAt(columns: seq<Column>, keys: seq<string>, i: nat)
    requires i < |columns| && i < |keys|
  {
    var raw := RawKey(columns, columns[i]);
    var used := set k | k in keys[..i];
    if raw !in used then keys[i] == raw else FirstFree(Suffixed(raw), 2, used, keys[i])
  }

  /** First loop of `_column_keys`. */
  method CountTitles(columns: seq<Column>) returns (counts: map<string, nat>)
    ensures forall name :: (if name in counts then counts[name] else 0) == LabelCount(columns, name)
  {
    counts := map[];
    for i := 0 to |columns|
      invariant forall name :: (if name in counts then counts[name] else 0) == LabelCount(columns[..i], name)
    {
      assert columns[..i + 1][..i] == columns[..i];
      var title := Label(columns[i]);
      counts := counts[title := (if title in counts then counts[title] else 0) + 1];
    }
    assert columns[..|columns|] == columns;
  }

  /** `_column_keys`: one key per column, pairwise different, each the preferred name of its column
      or the first free numbered form of it. */
  method ColumnKeys(columns: seq<Column>) returns (keys: seq<string>)
    ensures |keys| == |columns|
    ensures forall i, j | 0 <= i < j < |keys| :: keys[i] != keys[j]
    ensures forall i | 0 <= i < |keys| :: KeyAt(columns, keys, i)
  {
    var counts := CountTitles(columns);
    var used: set<string> := {};
    keys := [];
    for i := 0 to |columns|
      invariant |keys| == i && used == set k | k in keys
      invariant forall a, b | 0 <= a < b < i :: keys[a] != keys[b]
      invariant forall a | 0 <= a < i :: KeyAt(columns, keys, a)
    {
      var c := columns[i];
      var raw := if c.title != "" && c.title in counts && counts[c.title] == 1 then c.title
                 else Or(c.source, Or(c.title, Or(c.id, "column")));
      assert raw == RawKey(columns, c);
      var key := FreeKey(raw, used);
      ghost var was := keys;
      keys := keys + [key];
      used := used + {key};
      assert keys[..i] == was;
      forall a | 0 <= a < i ensures KeyAt(columns, keys, a) {
        assert KeyAt(columns, was, a) && keys[..a] == was[..a];
      }
    }
  }
}
