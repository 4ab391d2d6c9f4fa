/** `parseLRCFormat`: turns pasted LRC text into synchronised-lyrics entries.

    The text is split on '\n'; each line is searched (not anchored) for the
    pattern `\[(\d{2}):(\d{2})[:.](\d{2})\](.*)`. The leftmost ten-character
    marker `[MM:SS.CC]` or `[MM:SS:CC]` gives the timestamp
    MM*60000 + SS*1000 + CC*10, and the rest of the line, up to the first
    character `.` does not match, trimmed, gives the text. Lines without a
    marker are skipped. The entries are then sorted stably by timestamp. */
module LrcParser {
  import opened Types
  import opened StableSort

  /** `\d`: an ASCII digit. */
  predicate IsDigit(c: char)
  {
    '0' <= c <= '9'
  }

  /** The characters JavaScript's `.` does not match: the line terminators. */
  predicate IsLineTerminator(c: char)
  {
    c == '\n' || c == '\r' || c == '\U{2028}' || c == '\U{2029}'
  }

  /** What `String.prototype.trim` removes: white space (TAB, VT, FF, SP, NBSP,
      ZWNBSP and the space separators) and the line terminators. */
  predicate IsWhitespace(c: char)
  {
    || c == '\t' || c == '\U{000B}' || c == '\U{000C}' || c == ' ' || c == '\U{00A0}' || c == '\U{FEFF}'
    || c == '\U{1680}' || ('\U{2000}' <= c <= '\U{200A}') || c == '\U{202F}' || c == '\U{205F}' || c == '\U{3000}'
    || IsLineTerminator(c)
  }

  /** `parseInt` of two ASCII digits. */
  function TwoDigits(hi: char, lo: char): (n: int)
    requires IsDigit(hi) && IsDigit(lo)
    ensures 0 <= n <= 99
  {
    (hi as int - '0' as int) * 10 + (lo as int - '0' as int)
  }

  // ---------------------------------------------------------------- split

  /** `lines.join('\n')`, the inverse of the split. */
  function JoinLines(lines: seq<string>): string
    requires |lines| >= 1
  {
    if |lines| == 1 then lines[0] else lines[0] + "\n" + JoinLines(lines[1..])
  }

  /** `content.split('\n')`: the pieces between newlines, at least one. */
  function SplitLines(s: string): (r: seq<string>)
    ensures |r| >= 1
    ensures forall i :: 0 <= i < |r| ==> '\n' !in r[i]
    ensures JoinLines(r) == s
  {
    if s == [] then [[]]
    else if s[0] == '\n' then
      var rest := SplitLines(s[1..]);
      assert ([[]] + rest)[1..] == rest;
      [[]] + rest
    else
      var rest := SplitLines(s[1..]);
      var r := [[s[0]] + rest[0]] + rest[1..];
      assert r[1..] == rest[1..];
      assert |rest| > 1 ==> rest == [rest[0]] + rest[1..];
      r
  }

  /** A piece without a newline splits to itself. */
  lemma {:induction false} SplitNoNewline(a: string)
    requires '\n' !in a
    ensures SplitLines(a) == [a]
    decreases |a|
  {
    if a != [] {
      SplitNoNewline(a[1..]);
      assert SplitLines(a) == [[a[0]] + a[1..]];
      assert [a[0]] + a[1..] == a;
    }
  }

  /** A piece without a newline, then a newline: the piece is the first line. */
  lemma {:induction false} SplitBeforeNewline(a: string, b: string)
    requires '\n' !in a
    ensures SplitLines(a + "\n" + b) == [a] + SplitLines(b)
    decreases |a|
  {
    var c := a + "\n" + b;
    if a == [] {
      assert c[0] == '\n' && c[1..] == b;
    } else {
      assert c[0] == a[0] && c[1..] == a[1..] + "\n" + b;
      SplitBeforeNewline(a[1..], b);
      var rest := SplitLines(c[1..]);
      assert rest[0] == a[1..] && rest[1..] == SplitLines(b);
      assert SplitLines(c) == [[a[0]] + rest[0]] + rest[1..];
      assert [a[0]] + a[1..] == a;
    }
  }

  /** Splitting what was joined gives back the pieces, when none holds a newline. */
  lemma {:induction false} SplitJoin(lines: seq<string>)
    requires |lines| >= 1
    requires forall i :: 0 <= i < |lines| ==> '\n' !in lines[i]
    ensures SplitLines(JoinLines(lines)) == lines
  {
    if |lines| == 1 {
      SplitNoNewline(lines[0]);
    } else {
      SplitJoin(lines[1..]);
      SplitBeforeNewline(lines[0], JoinLines(lines[1..]));
      assert lines == [lines[0]] + lines[1..];
    }
  }

  // ---------------------------------------------------------------- trim

  function TrimStart(s: string): (r: string)
    ensures |r| <= |s| && r == s[|s| - |r|..]
    ensures forall k :: 0 <= k < |s| - |r| ==> IsWhitespace(s[k])
    ensures r != [] ==> !IsWhitespace(r[0])
  {
    if s != [] && IsWhitespace(s[0]) then TrimStart(s[1..]) else s
  }

  function TrimEnd(s: string): (r: string)
    ensures |r| <= |s| && r == s[..|r|]
    ensures forall k :: |r| <= k < |s| ==> IsWhitespace(s[k])
    ensures r != [] ==> !IsWhitespace(r[|r| - 1])
  {
    if s != [] && IsWhitespace(s[|s| - 1]) then TrimEnd(s[..|s| - 1]) else s
  }

  /** `trim()`: `s` with its leading and trailing white space removed. */
  function Trim(s: string): (r: string)
    ensures |r| <= |s|
    ensures r != [] ==> !IsWhitespace(r[0]) && !IsWhitespace(r[|r| - 1])
    ensures (forall k :: 0 <= k < |s| ==> IsWhitespace(s[k])) <==> r == []
    ensures exists i, j :: TrimmedTo(s, r, i, j)
  {
    var t := TrimStart(s);
    var r := TrimEnd(t);
    assert r != [] ==> r[0] == t[0];
    assert r == [] ==> t == [];
    TrimSlice(s, t, r);
    r
  }

  /** `r` is `s[i..j]`, and everything of `s` outside it is white space. */
  predicate TrimmedTo(s: string, r: string, i: int, j: int)
  {
    0 <= i <= j <= |s| && r == s[i..j]
    && (forall k :: 0 <= k < i ==> IsWhitespace(s[k]))
    && (forall k :: j <= k < |s| ==> IsWhitespace(s[k]))
  }

  lemma TrimSlice(s: string, t: string, r: string)
    requires |r| <= |t| <= |s| && t == s[|s| - |t|..] && r == t[..|r|]
    requires forall k :: 0 <= k < |s| - |t| ==> IsWhitespace(s[k])
    requires forall k :: |r| <= k < |t| ==> IsWhitespace(t[k])
    ensures TrimmedTo(s, r, |s| - |t|, |s| - |t| + |r|)
  {
    var i := |s| - |t|;
    forall k | i + |r| <= k < |s|
      ensures IsWhitespace(s[k])
    {
      assert s[k] == t[k - i];
    }
  }


  // ---------------------------------------------------------------- match

  /** A `[MM:SS.CC]` or `[MM:SS:CC]` marker starts at position `p` of `line`. */
  predicate MarkerAt(line: string, p: int)
  {
    && 0 <= p && p + 10 <= |line|
    && line[p] == '['
    && IsDigit(line[p + 1]) && IsDigit(line[p + 2])
    && line[p + 3] == ':'
    && IsDigit(line[p + 4]) && IsDigit(line[p + 5])
    && (line[p + 6] == ':' || line[p + 6] == '.')
    && IsDigit(line[p + 7]) && IsDigit(line[p + 8])
    && line[p + 9] == ']'
  }

  /** The marker at `p` is where the regular-expression search stops: the leftmost one. */
  predicate LeftmostMarker(line: string, p: int)
  {
    MarkerAt(line, p) && forall q :: 0 <= q < p ==> !MarkerAt(line, q)
  }

  /** The first marker position at or after `from`, if any. */
  function FindMarkerFrom(line: string, from: nat): (r: Option<nat>)
    ensures r.Some? ==> from <= r.value && MarkerAt(line, r.value)
    ensures r.Some? ==> forall q :: from <= q < r.value ==> !MarkerAt(line, q)
    ensures r.None? ==> forall q :: from <= q ==> !MarkerAt(line, q)
    decreases |line| - from
  {
    if from + 10 > |line| then None
    else if MarkerAt(line, from) then Some(from)
    else FindMarkerFrom(line, from + 1)
  }

  /** The timestamp of the marker at `p`, in milliseconds. */
  function MarkerTime(line: string, p: int): (ms: int)
    requires MarkerAt(line, p)
    ensures 0 <= ms <= 6039990 && ms % 10 == 0
  {
    TwoDigits(line[p + 1], line[p + 2]) * 60000
    + TwoDigits(line[p + 4], line[p + 5]) * 1000
    + TwoDigits(line[p + 7], line[p + 8]) * 10
  }

  /** What greedy `.*` takes: everything before the first line terminator. */
  function UpToTerminator(s: string): (r: string)
    ensures |r| <= |s| && r == s[..|r|]
    ensures forall k :: 0 <= k < |r| ==> !IsLineTerminator(r[k])
    ensures |r| < |s| ==> IsLineTerminator(s[|r|])
  {
    if s == [] || IsLineTerminator(s[0]) then []
    else
      var rest := UpToTerminator(s[1..]);
      assert ([s[0]] + rest)[1..] == rest;
      [s[0]] + rest
  }

  /** The text of the line whose marker starts at `p`: what follows the
      marker, up to a line terminator, trimmed. */
  function TextAfter(line: string, p: int): (r: string)
    requires MarkerAt(line, p)
    ensures |r| <= |line| - (p + 10)
    ensures r != [] ==> !IsWhitespace(r[0]) && !IsWhitespace(r[|r| - 1])
    ensures forall k :: 0 <= k < |r| ==> !IsLineTerminator(r[k])
  {
    Trim(UpToTerminator(line[p + 10..]))
  }

  /** The entry one line contributes, if it holds a marker. */
  function ParseLine(line: string): (r: Option<Entry>)
    ensures r.Some? ==> 0 <= r.value.time <= 6039990
  {
    match FindMarkerFrom(line, 0)
    case None => None
    case Some(p) => Some(Entry(TextAfter(line, p), MarkerTime(line, p)))
  }

  /** A line contributes an entry exactly when a marker occurs anywhere in it. */
  lemma ParseLineFindsMarker(line: string)
    ensures ParseLine(line).Some? <==> exists p :: MarkerAt(line, p)
  {
    if ParseLine(line).None? {
      assert forall q :: 0 <= q ==> !MarkerAt(line, q);
    }
  }

  /** A line's entry is read at its leftmost marker: the timestamp from the
      marker's digits, the text from the trimmed rest of the line. */
  lemma ParseLineAt(line: string, p: int)
    requires LeftmostMarker(line, p)
    ensures ParseLine(line) == Some(Entry(TextAfter(line, p), MarkerTime(line, p)))
  {
    var r := FindMarkerFrom(line, 0);
    assert r == Some(p);
  }

  /** The entries a single line contributes: one or none. */
  function LineEntries(line: string): (r: seq<Entry>)
    ensures |r| <= 1
    ensures forall e :: e in r <==> ParseLine(line) == Some(e)
  {
    match ParseLine(line)
    case Some(e) => [e]
    case None => []
  }

  /** The entries of the matching lines, in line order (before the sort). */
  function Matched(lines: seq<string>): (r: seq<Entry>)
    ensures |r| <= |lines|
  {
    GatherBound(LineEntries, lines);
    Gather(LineEntries, lines)
  }

  /** The lists `f` gives for each line, one after the other. */
  function Gather(f: string -> seq<Entry>, lines: seq<string>): seq<Entry>
  {
    if lines == [] then [] else Gather(f, lines[..|lines| - 1]) + f(lines[|lines| - 1])
  }

  /** When every line gives at most one entry, there are at most as many
      entries as lines. */
  lemma {:induction false} GatherBound(f: string -> seq<Entry>, lines: seq<string>)
    requires forall line :: |f(line)| <= 1
    ensures |Gather(f, lines)| <= |lines|
  {
    if lines != [] {
      GatherBound(f, lines[..|lines| - 1]);
    }
  }

  /** Some line of `lines` parses to `e`. */
  predicate FromSomeLine(lines: seq<string>, e: Entry)
  {
    exists i :: 0 <= i < |lines| && ParseLine(lines[i]) == Some(e)
  }

  /** Whatever is gathered came from the list of some line. */
  lemma {:induction false} GatheredFromSomeLine(f: string -> seq<Entry>, lines: seq<string>, e: Entry)
    requires e in Gather(f, lines)
    ensures exists i :: 0 <= i < |lines| && e in f(lines[i])
  {
    var n := |lines| - 1;
    if e in Gather(f, lines[..n]) {
      GatheredFromSomeLine(f, lines[..n], e);
      var i :| 0 <= i < n && e in f(lines[..n][i]);
      assert lines[..n][i] == lines[i];
    } else {
      assert e in f(lines[n]);
    }
  }

  /** Every line's list is gathered. */
  lemma {:induction false} GatheredEveryLine(f: string -> seq<Entry>, lines: seq<string>, i: nat, e: Entry)
    requires i < |lines| && e in f(lines[i])
    ensures e in Gather(f, lines)
  {
    var n := |lines| - 1;
    if i < n {
      assert lines[..n][i] == lines[i];
      GatheredEveryLine(f, lines[..n], i, e);
    } else {
      assert lines[i] == lines[n];
    }
  }

  lemma MatchedOnlyFromLines(lines: seq<string>, e: Entry)
    requires e in Matched(lines)
    ensures FromSomeLine(lines, e)
  {
    GatheredFromSomeLine(LineEntries, lines, e);
    var i :| 0 <= i < |lines| && e in LineEntries(lines[i]);
    assert ParseLine(lines[i]) == Some(e);
  }

  lemma MatchedAllLines(lines: seq<string>, i: nat, e: Entry)
    requires i < |lines| && ParseLine(lines[i]) == Some(e)
    ensures e in Matched(lines)
  {
    assert e in LineEntries(lines[i]);
    GatheredEveryLine(LineEntries, lines, i, e);
  }

  /** Every matched entry comes from a line, and every line with a marker gives one. */
  lemma MatchedFromLines(lines: seq<string>)
    ensures forall e :: e in Matched(lines) <==> FromSomeLine(lines, e)
  {
    forall e ensures e in Matched(lines) <==> FromSomeLine(lines, e) {
      if e in Matched(lines) {
        MatchedOnlyFromLines(lines, e);
      }
      if FromSomeLine(lines, e) {
        var i :| 0 <= i < |lines| && ParseLine(lines[i]) == Some(e);
        MatchedAllLines(lines, i, e);
      }
    }
  }

  /** The parser's result: the matched entries, sorted stably by timestamp. */
  function ParseLrc(content: string): (r: seq<Entry>)
    ensures SortedByTime(r)
  {
    SortedIsOrdered(Matched(SplitLines(content)));
    Sorted(Matched(SplitLines(content)))
  }

  /** Each line gives at most one entry. */
  lemma ParseLrcPerLine(content: string)
    ensures |ParseLrc(content)| <= |SplitLines(content)|
  {
    var lines := SplitLines(content);
    assert |Matched(lines)| <= |lines|;
  }

  /** The entries an import sets: `None` when the text is blank (`trim()`
      leaves nothing), the parse of the whole, untrimmed text otherwise. */
  function Imported(content: string): (r: Option<seq<Entry>>)
    ensures r.None? <==> Trim(content) == ""
    ensures r.Some? ==> r.value == ParseLrc(content)
  {
    if Trim(content) == "" then None else Some(ParseLrc(content))
  }

  /** What the parser promises: every timestamp is in range, the result is
      ordered by time, is a permutation of the matched entries and keeps their
      line order within each timestamp. */
  lemma ParseLrcSpec(content: string)
    ensures forall e :: e in ParseLrc(content) ==> 0 <= e.time <= 6039990
    ensures SortedByTime(ParseLrc(content))
    ensures multiset(ParseLrc(content)) == multiset(Matched(SplitLines(content)))
    ensures forall t :: AtTime(ParseLrc(content), t) == AtTime(Matched(SplitLines(content)), t)
  {
    var m := Matched(SplitLines(content));
    SortedIsOrdered(m);
    SortedIsPermutation(m);
    forall t ensures AtTime(Sorted(m), t) == AtTime(m, t) {
      SortedIsStable(m, t);
    }
    forall e | e in Sorted(m) ensures 0 <= e.time <= 6039990 {
      assert e in multiset(Sorted(m));
      MatchedFromLines(SplitLines(content));
    }
  }

  /** An entry is in the result exactly when some line of the text parses to it:
      lines without a marker are dropped, never reported. */
  lemma ParseLrcFromLines(content: string, e: Entry)
    ensures e in ParseLrc(content) <==> FromSomeLine(SplitLines(content), e)
  {
    var m := Matched(SplitLines(content));
    SortedIsPermutation(m);
    MatchedFromLines(SplitLines(content));
    assert e in Sorted(m) <==> e in multiset(Sorted(m));
    assert e in m <==> e in multiset(m);
  }

  /** One more line of the prefix adds that line's entry, if any. */
  lemma MatchedPrefix(lines: seq<string>, i: nat)
    requires i < |lines|
    ensures Matched(lines[..i + 1]) == Matched(lines[..i]) + LineEntries(lines[i])
  {
    assert lines[..i + 1][..i] == lines[..i];
  }

  /** The first loop of `parseLRCFormat`: push the entry of every matching
      line, in line order. */
  method CollectEntries(lines: seq<string>) returns (found: seq<Entry>)
    ensures found == Matched(lines)
  {
    found := [];
    for i := 0 to |lines|
      invariant found == Matched(lines[..i])
    {
      MatchedPrefix(lines, i);
      var m := ParseLine(lines[i]);
      if m.Some? {
        found := found + [m.value];
      }
    }
    assert lines[..|lines|] == lines;
  }

  /** `parseLRCFormat` without its state update: collect the entries of the
      matching lines, then sort them in place. */
  method ParseEntries(content: string) returns (entries: seq<Entry>)
    ensures entries == ParseLrc(content)
    ensures SortedByTime(entries)
    ensures multiset(entries) == multiset(Matched(SplitLines(content)))
  {
    var found := CollectEntries(SplitLines(content));
    var a := new Entry[|found|](k requires 0 <= k < |found| => found[k]);
    assert a[..] == found;
    SortByTime(a);
    entries := a[..];
    ParseLrcSpec(content);
  }

  lemma UpToTerminatorWhole(s: string)
    requires forall k :: 0 <= k < |s| ==> !IsLineTerminator(s[k])
    ensures UpToTerminator(s) == s
  {
    var r := UpToTerminator(s);
    if |r| < |s| {
      assert false;
    }
  }

  lemma TrimUnchanged(s: string)
    requires s != [] && !IsWhitespace(s[0]) && !IsWhitespace(s[|s| - 1])
    ensures Trim(s) == s
  {
    assert TrimStart(s) == s;
    assert TrimEnd(s) == s;
  }

  /** Text that survives the parser unchanged: no line terminator, nothing to trim. */
  predicate PlainText(t: string)
  {
    && t != [] && !IsWhitespace(t[0]) && !IsWhitespace(t[|t| - 1])
    && forall k :: 0 <= k < |t| ==> !IsLineTerminator(t[k])
  }

  /** The entry of a line that starts with a marker and whose text is already trimmed. */
  lemma LineWithMarkerFirst(line: string, e: Entry)
    requires MarkerAt(line, 0)
    requires e.time == MarkerTime(line, 0) && e.text == line[10..]
    requires PlainText(e.text)
    ensures LineEntries(line) == [e]
  {
    ParseLineAt(line, 0);
    UpToTerminatorWhole(e.text);
    TrimUnchanged(e.text);
  }

  /** A marked line whose text needs no trimming parses to its one entry. */
  predicate Marked(line: string, e: Entry)
  {
    && '\n' !in line
    && MarkerAt(line, 0)
    && e.time == MarkerTime(line, 0)
    && e.text == line[10..]
    && PlainText(e.text)
  }

  lemma GatherOne(f: string -> seq<Entry>, line: string)
    ensures Gather(f, [line]) == f(line)
  {
    assert [line][..0] == [];
  }

  lemma GatherTwo(f: string -> seq<Entry>, a: string, b: string)
    ensures Gather(f, [a, b]) == f(a) + f(b)
  {
    assert [a, b][..1] == [a];
    GatherOne(f, a);
  }

  lemma MatchedOne(line: string)
    ensures Matched([line]) == LineEntries(line)
  {
    GatherOne(LineEntries, line);
  }

  lemma MatchedTwo(a: string, b: string)
    ensures Matched([a, b]) == LineEntries(a) + LineEntries(b)
  {
    GatherTwo(LineEntries, a, b);
  }

  lemma OneLine(line: string, e: Entry)
    requires Marked(line, e)
    ensures ParseLrc(line) == [e]
  {
    SplitNoNewline(line);
    LineWithMarkerFirst(line, e);
    MatchedOne(line);
    SortedOne(e);
  }

  /** Two lines without a newline split back into those two lines. */
  lemma SplitTwo(a: string, b: string)
    requires '\n' !in a && '\n' !in b
    ensures SplitLines(a + "\n" + b) == [a, b]
  {
    SplitBeforeNewline(a, b);
    SplitNoNewline(b);
    assert [a] + [b] == [a, b];
  }

  /** Two lines with one entry each match those entries, in line order. */
  lemma MatchedPair(a: string, b: string, ea: Entry, eb: Entry)
    requires LineEntries(a) == [ea] && LineEntries(b) == [eb]
    ensures Matched([a, b]) == [ea, eb]
  {
    MatchedTwo(a, b);
    assert [ea] + [eb] == [ea, eb];
  }

  /** Two marked lines come back ordered by time, the first line first on a tie. */
  lemma TwoLines(a: string, b: string, ea: Entry, eb: Entry)
    requires Marked(a, ea) && Marked(b, eb)
    ensures ParseLrc(a + "\n" + b) == if eb.time < ea.time then [eb, ea] else [ea, eb]
  {
    SplitTwo(a, b);
    LineWithMarkerFirst(a, ea);
    LineWithMarkerFirst(b, eb);
    MatchedPair(a, b, ea, eb);
    SortedTwo(ea, eb);
  }

  /** A marker followed by plain text is a marked line. */
  lemma MarkedLine(marker: string, text: string)
    requires |marker| == 10 && MarkerAt(marker, 0) && PlainText(text)
    ensures Marked(marker + text, Entry(text, MarkerTime(marker, 0)))
  {
    var line := marker + text;
    assert forall k :: 0 <= k < 10 ==> line[k] == marker[k];
    assert line[10..] == text;
    assert MarkerTime(line, 0) == MarkerTime(marker, 0);
    forall k | 0 <= k < |line|
      ensures line[k] != '\n'
    {
      if k >= 10 {
        assert line[k] == text[k - 10];
      }
    }
  }

  /** A line may carry several markers; only the leftmost one counts, and the
      others stay in the text. */
  lemma LeftmostMarkerWins()
    ensures ParseLrc("[00:01.00]" + "[00:02.00]hi") == [Entry("[00:02.00]hi", 1000)]
  {
    ExampleMarkers();
    ExampleTexts();
    MarkedLine("[00:01.00]", "[00:02.00]hi");
    OneLine("[00:01.00]" + "[00:02.00]hi", Entry("[00:02.00]hi", 1000));
  }

  /** Out-of-order lines come back sorted by time. */
  lemma SortsByTimestamp()
    ensures ParseLrc("[00:01.40]Hello" + "\n" + "[00:00.50]World") == [Entry("World", 500), Entry("Hello", 1400)]
  {
    ExampleMarkers();
    ExampleTexts();
    MarkedLine("[00:01.40]", "Hello");
    MarkedLine("[00:00.50]", "World");
    assert "[00:01.40]" + "Hello" == "[00:01.40]Hello";
    assert "[00:00.50]" + "World" == "[00:00.50]World";
    TwoLines("[00:01.40]Hello", "[00:00.50]World", Entry("Hello", 1400), Entry("World", 500));
  }

  /** A marker with nothing after it still gives an entry, with empty text. */
  lemma EmptyTextKept()
    ensures ParseLrc("[00:05.00]") == [Entry("", 5000)]
  {
    EmptyTextLine();
    SplitNoNewline("[00:05.00]");
    MatchedOne("[00:05.00]");
    SortedOne(Entry("", 5000));
  }

  lemma EmptyTextLine()
    ensures '\n' !in "[00:05.00]"
    ensures LineEntries("[00:05.00]") == [Entry("", 5000)]
  {
    var line := "[00:05.00]";
    assert MarkerAt(line, 0) && MarkerTime(line, 0) == 5000;
    ParseLineAt(line, 0);
    assert line[10..] == [];
  }

  lemma ExampleMarkers()
    ensures MarkerAt("[00:01.00]", 0) && MarkerTime("[00:01.00]", 0) == 1000
    ensures MarkerAt("[00:01.40]", 0) && MarkerTime("[00:01.40]", 0) == 1400
    ensures MarkerAt("[00:00.50]", 0) && MarkerTime("[00:00.50]", 0) == 500
  {
  }

  lemma ExampleTexts()
    ensures PlainText("[00:02.00]hi") && PlainText("Hello") && PlainText("World")
  {
  }
}
