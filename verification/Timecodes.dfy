/** Timecoded transcripts: speech-to-text segments are printed as `[MM:SS] text` lines; a second component reads the
    minutes back and strips the markers. */
module Timecodes {
  import opened Common
  import opened PyText
  import opened Seqs

  /** A segment of a transcription response; either field may be absent. */
  datatype Segment = Segment(text: Option<string>, start: Option<real>)

  /** A segment with something to say: its stripped text and its whole start second. */
  datatype Item = Item(text: string, start: int)

  // ---------------------------------------------------------------- numbers

  /** Python's `int` of a float: towards zero. */
  function Truncated(r: real): int {
    if r >= 0.0 then r.Floor else -(-r).Floor
  }

  /** Characters as `str.isdigit` and `int` see them: `value` is the decimal value, or `None` for what `int` refuses.
      There are digits that it refuses, such as the superscript ones. */
  datatype Script = Script(digit: char -> bool, value: char -> Option<nat>)

  predicate AsciiDigit(c: char) {
    '0' <= c <= '9'
  }

  /** ASCII digits count as such, and the punctuation of a marker does not. */
  ghost predicate Sound(d: Script) {
    && (forall c :: AsciiDigit(c) ==> d.digit(c) && d.value(c) == Some((c - '0') as nat))
    && !d.digit('[') && !d.digit(':') && !d.digit(']') && !d.digit('-')
  }

  predicate Digits(d: Script, s: string) {
    s != "" && AllOf(s, d.digit)
  }

  function Decimal(n: nat): (s: string)
    ensures s != "" && AllOf(s, AsciiDigit)
  {
    var last := ['0' + (n % 10) as char];
    if n < 10 then last else Decimal(n / 10) + last
  }

  /** What `int` makes of a string of digits; `None` stands for its ValueError. */
  function Value(d: Script, s: string): Option<nat> {
    if s == "" then Some(0)
    else
      var before, last := Value(d, s[..|s| - 1]), d.value(s[|s| - 1]);
      if before.Some? && last.Some? then Some(before.value * 10 + last.value) else None
  }

  /** `f"{n:02d}"`: the sign counts towards the width. */
  function Padded(n: int): string {
    if n < 0 then "-" + Decimal(-n) else if n < 10 then "0" + Decimal(n) else Decimal(n)
  }

  lemma {:induction false} ValueOfDecimal(d: Script, n: nat)
    requires Sound(d)
    ensures Value(d, Decimal(n)) == Some(n)
  {
    var s := Decimal(n);
    if n >= 10 {
      ValueOfDecimal(d, n / 10);
      assert s[..|s| - 1] == Decimal(n / 10);
    } else {
      assert s[..0] == "" && AsciiDigit(s[0]);
      assert Value(d, s[..0]) == Some(0);
    }
  }

  lemma {:induction false} PaddedReads(d: Script, n: nat)
    requires Sound(d)
    ensures Digits(d, Padded(n)) && Value(d, Padded(n)) == Some(n) && (n < 100 ==> |Padded(n)| == 2)
  {
    ValueOfDecimal(d, n);
    var s := Padded(n);
    assert AllOf(Decimal(n), AsciiDigit);
    assert forall i :: 0 <= i < |s| ==> AsciiDigit(s[i]);
    if n < 10 {
      assert s[..1] == "0" && s[..1][..0] == "" && s[1..] == Decimal(n);
      assert AsciiDigit('0') && Value(d, "") == Some(0);
      assert Value(d, s[..1]) == Some(0);
      assert Decimal(n)[..0] == "";
    } else if n < 100 {
      assert |Decimal(n / 10)| == 1;
    }
  }

  /** A string has a value exactly when all its characters have. */
  lemma {:induction false} ValueIff(d: Script, s: string)
    ensures Value(d, s).Some? <==> forall i :: 0 <= i < |s| ==> d.value(s[i]).Some?
  {
    if s != "" {
      ValueIff(d, s[..|s| - 1]);
    }
  }

  // ---------------------------------------------------------------- printing

  function Stamp(start: int): string {
    "[" + Padded(start / 60) + ":" + Padded(start % 60) + "]"
  }

  function Line(i: Item): string {
    Stamp(i.start) + " " + i.text
  }

  function TextOf(s: Segment): string {
    if s.text.Some? then Strip(s.text.value) else ""
  }

  function StartOf(s: Segment): int {
    if s.start.Some? then Truncated(s.start.value) else 0
  }

  /** Neither empty nor with white space at an end. */
  predicate Trimmed(s: string) {
    s != "" && !Space(s[0]) && !Space(s[|s| - 1])
  }

  predicate AllTrimmed(items: seq<Item>) {
    forall i :: 0 <= i < |items| ==> Trimmed(items[i].text)
  }

  function ItemsOf(s: Segment): (r: seq<Item>)
    ensures AllTrimmed(r)
  {
    if TextOf(s) == "" then [] else [Item(TextOf(s), StartOf(s))]
  }

  lemma {:induction false} AllTrimmedAppend(a: seq<Item>, b: seq<Item>)
    requires AllTrimmed(a) && AllTrimmed(b)
    ensures AllTrimmed(a + b)
  {
  }

  function Items(segments: seq<Segment>): (r: seq<Item>)
    ensures AllTrimmed(r)
  {
    if segments == [] then []
    else
      var earlier, last := Items(segments[..|segments| - 1]), ItemsOf(segments[|segments| - 1]);
      AllTrimmedAppend(earlier, last);
      earlier + last
  }

  function Lines(items: seq<Item>): seq<string> {
    seq(|items|, i requires 0 <= i < |items| => Line(items[i]))
  }

  function Texts(items: seq<Item>): seq<string> {
    seq(|items|, i requires 0 <= i < |items| => items[i].text)
  }

  /** `"\n".join(lines)`. */
  function JoinLines(lines: seq<string>): string {
    if lines == [] then ""
    else if |lines| == 1 then lines[0]
    else lines[0] + "\n" + JoinLines(lines[1..])
  }

  /** The transcript of a response with the given segments and plain text. */
  function Transcript(segments: seq<Segment>, plain: string): string {
    var items := Items(segments);
    if items == [] then plain else JoinLines(Lines(items))
  }

  // ---------------------------------------------------------------- reading

  predicate LineBreak(c: char) {
    || '\n' <= c <= '\r' || '\U{001C}' <= c <= '\U{001E}' || c == '\U{0085}'
    || c == '\U{2028}' || c == '\U{2029}'
  }

  predicate OneLine(s: string) {
    forall i :: 0 <= i < |s| ==> !LineBreak(s[i])
  }

  predicate AllOneLine(lines: seq<string>) {
    forall i :: 0 <= i < |lines| ==> OneLine(lines[i])
  }

  /** `str.splitlines`: CR LF is one break, and a break at the end opens no further line. */
  function SplitLines(s: string): (r: seq<string>)
    ensures s != "" <==> r != []
  {
    if s == "" then []
    else if LineBreak(s[0]) then [""] + SplitLines(if |s| > 1 && s[0] == '\r' && s[1] == '\n' then s[2..] else s[1..])
    else
      var r := SplitLines(s[1..]);
      if r == [] then [s] else [[s[0]] + r[0]] + r[1..]
  }

  /** `Refused` stands for the ValueError of `int`. */
  datatype Minute = NoMinute | Minute(n: nat) | Refused

  function ParseLineMinute(d: Script, line: string): Minute {
    var stripped := TrimStart(line, Space);
    var close := Find(stripped, ']');
    if stripped == "" || stripped[0] != '[' || close == |stripped| then NoMinute
    else
      var inner := stripped[1..close];
      var colon := Find(inner, ':');
      if colon == |inner| then NoMinute
      else if !Digits(d, inner[..colon]) then NoMinute
      else if |inner| - colon - 1 != 2 || !Digits(d, inner[colon + 1..]) then NoMinute
      else MinuteOf(d, inner[..colon])
  }

  function MinuteOf(d: Script, m: string): Minute {
    var n := Value(d, m);
    if n.Some? then Minute(n.value) else Refused
  }

  /** What is left of a line that is read without an error. */
  function StripLine(d: Script, line: string): string {
    if ParseLineMinute(d, line).NoMinute? then line
    else
      var stripped := TrimStart(line, Space);
      TrimStart(stripped[Find(stripped, ']') + 1..], Space)
  }

  function Mapped(f: string -> string, lines: seq<string>): (r: seq<string>)
    ensures |r| == |lines| && forall i :: 0 <= i < |lines| ==> r[i] == f(lines[i])
  {
    seq(|lines|, i requires 0 <= i < |lines| => f(lines[i]))
  }

  function Stripper(d: Script): string -> string {
    line => StripLine(d, line)
  }

  function StripLines(d: Script, lines: seq<string>): seq<string> {
    Mapped(Stripper(d), lines)
  }

  predicate NoneRefused(d: Script, lines: seq<string>) {
    forall i :: 0 <= i < |lines| ==> !ParseLineMinute(d, lines[i]).Refused?
  }

  /** `None` when reading some line's minute fails, which nothing catches. */
  function StripTimecodes(d: Script, text: string): Option<string> {
    if NoneRefused(d, SplitLines(text)) then Some(JoinLines(StripLines(d, SplitLines(text)))) else None
  }

  // ---------------------------------------------------------------- one line

  lemma {:induction false} FindFirst(s: string, c: char, k: nat)
    requires k < |s| && s[k] == c && forall i :: 0 <= i < k ==> s[i] != c
    ensures Find(s, c) == k
  {
  }

  lemma {:induction false} TrimStartAfter(blank: string, s: string)
    requires Blank(blank) && (s != "" ==> !Space(s[0]))
    ensures TrimStart(blank + s, Space) == s
  {
    if blank == "" {
      assert blank + s == s;
    } else {
      assert Space(blank[0]);
      assert (blank + s)[1..] == blank[1..] + s;
      TrimStartAfter(blank[1..], s);
    }
  }

  function Marker(m: string, s: string): string {
    "[" + m + ":" + s + "]"
  }

  /** `line` is white space, a marker with minutes `m` and seconds `s` in digits, and `rest`. */
  ghost predicate Marked(d: Script, line: string, m: string, s: string, rest: string) {
    exists blank :: Blank(blank) && Digits(d, m) && Digits(d, s) && |s| == 2 && line == blank + (Marker(m, s) + rest)
  }

  lemma {:induction false} BracketFound(d: Script, m: string, s: string, rest: string)
    requires Sound(d) && Digits(d, m) && Digits(d, s)
    ensures var t := Marker(m, s) + rest; Find(t, ']') == |m| + |s| + 2
  {
    var t := Marker(m, s) + rest;
    var close := |m| + |s| + 2;
    forall i | 0 <= i < close ensures t[i] != ']' {
      if 0 < i <= |m| {
        assert t[i] == m[i - 1] && d.digit(m[i - 1]);
      } else if |m| + 1 < i {
        assert t[i] == s[i - |m| - 2] && d.digit(s[i - |m| - 2]);
      }
    }
    assert t[close] == ']';
    FindFirst(t, ']', close);
  }

  lemma {:induction false} ColonFound(d: Script, m: string, s: string)
    requires Sound(d) && Digits(d, m)
    ensures var inner := m + ":" + s;
            Find(inner, ':') == |m| && inner[..|m|] == m && inner[|m| + 1..] == s && |inner| == |m| + 1 + |s|
  {
    var inner := m + ":" + s;
    forall i | 0 <= i < |m| ensures inner[i] != ':' {
      assert inner[i] == m[i] && d.digit(m[i]);
    }
    FindFirst(inner, ':', |m|);
  }

  lemma {:induction false} MarkerParts(m: string, s: string, rest: string)
    ensures var t := Marker(m, s) + rest;
            && t[0] == '[' && |t| == |m| + |s| + 3 + |rest|
            && t[1..|m| + |s| + 2] == m + ":" + s && t[|m| + |s| + 3..] == rest
  {
  }

  /** A marker is read, and stripped together with the white space around it. */
  lemma {:induction false} MarkedReads(d: Script, line: string, m: string, s: string, rest: string)
    requires Sound(d) && Marked(d, line, m, s, rest)
    ensures ParseLineMinute(d, line) == MinuteOf(d, m)
    ensures StripLine(d, line) == TrimStart(rest, Space)
  {
    var blank :| Blank(blank) && Digits(d, m) && Digits(d, s) && |s| == 2 && line == blank + (Marker(m, s) + rest);
    MarkerParts(m, s, rest);
    BracketFound(d, m, s, rest);
    TrimStartAfter(blank, Marker(m, s) + rest);
    InnerReads(d, line, Marker(m, s) + rest, m, s);
  }

  lemma {:induction false} InnerReads(d: Script, line: string, t: string, m: string, s: string)
    requires Sound(d) && Digits(d, m) && Digits(d, s) && |s| == 2 && t == TrimStart(line, Space) && |t| > |m| + 4
             && t[0] == '['
    requires Find(t, ']') == |m| + 4 && t[1..|m| + 4] == m + ":" + s
    ensures ParseLineMinute(d, line) == MinuteOf(d, m) && StripLine(d, line) == TrimStart(t[|m| + 5..], Space)
  {
    ColonFound(d, m, s);
  }

  lemma {:induction false} ReadFinds(d: Script, line: string) returns (t: string, close: nat, colon: nat)
    requires !ParseLineMinute(d, line).NoMinute?
    ensures t == TrimStart(line, Space) && 0 < close < |t| && t[0] == '[' && t[close] == ']'
    ensures colon < close - 1 && t[1..close][colon] == ':'
    ensures var m, s := t[1..close][..colon], t[1..close][colon + 1..]; Digits(d, m) && Digits(d, s) && |s| == 2
  {
    t := TrimStart(line, Space);
    close := Find(t, ']');
    colon := Find(t[1..close], ':');
  }

  lemma {:induction false} ReadGivesMarker(d: Script, line: string) returns (m: string, s: string, rest: string)
    requires !ParseLineMinute(d, line).NoMinute?
    ensures Marked(d, line, m, s, rest)
  {
    var t, close, colon := ReadFinds(d, line);
    var inner := t[1..close];
    m, s, rest := inner[..colon], inner[colon + 1..], t[close + 1..];
    InnerIs(inner, colon);
    TextIsMarker(t, close, m, s);
    MarkedAfterBlank(d, line, t, m, s, rest);
  }

  lemma {:induction false} InnerIs(inner: string, colon: nat)
    requires colon < |inner| && inner[colon] == ':'
    ensures inner == inner[..colon] + ":" + inner[colon + 1..]
  {
  }

  lemma {:induction false} TextIsMarker(t: string, close: nat, m: string, s: string)
    requires 0 < close < |t| && t[0] == '[' && t[close] == ']' && t[1..close] == m + ":" + s
    ensures t == Marker(m, s) + t[close + 1..]
  {
  }

  lemma {:induction false} MarkedAfterBlank(d: Script, line: string, t: string, m: string, s: string, rest: string)
    requires t == TrimStart(line, Space) && t == Marker(m, s) + rest && Digits(d, m) && Digits(d, s) && |s| == 2
    ensures Marked(d, line, m, s, rest)
  {
    var blank := line[..|line| - |t|];
    assert line == blank + t;
    assert Blank(blank) && line == blank + (Marker(m, s) + rest);
  }

  /** A line has a minute, or is refused, exactly when it has a marker; other lines stay as they are. */
  lemma {:induction false} ReadIsMarked(d: Script, line: string)
    requires Sound(d)
    ensures !ParseLineMinute(d, line).NoMinute? <==> exists m, s, rest :: Marked(d, line, m, s, rest)
    ensures ParseLineMinute(d, line).NoMinute? ==> StripLine(d, line) == line
  {
    if !ParseLineMinute(d, line).NoMinute? {
      var m, s, rest := ReadGivesMarker(d, line);
    }
    if m, s, rest :| Marked(d, line, m, s, rest) {
      MarkedReads(d, line, m, s, rest);
    }
  }

  /** Some digit of `m` has no decimal value. */
  predicate HasOddDigit(d: Script, m: string) {
    exists i :: 0 <= i < |m| && d.value(m[i]).None?
  }

  /** The line has a marker with a digit among its minutes that has no decimal value. */
  ghost predicate OddlyMarked(d: Script, line: string) {
    exists m, s, rest :: Marked(d, line, m, s, rest) && HasOddDigit(d, m)
  }

  /** A line is refused exactly when it has such a marker. */
  lemma {:induction false} RefusedIff(d: Script, line: string)
    requires Sound(d)
    ensures ParseLineMinute(d, line).Refused? <==> OddlyMarked(d, line)
  {
    if ParseLineMinute(d, line).Refused? {
      var m, s, rest := ReadGivesMarker(d, line);
      MarkedRefusedIff(d, line, m, s, rest);
    }
    if m, s, rest :| Marked(d, line, m, s, rest) && HasOddDigit(d, m) {
      MarkedRefusedIff(d, line, m, s, rest);
    }
  }

  lemma {:induction false} MarkedRefusedIff(d: Script, line: string, m: string, s: string, rest: string)
    requires Sound(d) && Marked(d, line, m, s, rest)
    ensures ParseLineMinute(d, line).Refused? <==> HasOddDigit(d, m)
  {
    MarkedReads(d, line, m, s, rest);
    MinuteRefusedIff(d, m);
  }

  lemma {:induction false} MinuteRefusedIff(d: Script, m: string)
    ensures MinuteOf(d, m).Refused? <==> HasOddDigit(d, m)
  {
    ValueIff(d, m);
  }

  /** Stripping a text is total exactly when none of its lines has such a marker. */
  lemma {:induction false} StripTotalIff(d: Script, text: string)
    requires Sound(d)
    ensures StripTimecodes(d, text).Some? <==> forall line :: line in SplitLines(text) ==> !OddlyMarked(d, line)
  {
    var lines := SplitLines(text);
    forall line | line in lines
      ensures ParseLineMinute(d, line).Refused? <==> OddlyMarked(d, line)
    {
      RefusedIff(d, line);
    }
    NoneRefusedIff(d, lines);
  }

  lemma {:induction false} NoneRefusedIff(d: Script, lines: seq<string>)
    ensures NoneRefused(d, lines) <==> forall line :: line in lines ==> !ParseLineMinute(d, line).Refused?
  {
    if forall line :: line in lines ==> !ParseLineMinute(d, line).Refused? {
      forall i | 0 <= i < |lines|
        ensures !ParseLineMinute(d, lines[i]).Refused?
      {
        assert lines[i] in lines;
      }
    }
  }

  /** A printed line gives its minute and its text back exactly when its start second is not negative. */
  lemma {:induction false} LineReads(d: Script, i: Item)
    requires Sound(d) && i.text != "" && !Space(i.text[0])
    ensures i.start >= 0 ==> ParseLineMinute(d, Line(i)) == Minute(i.start / 60) && StripLine(d, Line(i)) == i.text
    ensures i.start < 0 ==> ParseLineMinute(d, Line(i)) == NoMinute && StripLine(d, Line(i)) != i.text
  {
    if i.start >= 0 {
      LineIsMarked(d, i);
      MarkedReads(d, Line(i), Padded(i.start / 60), Padded(i.start % 60), " " + i.text);
      TrimStartAfter(" ", i.text);
    } else {
      NegativeUnread(d, i, Padded(i.start / 60), Padded(i.start % 60));
    }
  }

  lemma {:induction false} LineIsMarked(d: Script, i: Item)
    requires Sound(d) && i.start >= 0
    ensures Marked(d, Line(i), Padded(i.start / 60), Padded(i.start % 60), " " + i.text)
    ensures Value(d, Padded(i.start / 60)) == Some(i.start / 60) && Blank(" ")
  {
    var m, s := Padded(i.start / 60), Padded(i.start % 60);
    PaddedReads(d, i.start % 60);
    PaddedReads(d, i.start / 60);
    assert Stamp(i.start) == Marker(m, s) && Line(i) == "" + (Marker(m, s) + (" " + i.text));
  }

  lemma {:induction false} NegativeUnread(d: Script, i: Item, m: string, s: string)
    requires Sound(d) && i.start < 0 && m == Padded(i.start / 60) && s == Padded(i.start % 60)
    ensures ParseLineMinute(d, Line(i)) == NoMinute && StripLine(d, Line(i)) == Line(i) && |Line(i)| > |i.text|
  {
    var line := Line(i);
    assert line[0] == '[' && line[1] == '-' && !Space('[');
    assert TrimStart(line, Space) == line;
    var close := Find(line, ']');
    var inner := line[1..close];
    var colon := Find(inner, ':');
    if close < |line| && colon < |inner| {
      assert inner[0] == '-';
      assert colon > 0 ==> inner[..colon][0] == '-' && !d.digit('-');
    }
  }

  // ---------------------------------------------------------------- whole transcripts

  /** A text that does not end in a break, a line feed and more: the lines of the one and then those of the other. */
  lemma {:induction false} SplitAround(a: string, b: string)
    requires a != "" && !LineBreak(a[|a| - 1])
    ensures SplitLines(a + "\n" + b) == SplitLines(a) + SplitLines(b)
    decreases |a|
  {
    if |a| == 1 {
      SplitAfterOne(a, b);
    } else if LineBreak(a[0]) {
      SplitAfterBreak(a, b);
    } else {
      var s := a + "\n" + b;
      SplitAround(a[1..], b);
      assert s[1..] == a[1..] + "\n" + b && s[0] == a[0];
      LongerHead([a[0]], SplitLines(a[1..]), SplitLines(b));
    }
  }

  lemma {:induction false} SplitAfterOne(a: string, b: string)
    requires |a| == 1 && !LineBreak(a[0])
    ensures SplitLines(a + "\n" + b) == SplitLines(a) + SplitLines(b)
  {
    var s, t := a + "\n" + b, "\n" + b;
    assert s[1..] == t && t[0] == '\n' && t[1..] == b;
    assert SplitLines(t) == [""] + SplitLines(b);
    assert a == [a[0]] && a[0] == s[0] && [s[0]] + "" == a;
    assert SplitLines(a) == [a];
    assert ([""] + SplitLines(b))[1..] == SplitLines(b);
  }

  lemma {:induction false} SplitAfterBreak(a: string, b: string)
    requires |a| > 1 && LineBreak(a[0]) && !LineBreak(a[|a| - 1])
    ensures SplitLines(a + "\n" + b) == SplitLines(a) + SplitLines(b)
    decreases |a|, 0
  {
    var s := a + "\n" + b;
    var k := if a[0] == '\r' && a[1] == '\n' then 2 else 1;
    assert s[0] == a[0] && s[1] == a[1];
    assert s[k..] == a[k..] + "\n" + b;
    SplitAround(a[k..], b);
    Regroup([""], SplitLines(a[k..]), SplitLines(b));
  }

  lemma {:induction false} LongerHead(h: string, q: seq<string>, r: seq<string>)
    requires q != []
    ensures [h + (q + r)[0]] + (q + r)[1..] == ([h + q[0]] + q[1..]) + r
  {
    assert (q + r)[1..] == q[1..] + r;
  }

  /** A prefix without breaks goes to the first line. */
  lemma {:induction false} SplitPrefixed(p: string, t: string)
    requires OneLine(p) && t != ""
    ensures SplitLines(p + t) == [p + SplitLines(t)[0]] + SplitLines(t)[1..]
  {
    var l := SplitLines(t);
    if p == "" {
      assert p + t == t && p + l[0] == l[0];
      HeadAndTail(l);
    } else {
      assert (p + t)[1..] == p[1..] + t && (p + t)[0] == p[0];
      SplitPrefixed(p[1..], t);
      var r := SplitLines(p[1..] + t);
      assert r[0] == p[1..] + l[0] && r[1..] == l[1..];
      assert [p[0]] + (p[1..] + l[0]) == p + l[0];
    }
  }

  lemma {:induction false} StampOneLine(start: int)
    ensures OneLine(Stamp(start) + " ")
  {
    DecimalOneLine(start / 60);
    DecimalOneLine(start % 60);
    OneLineMarker(Padded(start / 60), Padded(start % 60));
  }

  lemma {:induction false} OneLineMarker(m: string, s: string)
    requires OneLine(m) && OneLine(s)
    ensures OneLine("[" + m + ":" + s + "]" + " ")
  {
  }

  lemma {:induction false} DecimalOneLine(n: int)
    ensures OneLine(Padded(n)) && Padded(n) != ""
  {
  }

  /** The lines of a printed segment: those of its text, the first with the stamp before it. */
  lemma {:induction false} PrintedItem(i: Item)
    requires Trimmed(i.text)
    ensures var l := SplitLines(i.text);
            SplitLines(Line(i)) == [Line(Item(l[0], i.start))] + l[1..]
  {
    StampOneLine(i.start);
    SplitPrefixed(Stamp(i.start) + " ", i.text);
  }

  /** The lines of all texts, one text after the other. */
  function SplitEach(texts: seq<string>): seq<string> {
    if texts == [] then [] else SplitLines(texts[0]) + SplitEach(texts[1..])
  }

  predicate EndsInText(s: string) {
    s != "" && !LineBreak(s[|s| - 1])
  }

  lemma {:induction false} SplitJoined(texts: seq<string>)
    requires forall i :: 0 <= i < |texts| ==> EndsInText(texts[i])
    ensures SplitLines(JoinLines(texts)) == SplitEach(texts)
  {
    if |texts| == 1 {
      assert SplitEach(texts[1..]) == [];
    } else if texts != [] {
      SplitJoined(texts[1..]);
      SplitAround(texts[0], JoinLines(texts[1..]));
    }
  }

  lemma {:induction false} LinesEndInText(items: seq<Item>)
    requires AllTrimmed(items)
    ensures forall i :: 0 <= i < |items| ==> EndsInText(Lines(items)[i]) && EndsInText(Texts(items)[i])
  {
    forall i | 0 <= i < |items| ensures EndsInText(Lines(items)[i]) && EndsInText(Texts(items)[i]) {
      assert Trimmed(items[i].text);
      LineEnd(items[i]);
    }
  }

  lemma {:induction false} LineEnd(i: Item)
    requires Trimmed(i.text)
    ensures EndsInText(Line(i))
  {
    assert Line(i)[|Line(i)| - 1] == i.text[|i.text| - 1];
  }

  lemma {:induction false} SplitTranscript(items: seq<Item>)
    requires AllTrimmed(items)
    ensures SplitLines(JoinLines(Lines(items))) == SplitEach(Lines(items))
  {
    LinesEndInText(items);
    SplitJoined(Lines(items));
  }

  // ---------------------------------------------------------------- joining

  predicate OnlyLineFeeds(s: string) {
    forall i :: 0 <= i < |s| && LineBreak(s[i]) ==> s[i] == '\n'
  }

  predicate FeedFree(lines: seq<string>) {
    forall i :: 0 <= i < |lines| ==> '\n' !in lines[i]
  }

  /** Lists of as many lines without line feeds that join to the same text are the same. */
  lemma {:induction false} JoinInjective(a: seq<string>, b: seq<string>)
    requires |a| == |b| && FeedFree(a) && FeedFree(b) && JoinLines(a) == JoinLines(b)
    ensures a == b
  {
    if |a| > 1 {
      FirstFeed(a[0], JoinLines(a[1..]));
      FirstFeed(b[0], JoinLines(b[1..]));
      JoinInjective(a[1..], b[1..]);
      HeadAndTail(a);
      HeadAndTail(b);
    }
  }

  lemma {:induction false} FirstFeed(line: string, rest: string)
    requires '\n' !in line
    ensures var s := line + "\n" + rest;
            Find(s, '\n') == |line| && s[..|line|] == line && s[|line| + 1..] == rest
  {
    var s := line + "\n" + rest;
    forall i | 0 <= i < |line| ensures s[i] != '\n' {
      assert s[i] == line[i];
    }
    FindFirst(s, '\n', |line|);
  }

  lemma {:induction false} JoinFeeds(lines: seq<string>)
    ensures OnlyLineFeeds(JoinLines(lines)) <==> forall i :: 0 <= i < |lines| ==> OnlyLineFeeds(lines[i])
  {
    if |lines| == 1 {
      assert JoinLines(lines) == lines[0];
    } else if lines != [] {
      var rest := JoinLines(lines[1..]);
      JoinFeeds(lines[1..]);
      FeedsAround(lines[0], rest);
      assert forall i :: 1 <= i < |lines| ==> lines[i] == lines[1..][i - 1];
    }
  }

  lemma {:induction false} FeedsAround(a: string, b: string)
    ensures OnlyLineFeeds(a + "\n" + b) <==> OnlyLineFeeds(a) && OnlyLineFeeds(b)
  {
    var s := a + "\n" + b;
    if OnlyLineFeeds(s) {
      assert forall i :: 0 <= i < |a| ==> a[i] == s[i];
      assert forall i :: 0 <= i < |b| ==> b[i] == s[|a| + 1 + i];
    }
  }

  /** A text whose breaks are line feeds, and which does not end in one, is its lines joined. */
  lemma {:induction false} JoinOfSplit(s: string)
    requires OnlyLineFeeds(s) && (s != "" ==> !LineBreak(s[|s| - 1]))
    ensures JoinLines(SplitLines(s)) == s
  {
    if s != "" {
      assert OnlyLineFeeds(s[1..]);
      JoinOfSplit(s[1..]);
      var r := SplitLines(s[1..]);
      if s[0] == '\n' {
        assert ([""] + r)[1..] == r;
      } else if r != [] {
        LongerJoin(s[0], r);
      }
      HeadAndTail(s);
    }
  }

  lemma {:induction false} LongerJoin(c: char, r: seq<string>)
    requires r != []
    ensures JoinLines([[c] + r[0]] + r[1..]) == [c] + JoinLines(r)
  {
    var l := [[c] + r[0]] + r[1..];
    assert l[1..] == r[1..];
    if |r| > 1 {
      assert ([c] + r[0]) + "\n" + JoinLines(r[1..]) == [c] + (r[0] + "\n" + JoinLines(r[1..]));
    }
  }

  lemma {:induction false} JoinConcat(a: seq<string>, b: seq<string>)
    requires a != [] && b != []
    ensures JoinLines(a + b) == JoinLines(a) + "\n" + JoinLines(b)
  {
    if |a| == 1 {
      assert (a + b)[1..] == b;
    } else {
      assert (a + b)[1..] == a[1..] + b;
      JoinConcat(a[1..], b);
    }
  }

  /** Texts whose breaks are line feeds, joined, are all their lines joined. */
  lemma {:induction false} JoinSplitEach(texts: seq<string>)
    requires forall i :: 0 <= i < |texts| ==> EndsInText(texts[i]) && OnlyLineFeeds(texts[i])
    ensures JoinLines(SplitEach(texts)) == JoinLines(texts)
  {
    if texts != [] {
      JoinOfSplit(texts[0]);
      JoinSplitEach(texts[1..]);
      if |texts| == 1 {
        assert SplitEach(texts) == SplitLines(texts[0]);
      } else {
        assert EndsInText(texts[1..][0]);
        JoinConcat(SplitLines(texts[0]), SplitEach(texts[1..]));
      }
    }
  }

  // ---------------------------------------------------------------- when stripping restores

  predicate Unmarked(d: Script, line: string) {
    ParseLineMinute(d, line).NoMinute?
  }

  /** The segment's start is printed without a sign, and its text has no breaks but line feeds and no later line that
      looks like a printed one. */
  predicate Restorable(d: Script, i: Item) {
    && i.start >= 0 && OnlyLineFeeds(i.text)
    && forall j :: 1 <= j < |SplitLines(i.text)| ==> Unmarked(d, SplitLines(i.text)[j])
  }

  lemma {:induction false} MarkedShrinks(d: Script, line: string)
    ensures StripLine(d, line) == line <==> Unmarked(d, line)
  {
  }

  lemma {:induction false} StrippedFirst(d: Script, l: string, start: int)
    requires Sound(d) && l != "" && !Space(l[0])
    ensures StripLine(d, Line(Item(l, start))) == l <==> start >= 0
  {
    LineReads(d, Item(l, start));
  }

  /** The first line of a trimmed text has text at its start. */
  lemma {:induction false} FirstLine(s: string)
    requires Trimmed(s)
    ensures SplitLines(s)[0] != "" && SplitLines(s)[0][0] == s[0]
  {
  }

  lemma {:induction false} MappedIff(f: string -> string, g: string -> bool, p: string, l: seq<string>)
    requires l != [] && forall x :: f(x) == x <==> g(x)
    ensures Mapped(f, [p] + l[1..]) == l <==> f(p) == l[0] && forall j :: 1 <= j < |l| ==> g(l[j])
  {
    var lines := [p] + l[1..];
    assert forall j :: 1 <= j < |l| ==> lines[j] == l[j];
    if f(p) == l[0] && forall j :: 1 <= j < |l| ==> g(l[j]) {
      assert forall j :: 0 <= j < |l| ==> Mapped(f, lines)[j] == l[j];
    }
    if Mapped(f, lines) == l {
      assert Mapped(f, lines)[0] == f(p);
      assert forall j :: 1 <= j < |l| ==> Mapped(f, lines)[j] == f(l[j]);
    }
  }

  lemma {:induction false} StripLinesIff(d: Script, p: string, l: seq<string>)
    requires l != []
    ensures StripLines(d, [p] + l[1..]) == l <==>
            StripLine(d, p) == l[0] && forall j :: 1 <= j < |l| ==> Unmarked(d, l[j])
  {
    forall x: string ensures Stripper(d)(x) == x <==> Unmarked(d, x) {
      MarkedShrinks(d, x);
    }
    MappedIff(Stripper(d), x => Unmarked(d, x), p, l);
  }

  lemma {:induction false} ItemRestores(d: Script, i: Item)
    requires Sound(d) && Trimmed(i.text)
    ensures |SplitLines(Line(i))| == |SplitLines(i.text)|
    ensures OnlyLineFeeds(i.text) ==> (StripLines(d, SplitLines(Line(i))) == SplitLines(i.text) <==> Restorable(d, i))
  {
    var l := SplitLines(i.text);
    PrintedItem(i);
    FirstLine(i.text);
    StrippedFirst(d, l[0], i.start);
    StripLinesIff(d, Line(Item(l[0], i.start)), l);
  }

  lemma {:induction false} StripLinesConcat(d: Script, a: seq<string>, b: seq<string>)
    ensures StripLines(d, a + b) == StripLines(d, a) + StripLines(d, b)
  {
    forall i | 0 <= i < |a + b| ensures StripLines(d, a + b)[i] == (StripLines(d, a) + StripLines(d, b))[i] {
      assert (a + b)[i] == if i < |a| then a[i] else b[i - |a|];
    }
  }

  lemma {:induction false} ConcatEqual<T>(a: seq<T>, b: seq<T>, c: seq<T>, d: seq<T>)
    requires |a| == |c|
    ensures a + b == c + d <==> a == c && b == d
  {
    if a + b == c + d {
      assert a == (a + b)[..|a|] && c == (c + d)[..|c|];
      assert b == (a + b)[|a|..] && d == (c + d)[|c|..];
    }
  }

  predicate AllRestorable(d: Script, items: seq<Item>) {
    forall i :: 0 <= i < |items| ==> Restorable(d, items[i])
  }

  predicate LinesRestored(d: Script, printed: string, text: string) {
    StripLines(d, SplitLines(printed)) == SplitLines(text)
  }

  predicate AllLinesRestored(d: Script, printed: seq<string>, texts: seq<string>)
    requires |printed| == |texts|
  {
    forall i :: 0 <= i < |texts| ==> LinesRestored(d, printed[i], texts[i])
  }

  predicate SameCounts(printed: seq<string>, texts: seq<string>) {
    |printed| == |texts| && forall i :: 0 <= i < |texts| ==> |SplitLines(printed[i])| == |SplitLines(texts[i])|
  }

  lemma {:induction false} AllLinesRestoredCons(d: Script, printed: seq<string>, texts: seq<string>)
    requires |printed| == |texts| && texts != []
    ensures AllLinesRestored(d, printed, texts) <==>
            LinesRestored(d, printed[0], texts[0]) && AllLinesRestored(d, printed[1..], texts[1..])
  {
    if LinesRestored(d, printed[0], texts[0]) && AllLinesRestored(d, printed[1..], texts[1..]) {
      forall i | 0 <= i < |texts| ensures LinesRestored(d, printed[i], texts[i]) {
        if i > 0 {
          assert printed[1..][i - 1] == printed[i] && texts[1..][i - 1] == texts[i];
        }
      }
    }
  }

  lemma {:induction false} EachRestored(d: Script, printed: seq<string>, texts: seq<string>)
    requires SameCounts(printed, texts)
    ensures |SplitEach(printed)| == |SplitEach(texts)|
    ensures StripLines(d, SplitEach(printed)) == SplitEach(texts) <==> AllLinesRestored(d, printed, texts)
  {
    if texts != [] {
      EachRestored(d, printed[1..], texts[1..]);
      StripLinesConcat(d, SplitLines(printed[0]), SplitEach(printed[1..]));
      ConcatEqual(StripLines(d, SplitLines(printed[0])), StripLines(d, SplitEach(printed[1..])), SplitLines(texts[0]),
                  SplitEach(texts[1..]));
      AllLinesRestoredCons(d, printed, texts);
    }
  }

  /** Printed segments have as many lines as their texts. */
  lemma {:induction false} PrintedCounts(items: seq<Item>)
    requires AllTrimmed(items)
    ensures SameCounts(Lines(items), Texts(items))
  {
    forall i | 0 <= i < |items| ensures |SplitLines(Lines(items)[i])| == |SplitLines(Texts(items)[i])| {
      assert Trimmed(items[i].text);
      PrintedItem(items[i]);
    }
  }

  lemma {:induction false} ItemsRestore(d: Script, items: seq<Item>)
    requires Sound(d) && AllTrimmed(items) && forall i :: 0 <= i < |items| ==> OnlyLineFeeds(items[i].text)
    ensures |SplitEach(Lines(items))| == |SplitEach(Texts(items))|
    ensures StripLines(d, SplitEach(Lines(items))) == SplitEach(Texts(items)) <==> AllRestorable(d, items)
  {
    var printed, texts := Lines(items), Texts(items);
    forall i | 0 <= i < |items| ensures LinesRestored(d, printed[i], texts[i]) <==> Restorable(d, items[i]) {
      assert Trimmed(items[i].text);
      ItemRestores(d, items[i]);
    }
    PrintedCounts(items);
    EachRestored(d, printed, texts);
  }

  lemma {:induction false} TrimStartOneLine(s: string)
    requires OneLine(s)
    ensures OneLine(TrimStart(s, Space))
  {
  }

  lemma {:induction false} StripLineOneLine(d: Script, line: string)
    requires OneLine(line)
    ensures OneLine(StripLine(d, line))
  {
    TrimStartOneLine(line);
    if !ParseLineMinute(d, line).NoMinute? {
      var t := TrimStart(line, Space);
      TrimStartOneLine(t[Find(t, ']') + 1..]);
    }
  }

  lemma {:induction false} OneLineFeeds(lines: seq<string>)
    requires AllOneLine(lines)
    ensures FeedFree(lines) && OnlyLineFeeds(JoinLines(lines))
  {
    JoinFeeds(lines);
    forall i | 0 <= i < |lines| ensures '\n' !in lines[i] {
      assert OneLine(lines[i]);
    }
  }

  lemma {:induction false} SplitOneLines(s: string)
    ensures AllOneLine(SplitLines(s))
    decreases |s|
  {
    if s != "" && LineBreak(s[0]) {
      SplitOneLines(if |s| > 1 && s[0] == '\r' && s[1] == '\n' then s[2..] else s[1..]);
    } else if s != "" {
      SplitOneLines(s[1..]);
    }
  }

  lemma {:induction false} SplitEachOneLines(texts: seq<string>)
    ensures AllOneLine(SplitEach(texts))
  {
    if texts != [] {
      SplitOneLines(texts[0]);
      SplitEachOneLines(texts[1..]);
    }
  }

  lemma {:induction false} StripLinesOneLine(d: Script, lines: seq<string>)
    requires AllOneLine(lines)
    ensures AllOneLine(StripLines(d, lines))
  {
    forall i | 0 <= i < |lines| ensures OneLine(StripLines(d, lines)[i]) {
      StripLineOneLine(d, lines[i]);
    }
  }

  /** Stripping the joined lines gives the joined texts back exactly when every segment is restorable. */
  lemma {:induction false} StripRestoresItems(d: Script, items: seq<Item>)
    requires Sound(d) && AllTrimmed(items)
    ensures StripTimecodes(d, JoinLines(Lines(items))) == Some(JoinLines(Texts(items))) <==> AllRestorable(d, items)
  {
    SplitTranscript(items);
    if StripTimecodes(d, JoinLines(Lines(items))) == Some(JoinLines(Texts(items))) {
      RestoredMeans(d, items);
    }
    if AllRestorable(d, items) {
      forall i | 0 <= i < |items| ensures OnlyLineFeeds(items[i].text) && OnlyLineFeeds(Texts(items)[i]) {
        assert Restorable(d, items[i]);
      }
      ItemsRestore(d, items);
      LinesEndInText(items);
      JoinSplitEach(Texts(items));
      RestorableNotRefused(d, items);
    }
  }

  lemma {:induction false} RestorableNotRefused(d: Script, items: seq<Item>)
    requires Sound(d) && AllTrimmed(items) && AllRestorable(d, items)
    ensures NoneRefused(d, SplitEach(Lines(items)))
  {
    forall i | 0 <= i < |items| ensures NoneRefused(d, SplitLines(Lines(items)[i])) {
      assert Trimmed(items[i].text) && Restorable(d, items[i]);
      ItemNotRefused(d, items[i]);
    }
    NoneRefusedEach(d, Lines(items));
  }

  lemma {:induction false} ItemNotRefused(d: Script, i: Item)
    requires Sound(d) && Trimmed(i.text) && Restorable(d, i)
    ensures NoneRefused(d, SplitLines(Line(i)))
  {
    PrintedItem(i);
    HeadReads(d, i);
    var l, printed := SplitLines(i.text), SplitLines(Line(i));
    forall j | 0 <= j < |printed| ensures !ParseLineMinute(d, printed[j]).Refused? {
      if j > 0 {
        assert printed[j] == l[j] && Unmarked(d, l[j]);
      }
    }
  }

  lemma {:induction false} NoneRefusedEach(d: Script, texts: seq<string>)
    requires forall i :: 0 <= i < |texts| ==> NoneRefused(d, SplitLines(texts[i]))
    ensures NoneRefused(d, SplitEach(texts))
  {
    if texts != [] {
      NoneRefusedEach(d, texts[1..]);
    }
  }

  /** A result without breaks but line feeds shows that the texts have no others, and then line by line what came
      back. */
  lemma {:induction false} RestoredMeans(d: Script, items: seq<Item>)
    requires Sound(d) && AllTrimmed(items)
             && JoinLines(StripLines(d, SplitEach(Lines(items)))) == JoinLines(Texts(items))
    ensures AllRestorable(d, items)
  {
    var stripped, texts := StripLines(d, SplitEach(Lines(items))), SplitEach(Texts(items));
    SplitEachOneLines(Lines(items));
    SplitEachOneLines(Texts(items));
    StripLinesOneLine(d, SplitEach(Lines(items)));
    OneLineFeeds(stripped);
    OneLineFeeds(texts);
    JoinFeeds(Texts(items));
    forall i | 0 <= i < |items| ensures OnlyLineFeeds(items[i].text) && OnlyLineFeeds(Texts(items)[i]) {
      assert Texts(items)[i] == items[i].text;
    }
    ItemsRestore(d, items);
    LinesEndInText(items);
    JoinSplitEach(Texts(items));
    JoinInjective(stripped, texts);
  }

  /** The segment has no text, or starts later than a second before zero and has a text that comes back. */
  predicate Returns(d: Script, s: Segment) {
    var l := SplitLines(TextOf(s));
    TextOf(s) != "" ==>
      && (s.start.Some? ==> s.start.value > -1.0) && OnlyLineFeeds(TextOf(s))
      && forall j :: 1 <= j < |l| ==> Unmarked(d, l[j])
  }

  lemma {:induction false} ReturnsIff(d: Script, s: Segment)
    ensures AllRestorable(d, ItemsOf(s)) <==> Returns(d, s)
  {
    if TextOf(s) != "" {
      assert ItemsOf(s)[0] == Item(TextOf(s), StartOf(s));
    }
  }

  lemma {:induction false} AllRestorableAppend(d: Script, a: seq<Item>, b: seq<Item>)
    ensures AllRestorable(d, a + b) <==> AllRestorable(d, a) && AllRestorable(d, b)
  {
    if AllRestorable(d, a + b) {
      assert forall i :: 0 <= i < |a| ==> a[i] == (a + b)[i];
      assert forall i :: 0 <= i < |b| ==> b[i] == (a + b)[|a| + i];
    }
  }

  predicate AllReturn(d: Script, segments: seq<Segment>) {
    segments == [] || (AllReturn(d, segments[..|segments| - 1]) && Returns(d, segments[|segments| - 1]))
  }

  lemma {:induction false} ItemsReturn(d: Script, segments: seq<Segment>)
    ensures AllRestorable(d, Items(segments)) <==> AllReturn(d, segments)
  {
    if segments != [] {
      var earlier, last := segments[..|segments| - 1], segments[|segments| - 1];
      ItemsReturn(d, earlier);
      ReturnsIff(d, last);
      AllRestorableAppend(d, Items(earlier), ItemsOf(last));
    }
  }

  /** When some segment has a text, stripping the transcript returns the texts exactly when each of those starts later
      than a second before zero, breaks its text with line feeds only, and has no later line that looks like a printed
      one. */
  lemma {:induction false} StripRestoresIff(d: Script, segments: seq<Segment>, plain: string)
    requires Sound(d) && Items(segments) != []
    ensures StripTimecodes(d, Transcript(segments, plain)) == Some(JoinLines(Texts(Items(segments)))) <==>
            AllReturn(d, segments)
  {
    StripRestoresItems(d, Items(segments));
    ItemsReturn(d, segments);
  }

  /** Such a segment: one minute before zero is printed as `[-1:00]`, which stays in the stripped text. */
  lemma {:induction false} NegativeStartHappens(d: Script, s: Segment, plain: string)
    requires Sound(d) && s == Segment(Some("a"), Some(-60.0))
    ensures Transcript([s], plain) == "[-1:00] a"
    ensures Texts(Items([s])) == ["a"] && StripTimecodes(d, Transcript([s], plain)) != Some("a")
  {
    NegativeTranscript(s, plain);
    NegativeNotReturned(d, s);
    NotReturned(d, s, plain);
  }

  lemma {:induction false} NegativeTranscript(s: Segment, plain: string)
    requires s == Segment(Some("a"), Some(-60.0))
    ensures Transcript([s], plain) == "[-1:00] a" && Items([s]) != [] && TextOf(s) != ""
    ensures Texts(Items([s])) == ["a"] && JoinLines(Texts(Items([s]))) == "a"
  {
    NegativeStartItem(s);
    NegativeStartPrinted();
    OneItem(s);
  }

  lemma {:induction false} NotReturned(d: Script, s: Segment, plain: string)
    requires Sound(d) && !AllReturn(d, [s]) && Items([s]) != [] && JoinLines(Texts(Items([s]))) == "a"
    ensures StripTimecodes(d, Transcript([s], plain)) != Some("a")
  {
    StripRestoresIff(d, [s], plain);
  }

  lemma {:induction false} NegativeNotReturned(d: Script, s: Segment)
    requires TextOf(s) != "" && s.start == Some(-60.0)
    ensures !AllReturn(d, [s])
  {
    assert !Returns(d, s);
    assert [s][|[s]| - 1] == s;
  }

  lemma {:induction false} OneItem(s: Segment)
    requires ItemsOf(s) == [Item("a", -60)]
    ensures Items([s]) == [Item("a", -60)] && Texts(Items([s])) == ["a"] && JoinLines(Texts(Items([s]))) == "a"
    ensures forall plain :: Transcript([s], plain) == Line(Item("a", -60))
  {
    assert [s][..0] == [] && Items([]) == [] && [] + ItemsOf(s) == ItemsOf(s);
    assert Items([s]) == ItemsOf(s);
    assert Lines([Item("a", -60)]) == [Line(Item("a", -60))];
  }

  lemma {:induction false} NegativeStartItem(s: Segment)
    requires s == Segment(Some("a"), Some(-60.0))
    ensures ItemsOf(s) == [Item("a", -60)] && TextOf(s) == "a"
  {
    LetterStays();
    MinuteBefore();
  }

  lemma {:induction false} LetterStays()
    ensures Strip("a") == "a"
  {
    assert !Space('a');
    TrimIsIdentity("a", Space);
  }

  lemma {:induction false} MinuteBefore()
    ensures Truncated(-60.0) == -60
  {
    assert (60.0).Floor == 60;
  }

  lemma {:induction false} NegativeStartPrinted()
    ensures Line(Item("a", -60)) == "[-1:00] a"
  {
    assert -60 / 60 == -1 && -60 % 60 == 0;
    OneDigit(1);
    OneDigit(0);
    assert Padded(-1) == "-" + "1" && Padded(0) == "0" + "0";
    assert "[" + ("-" + "1") + ":" + ("0" + "0") + "]" == "[-1:00]";
    assert "[-1:00]" + " " + "a" == "[-1:00] a";
  }

  lemma {:induction false} OneDigit(n: nat)
    requires n < 10
    ensures Decimal(n) == ['0' + n as char]
  {
  }

  /** How many lines the texts before the `k`-th take up. */
  function Offset(texts: seq<string>, k: nat): nat
    requires k <= |texts|
  {
    if k == 0 then 0 else |SplitLines(texts[0])| + Offset(texts[1..], k - 1)
  }

  lemma {:induction false} SplitEachAt(texts: seq<string>, k: nat)
    requires k < |texts| && texts[k] != ""
    ensures Offset(texts, k) < |SplitEach(texts)| && SplitEach(texts)[Offset(texts, k)] == SplitLines(texts[k])[0]
  {
    if k > 0 {
      SplitEachAt(texts[1..], k - 1);
    }
  }

  lemma {:induction false} OffsetOneLine(texts: seq<string>, k: nat)
    requires k <= |texts| && forall j :: 0 <= j < k ==> |SplitLines(texts[j])| == 1
    ensures Offset(texts, k) == k
  {
    if k > 0 {
      OffsetOneLine(texts[1..], k - 1);
    }
  }

  /** At the first line of a segment, the reader finds its minute, however large, or nothing when its start is negative.
      Where the texts before it are single lines, that is the line of the segment's own number. */
  lemma {:induction false} MinutesReadBack(d: Script, segments: seq<Segment>, plain: string, k: nat)
    requires Sound(d) && k < |Items(segments)|
    ensures var items := Items(segments);
            var lines := SplitLines(Transcript(segments, plain));
            var at := Offset(Texts(items), k);
            && at < |lines|
            && ParseLineMinute(d, lines[at]) == (if items[k].start >= 0 then Minute(items[k].start / 60) else NoMinute)
            && ((forall j :: 0 <= j < k ==> OneLine(items[j].text)) ==> at == k)
  {
    var items := Items(segments);
    SplitTranscript(items);
    PrintedCounts(items);
    SameOffsets(Lines(items), Texts(items), k);
    SplitEachAt(Lines(items), k);
    HeadReads(d, items[k]);
    if forall j :: 0 <= j < k ==> OneLine(items[j].text) {
      forall j | 0 <= j < k ensures |SplitLines(Texts(items)[j])| == 1 {
        assert Trimmed(items[j].text);
        OneLineSplit(items[j].text);
      }
      OffsetOneLine(Texts(items), k);
    }
  }

  lemma {:induction false} HeadReads(d: Script, i: Item)
    requires Sound(d) && Trimmed(i.text)
    ensures Line(i) != ""
    ensures ParseLineMinute(d, SplitLines(Line(i))[0]) == if i.start >= 0 then Minute(i.start / 60) else NoMinute
  {
    PrintedItem(i);
    FirstLine(i.text);
    LineReads(d, Item(SplitLines(i.text)[0], i.start));
  }

  lemma {:induction false} SameOffsets(a: seq<string>, b: seq<string>, k: nat)
    requires SameCounts(a, b) && k <= |a|
    ensures Offset(a, k) == Offset(b, k)
  {
    if k > 0 {
      SameOffsets(a[1..], b[1..], k - 1);
    }
  }

  lemma {:induction false} OneLineSplit(s: string)
    requires s != "" && OneLine(s)
    ensures |SplitLines(s)| == 1
  {
    if |s| > 1 {
      OneLineSplit(s[1..]);
    }
  }

  // ---------------------------------------------------------------- the loops

  lemma {:induction false} LinesAppend(a: seq<Item>, b: seq<Item>)
    ensures Lines(a + b) == Lines(a) + Lines(b)
  {
    forall i | 0 <= i < |a + b| ensures Lines(a + b)[i] == (Lines(a) + Lines(b))[i] {
      assert (a + b)[i] == if i < |a| then a[i] else b[i - |a|];
    }
  }

  lemma {:induction false} LinesStep(segments: seq<Segment>, k: nat)
    requires k < |segments|
    ensures Lines(Items(segments[..k + 1])) == Lines(Items(segments[..k])) + Lines(ItemsOf(segments[k]))
  {
    var next := segments[..k + 1];
    assert next[..|next| - 1] == segments[..k] && next[|next| - 1] == segments[k];
    LinesAppend(Items(segments[..k]), ItemsOf(segments[k]));
  }

  lemma {:induction false} MappedSnoc(f: string -> string, lines: seq<string>, line: string)
    ensures Mapped(f, lines + [line]) == Mapped(f, lines) + [f(line)]
  {
    var all, l, r := lines + [line], Mapped(f, lines + [line]), Mapped(f, lines) + [f(line)];
    forall i | 0 <= i < |all| ensures l[i] == r[i] {
      assert all[i] == if i < |lines| then lines[i] else line;
    }
  }

  lemma {:induction false} StripLinesAppend(d: Script, lines: seq<string>, line: string)
    ensures StripLines(d, lines + [line]) == StripLines(d, lines) + [StripLine(d, line)]
  {
    MappedSnoc(Stripper(d), lines, line);
  }

  lemma {:induction false} NoneRefusedSnoc(d: Script, lines: seq<string>, line: string)
    ensures NoneRefused(d, lines + [line]) <==> NoneRefused(d, lines) && !ParseLineMinute(d, line).Refused?
  {
    var all := lines + [line];
    assert all[|lines|] == line;
    assert forall i :: 0 <= i < |lines| ==> all[i] == lines[i];
  }

  /** Adds a line for every segment with a text. */
  method FoldSegments(segments: seq<Segment>, lines: seq<string>) returns (r: seq<string>)
    ensures r == lines + Lines(Items(segments))
  {
    r := lines;
    for k := 0 to |segments|
      invariant r == lines + Lines(Items(segments[..k]))
    {
      LinesStep(segments, k);
      var line := FoldSegment(segments[k]);
      Regroup(lines, Lines(Items(segments[..k])), line);
      r := r + line;
    }
    TakeAll(segments);
  }

  method FoldSegment(s: Segment) returns (line: seq<string>)
    ensures line == Lines(ItemsOf(s))
  {
    var text := if s.text.Some? then Strip(s.text.value) else "";
    if text == "" {
      return [];
    }
    var start := if s.start.Some? then Truncated(s.start.value) else 0;
    return ["[" + Padded(start / 60) + ":" + Padded(start % 60) + "]" + " " + text];
  }

  method ToTimestampedText(segments: seq<Segment>, plain: string) returns (r: string)
    ensures r == Transcript(segments, plain)
  {
    var lines := FoldSegments(segments, []);
    assert [] + Lines(Items(segments)) == Lines(Items(segments));
    r := if lines != [] then JoinLines(lines) else plain;
  }

  /** `None` when reading the line's minute fails. */
  method StripTimecode(d: Script, line: string) returns (r: Option<string>)
    ensures r == if ParseLineMinute(d, line).Refused? then None else Some(StripLine(d, line))
  {
    var m := ParseLineMinute(d, line);
    if m.Refused? {
      return None;
    }
    if m.NoMinute? {
      return Some(line);
    }
    var stripped := TrimStart(line, Space);
    return Some(TrimStart(stripped[Find(stripped, ']') + 1..], Space));
  }

  method StripTranscriptTimecodes(d: Script, text: string) returns (r: Option<string>)
    ensures r == StripTimecodes(d, text)
  {
    var lines := SplitLines(text);
    var result := [];
    for k := 0 to |lines|
      invariant result == StripLines(d, lines[..k]) && NoneRefused(d, lines[..k])
    {
      StripLinesAppend(d, lines[..k], lines[k]);
      NoneRefusedSnoc(d, lines[..k], lines[k]);
      TakeNext(lines, k);
      var line := StripTimecode(d, lines[k]);
      if line.None? {
        return None;
      }
      result := result + [line.value];
    }
    TakeAll(lines);
    r := Some(JoinLines(result));
  }
}
