/** The IRC driver's line framer: data fragments go into a buffer, and every line completed by CRLF (section 2.3 of
    RFC 1459) comes out. */
module LineFramer {
  import opened Seqs
  import Utf8

  /** What the driver does with one line: raw lines sent, and lines left to the message and CTCP patterns. */
  datatype Action = Send(raw: string) | Match(line: string)

  datatype State = State(buffer: string, done: seq<Action>)

  const INITIAL := State("", [])

  // ---------------------------------------------------------------- splitting

  predicate StartsWithCrlf(s: string) {
    |s| >= 2 && s[0] == '\r' && s[1] == '\n'
  }

  /** `s.split("\r\n")`: the pieces between separators, found from the left. */
  function Split(s: string): (r: seq<string>)
    ensures r != []
  {
    if s == "" then [""]
    else if StartsWithCrlf(s) then [""] + Split(s[2..])
    else
      var r := Split(s[1..]);
      [[s[0]] + r[0]] + r[1..]
  }

  function Joined(lines: seq<string>): string
    requires lines != []
  {
    if |lines| == 1 then lines[0] else lines[0] + "\r\n" + Joined(lines[1..])
  }

  predicate CrlfFree(s: string) {
    forall i :: 0 <= i < |s| - 1 ==> !(s[i] == '\r' && s[i + 1] == '\n')
  }

  predicate AllCrlfFree(lines: seq<string>) {
    forall i :: 0 <= i < |lines| ==> CrlfFree(lines[i])
  }

  /** The split is the one way to write `s` as lines without CRLF, joined by CRLF. */
  lemma {:induction false} SplitIff(s: string, lines: seq<string>)
    ensures lines == Split(s) <==> lines != [] && AllCrlfFree(lines) && Joined(lines) == s
  {
    SplitJoins(s);
    if lines != [] && AllCrlfFree(lines) {
      SplitOfJoined(lines);
    }
  }

  lemma {:induction false} SplitJoins(s: string)
    ensures AllCrlfFree(Split(s)) && Joined(Split(s)) == s
  {
    if StartsWithCrlf(s) {
      SplitJoins(s[2..]);
      JoinedCons("", Split(s[2..]));
      assert s == "" + "\r\n" + s[2..];
    } else if s != "" {
      SplitJoins(s[1..]);
      var r := Split(s[1..]);
      FirstPiece(s[1..]);
      Longer(s[0], r[0]);
      JoinedLonger([s[0]], r);
      assert s == [s[0]] + s[1..];
    }
  }

  lemma {:induction false} JoinedCons(line: string, lines: seq<string>)
    requires lines != []
    ensures Joined([line] + lines) == line + "\r\n" + Joined(lines)
  {
  }

  lemma {:induction false} JoinedLonger(h: string, r: seq<string>)
    requires r != []
    ensures Joined([h + r[0]] + r[1..]) == h + Joined(r)
  {
  }

  /** A character before a piece makes no CRLF unless the piece starts with LF after CR. */
  lemma {:induction false} Longer(c: char, piece: string)
    requires CrlfFree(piece) && !(c == '\r' && piece != "" && piece[0] == '\n')
    ensures CrlfFree([c] + piece)
  {
  }

  lemma {:induction false} FirstPiece(s: string)
    ensures Split(s)[0] != "" ==> s != "" && Split(s)[0][0] == s[0]
  {
  }

  lemma {:induction false} SplitOfJoined(lines: seq<string>)
    requires lines != [] && AllCrlfFree(lines)
    ensures Split(Joined(lines)) == lines
  {
    if |lines| == 1 {
      SplitOfFree(lines[0]);
    } else {
      SplitOfJoined(lines[1..]);
      SplitAfterLine(lines[0], Joined(lines[1..]));
    }
  }

  lemma {:induction false} SplitOfFree(s: string)
    requires CrlfFree(s)
    ensures Split(s) == [s]
  {
    if s != "" {
      assert CrlfFree(s[1..]) && !StartsWithCrlf(s);
      SplitOfFree(s[1..]);
      assert [s[0]] + s[1..] == s;
    }
  }

  lemma {:induction false} SplitAfterLine(line: string, rest: string)
    requires CrlfFree(line)
    ensures Split(line + "\r\n" + rest) == [line] + Split(rest)
  {
    var s := line + "\r\n" + rest;
    if line == "" {
      assert s[2..] == rest;
    } else {
      assert CrlfFree(line[1..]);
      SplitAfterLine(line[1..], rest);
      assert s[1..] == line[1..] + "\r\n" + rest;
      assert !StartsWithCrlf(s) by {
        assert s[1] == (if |line| > 1 then line[1] else '\r');
      }
      assert [line[0]] + line[1..] == line;
    }
  }

  function Complete(s: string): seq<string> {
    var r := Split(s);
    r[..|r| - 1]
  }

  function Rest(s: string): string {
    var r := Split(s);
    r[|r| - 1]
  }

  lemma {:induction false} SplitParts(s: string)
    ensures Split(s) == Complete(s) + [Rest(s)]
  {
  }

  lemma {:induction false} CrlfParts(s: string)
    requires StartsWithCrlf(s)
    ensures Complete(s) == [""] + Complete(s[2..]) && Rest(s) == Rest(s[2..])
  {
  }

  lemma {:induction false} CharParts(s: string)
    requires s != "" && !StartsWithCrlf(s) && Complete(s[1..]) != []
    ensures var c := Complete(s[1..]);
            Complete(s) == [[s[0]] + c[0]] + c[1..] && Rest(s) == Rest(s[1..])
  {
  }

  lemma {:induction false} RegroupLonger(h: string, c: seq<string>, d: seq<string>)
    requires c != []
    ensures [h + (c + d)[0]] + (c + d)[1..] == ([h + c[0]] + c[1..]) + d
  {
  }

  /** Splitting `a + b` is splitting `a`, and then what is left of it together with `b`. */
  lemma {:induction false} SplitAppend(a: string, b: string)
    ensures Complete(a + b) == Complete(a) + Complete(Rest(a) + b)
    ensures Rest(a + b) == Rest(Rest(a) + b)
    decreases a, 1
  {
    var more := Complete(Rest(a) + b);
    if Complete(a) == [] {
      SplitJoins(a);
      assert Rest(a) == a && [] + more == more;
    } else if StartsWithCrlf(a) {
      AppendAfterCrlf(a, b, more);
    } else {
      AppendAfterChar(a, b, more);
    }
  }

  lemma {:induction false} AppendAfterCrlf(a: string, b: string, more: seq<string>)
    requires StartsWithCrlf(a) && more == Complete(Rest(a) + b)
    ensures Complete(a + b) == Complete(a) + more && Rest(a + b) == Rest(Rest(a) + b)
    decreases a, 0
  {
    SplitAppend(a[2..], b);
    assert (a + b)[2..] == a[2..] + b;
    CrlfParts(a);
    CrlfParts(a + b);
    Regroup([""], Complete(a[2..]), more);
  }

  lemma {:induction false} AppendAfterChar(a: string, b: string, more: seq<string>)
    requires a != "" && !StartsWithCrlf(a) && Complete(a) != [] && more == Complete(Rest(a) + b)
    ensures Complete(a + b) == Complete(a) + more && Rest(a + b) == Rest(Rest(a) + b)
    decreases a, 0
  {
    assert |a| >= 2;
    var c := Complete(a[1..]);
    assert c != [];
    SplitAppend(a[1..], b);
    CharAppend(a, b);
    RegroupLonger([a[0]], c, more);
  }

  /** `CharParts` of `a` and of `a + b`. */
  lemma {:induction false} CharAppend(a: string, b: string)
    requires |a| >= 2 && !StartsWithCrlf(a) && Complete(a[1..]) != [] && Complete(a[1..] + b) != []
    ensures var c, d := Complete(a[1..]), Complete(a[1..] + b);
            && Complete(a) == [[a[0]] + c[0]] + c[1..] && Rest(a) == Rest(a[1..])
            && Complete(a + b) == [[a[0]] + d[0]] + d[1..] && Rest(a + b) == Rest(a[1..] + b)
  {
    TailAppend(a, b);
    CharParts(a);
    CharParts(a + b);
  }

  lemma {:induction false} TailAppend(a: string, b: string)
    requires |a| >= 2
    ensures (a + b)[1..] == a[1..] + b && (a + b)[0] == a[0] && (a + b)[1] == a[1]
  {
  }

  // ---------------------------------------------------------------- lines to actions

  function Contains(s: string, t: string): bool {
    |s| >= |t| && (s[..|t|] == t || Contains(s[1..], t))
  }

  function Joins(channels: seq<string>): seq<Action> {
    seq(|channels|, i requires 0 <= i < |channels| => Send("JOIN " + channels[i]))
  }

  predicate IsPing(line: string) {
    |line| >= 4 && line[..4] == "PING"
  }

  function OnLine(channels: seq<string>, line: string): seq<Action> {
    if line == "" then []
    else if IsPing(line) then [Send("PONG" + line[4..])]
    else if Contains(line, " 001 ") then Joins(channels)
    else [Match(line)]
  }

  function OnLines(channels: seq<string>, lines: seq<string>): seq<Action> {
    if lines == [] then []
    else OnLines(channels, lines[..|lines| - 1]) + OnLine(channels, lines[|lines| - 1])
  }

  lemma {:induction false} OnLinesOne(channels: seq<string>, a: seq<string>, line: string)
    ensures OnLines(channels, a + [line]) == OnLines(channels, a) + OnLine(channels, line)
  {
  }

  lemma {:induction false} OnLinesAppend(channels: seq<string>, a: seq<string>, b: seq<string>)
    ensures OnLines(channels, a + b) == OnLines(channels, a) + OnLines(channels, b)
  {
    if b == [] {
      assert a + b == a;
    } else {
      var c, line := b[..|b| - 1], b[|b| - 1];
      OnLinesAppend(channels, a, c);
      assert b == c + [line];
      Regroup(a, c, [line]);
      OnLinesOne(channels, a + c, line);
      OnLinesOne(channels, c, line);
      Regroup(OnLines(channels, a), OnLines(channels, c), OnLine(channels, line));
    }
  }

  /** The state after the whole of `stream` arrived at once. */
  function Whole(channels: seq<string>, stream: string): State {
    State(Rest(stream), OnLines(channels, Complete(stream)))
  }

  /** One `data` event. */
  function Fed(channels: seq<string>, s: State, data: string): State {
    State(Rest(s.buffer + data), s.done + OnLines(channels, Complete(s.buffer + data)))
  }

  function FedAll(channels: seq<string>, fragments: seq<string>): State {
    if fragments == [] then INITIAL
    else Fed(channels, FedAll(channels, fragments[..|fragments| - 1]), fragments[|fragments| - 1])
  }

  /** However the stream is cut, the actions and the buffer are those of the stream in one piece. */
  lemma {:induction false} FragmentsDoNotMatter(channels: seq<string>, fragments: seq<string>)
    ensures FedAll(channels, fragments) == Whole(channels, Concat(fragments))
  {
    if fragments != [] {
      var n := |fragments| - 1;
      FragmentsDoNotMatter(channels, fragments[..n]);
      var a, b := Concat(fragments[..n]), fragments[n];
      SplitAppend(a, b);
      OnLinesAppend(channels, Complete(a), Complete(Rest(a) + b));
    }
  }

  /** The driver decodes each fragment of bytes by itself. It finds the lines of the decoded stream exactly when no
      fragment starts inside a character, and then does what it would do on the stream in one piece. */
  lemma {:induction false} ByteFragmentsIff(channels: seq<string>, fragments: seq<seq<Utf8.byte>>)
    ensures Split(Concat(Utf8.DecodeEach(fragments))) == Split(Utf8.Decode(Concat(fragments))) <==>
            Utf8.CutsBetween(fragments)
    ensures Utf8.CutsBetween(fragments) ==>
              FedAll(channels, Utf8.DecodeEach(fragments)) == Whole(channels, Utf8.Decode(Concat(fragments)))
  {
    Utf8.DecodeEachIff(fragments);
    SplitJoins(Concat(Utf8.DecodeEach(fragments)));
    SplitJoins(Utf8.Decode(Concat(fragments)));
    FragmentsDoNotMatter(channels, Utf8.DecodeEach(fragments));
  }

  /** The stream is `lines`, each of them acted on, and the buffer. */
  ghost predicate Accounts(channels: seq<string>, s: State, lines: seq<string>, stream: string) {
    Joined(lines + [s.buffer]) == stream && s.done == OnLines(channels, lines)
  }

  /** No completed line waits: after every fragment the buffer is the stream's unterminated end. */
  lemma {:induction false} NoLineWaits(channels: seq<string>, fragments: seq<string>)
    ensures var s := FedAll(channels, fragments);
            CrlfFree(s.buffer) && exists lines :: AllCrlfFree(lines) && Accounts(channels, s, lines, Concat(fragments))
  {
    FragmentsDoNotMatter(channels, fragments);
    SplitJoins(Concat(fragments));
    SplitParts(Concat(fragments));
    var lines := Complete(Concat(fragments));
    assert AllCrlfFree(lines) && Accounts(channels, FedAll(channels, fragments), lines, Concat(fragments));
  }

  /** After any fragments, every PING completed in the stream has been answered by one PONG with the same parameters, at
      its place between what the lines before and after it led to. */
  lemma {:induction false} PingAnswered(channels: seq<string>, fragments: seq<string>, k: nat)
    requires k < |Complete(Concat(fragments))| && IsPing(Complete(Concat(fragments))[k])
    ensures var lines := Complete(Concat(fragments));
            var answer := [Send("PONG" + lines[k][4..])];
            FedAll(channels, fragments).done ==
            OnLines(channels, lines[..k]) + answer + OnLines(channels, lines[k + 1..])
  {
    FragmentsDoNotMatter(channels, fragments);
    AroundPing(channels, Complete(Concat(fragments)), k);
  }

  lemma {:induction false} AroundPing(channels: seq<string>, lines: seq<string>, k: nat)
    requires k < |lines| && IsPing(lines[k])
    ensures OnLines(channels, lines)
         == OnLines(channels, lines[..k]) + [Send("PONG" + lines[k][4..])] + OnLines(channels, lines[k + 1..])
  {
    var before := lines[..k + 1];
    TakeNext(lines, k);
    CutAt(lines, k + 1);
    OnLinesOne(channels, lines[..k], lines[k]);
    OnLinesAppend(channels, before, lines[k + 1..]);
  }

  /** The `data` handler of the socket; `done` collects what it did. */
  class Socket {
    const channels: seq<string>
    var buffer: string
    var done: seq<Action>

    constructor (channels: seq<string>)
      ensures this.channels == channels && State(buffer, done) == INITIAL
    {
      this.channels := channels;
      buffer, done := "", [];
    }

    method OnData(data: seq<Utf8.byte>)
      modifies this
      ensures State(buffer, done) == Fed(channels, old(State(buffer, done)), Utf8.Decode(data))
    {
      buffer := buffer + Utf8.Decode(data);
      ghost var all := buffer;
      var lines := Split(buffer);
      buffer := lines[|lines| - 1];
      lines := lines[..|lines| - 1];
      for i := 0 to |lines|
        invariant lines == Complete(all)
        invariant done == old(done) + OnLines(channels, lines[..i]) && buffer == Rest(all)
      {
        ghost var before := lines[..i];
        TakeNext(lines, i);
        OnLinesOne(channels, before, lines[i]);
        Regroup(old(done), OnLines(channels, before), OnLine(channels, lines[i]));
        Handle(lines[i]);
      }
      assert lines[..|lines|] == lines;
    }

    method Handle(line: string)
      modifies this`done
      ensures done == old(done) + OnLine(channels, line)
    {
      if line == "" {
        return;
      }
      if |line| >= 4 && line[..4] == "PING" {
        done := done + [Send("PONG" + line[4..])];
      } else if Contains(line, " 001 ") {
        JoinAll();
      } else {
        done := done + [Match(line)];
      }
    }

    method JoinAll()
      modifies this`done
      ensures done == old(done) + Joins(channels)
    {
      for k := 0 to |channels|
        invariant done == old(done) + Joins(channels)[..k]
      {
        done := done + [Send("JOIN " + channels[k])];
      }
    }
  }
}
