/** Python string operations used by several modules: white space, `split()`, `" ".join` and `strip`. */
module PyText {
  import opened Common
  import opened Seqs

  /** What `str.isspace` accepts, and so what `str.split`, `str.strip` and `\s` treat as white space. */
  predicate Space(c: char) {
    || '\t' <= c <= '\r' || '\U{001C}' <= c <= ' ' || c == '\U{0085}' || c == '\U{00A0}' || c == '\U{1680}'
    || '\U{2000}' <= c <= '\U{200A}' || c == '\U{2028}' || c == '\U{2029}' || c == '\U{202F}'
    || c == '\U{205F}' || c == '\U{3000}'
  }

  predicate Blank(s: string) {
    AllOf(s, Space)
  }

  predicate IsWord(w: string) {
    w != "" && forall i :: 0 <= i < |w| ==> !Space(w[i])
  }

  predicate AreWords(ws: seq<string>) {
    forall i :: 0 <= i < |ws| ==> IsWord(ws[i])
  }

  /** `s.split()`: the maximal runs of non-space characters, in order. */
  function Words(s: string): (ws: seq<string>)
    ensures AreWords(ws)
    ensures s != "" && !Space(s[0]) ==> ws != []
  {
    if s == "" then []
    else
      var rest := Words(s[1..]);
      if Space(s[0]) then rest
      else if |s| > 1 && !Space(s[1]) then [[s[0]] + rest[0]] + rest[1..]
      else [[s[0]]] + rest
  }

  /** `" ".join(ws)`. */
  function Join(ws: seq<string>): string {
    if ws == [] then ""
    else if |ws| == 1 then ws[0]
    else ws[0] + " " + Join(ws[1..])
  }

  function Strip(s: string): string {
    Trim(s, Space)
  }

  lemma {:induction false} WordsOfBlank(gap: string, b: string)
    requires Blank(gap)
    ensures Words(gap + b) == Words(b)
  {
    if gap == "" {
      assert gap + b == b;
    } else {
      assert (gap + b)[1..] == gap[1..] + b;
      assert Space(gap[0]);
      WordsOfBlank(gap[1..], b);
    }
  }

  /** White space between two texts separates their words. */
  lemma {:induction false} WordsSplit(a: string, gap: string, b: string)
    requires Blank(gap) && gap != ""
    ensures Words(a + gap + b) == Words(a) + Words(b)
  {
    if a == "" {
      assert a + gap + b == gap + b;
      WordsOfBlank(gap, b);
    } else {
      var s := a + gap + b;
      assert s[1..] == a[1..] + gap + b;
      WordsSplit(a[1..], gap, b);
      if |a| == 1 {
        assert s[1] == gap[0] && Space(gap[0]);
      } else {
        assert s[1] == a[1];
      }
    }
  }

  lemma {:induction false} WordsTail(a: string, gap: string)
    requires Blank(gap)
    ensures Words(a + gap) == Words(a)
  {
    if gap == "" {
      assert a + gap == a;
    } else {
      WordsSplit(a, gap, "");
      assert a + gap + "" == a + gap;
    }
  }

  lemma {:induction false} WordsOfTrimStart(s: string)
    ensures Words(TrimStart(s, Space)) == Words(s)
  {
    var t := TrimStart(s, Space);
    CutAt(s, |s| - |t|);
    WordsOfBlank(s[..|s| - |t|], t);
  }

  lemma {:induction false} WordsOfTrimEnd(s: string)
    ensures Words(TrimEnd(s, Space)) == Words(s)
  {
    var t := TrimEnd(s, Space);
    CutAt(s, |t|);
    WordsTail(t, s[|t|..]);
  }

  lemma {:induction false} WordsOfStrip(s: string)
    ensures Words(Strip(s)) == Words(s)
  {
    WordsOfTrimStart(s);
    WordsOfTrimEnd(TrimStart(s, Space));
  }

  lemma {:induction false} WordsOfWord(w: string)
    requires IsWord(w)
    ensures Words(w) == [w]
  {
    if |w| > 1 {
      assert IsWord(w[1..]);
      WordsOfWord(w[1..]);
      assert [w[0]] + w[1..] == w;
    } else {
      assert w == [w[0]];
      assert Words(w[1..]) == [];
    }
  }

  lemma {:induction false} WordsOfJoin(ws: seq<string>)
    requires AreWords(ws)
    ensures Words(Join(ws)) == ws
  {
    if |ws| == 1 {
      WordsOfWord(ws[0]);
    } else if |ws| > 1 {
      WordsOfWord(ws[0]);
      WordsOfJoin(ws[1..]);
      WordsSplit(ws[0], " ", Join(ws[1..]));
      assert [ws[0]] + ws[1..] == ws;
    }
  }
}
