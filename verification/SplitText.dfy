/** Cutting an outgoing message into chunks that a channel accepts. Strings are sequences of UTF-16 units. */
module SplitText {
  import opened Common
  import opened Seqs

  /** What `trimEnd` removes. */
  predicate JsSpace(c: char) {
    || '\t' <= c <= '\r' || c == ' ' || c == '\U{00A0}' || c == '\U{1680}' || '\U{2000}' <= c <= '\U{200A}'
    || c == '\U{2028}' || c == '\U{2029}' || c == '\U{202F}' || c == '\U{205F}' || c == '\U{3000}' || c == '\U{FEFF}'
  }

  const FENCE := "```"

  predicate OccursAt(s: string, pat: string, p: nat) {
    p + |pat| <= |s| && s[p..p + |pat|] == pat
  }

  ghost predicate Occurs(s: string, pat: string) {
    exists p: nat :: OccursAt(s, pat, p)
  }

  ghost predicate FirstAt(s: string, pat: string, p: nat) {
    OccursAt(s, pat, p) && forall q: nat :: q < p ==> !OccursAt(s, pat, q)
  }

  ghost predicate LastAt(s: string, pat: string, p: nat) {
    OccursAt(s, pat, p) && forall q: nat :: q > p ==> !OccursAt(s, pat, q)
  }

  /** `s.indexOf(pat)` */
  function IndexOf(s: string, pat: string): (r: Option<nat>)
    ensures r.Some? ==> FirstAt(s, pat, r.value)
    ensures r.None? ==> !Occurs(s, pat)
  {
    IndexFrom(s, pat, 0)
  }

  function IndexFrom(s: string, pat: string, i: nat): (r: Option<nat>)
    requires i <= |s| + 1
    ensures r.Some? ==>
              && r.value >= i && OccursAt(s, pat, r.value)
              && forall q: nat :: i <= q < r.value ==> !OccursAt(s, pat, q)
    ensures r.None? ==> forall q: nat :: i <= q ==> !OccursAt(s, pat, q)
    decreases |s| + 1 - i
  {
    if i > |s| then None else if OccursAt(s, pat, i) then Some(i) else IndexFrom(s, pat, i + 1)
  }

  /** `s.lastIndexOf(pat)` */
  function LastIndexOf(s: string, pat: string): (r: Option<nat>)
    ensures r.Some? ==> LastAt(s, pat, r.value)
    ensures r.None? ==> !Occurs(s, pat)
  {
    LastUpTo(s, pat, |s|)
  }

  function LastUpTo(s: string, pat: string, i: nat): (r: Option<nat>)
    ensures r.Some? ==> OccursAt(s, pat, r.value) && forall q: nat :: r.value < q <= i ==> !OccursAt(s, pat, q)
    ensures r.None? ==> forall q: nat :: q <= i ==> !OccursAt(s, pat, q)
  {
    if OccursAt(s, pat, i) then Some(i) else if i == 0 then None else LastUpTo(s, pat, i - 1)
  }

  /** The number of matches of a global regular expression for the fence. */
  function CountFences(s: string): nat {
    if |s| < 3 then 0
    else if OccursAt(s, FENCE, 0) then 1 + CountFences(s[3..])
    else CountFences(s[1..])
  }

  // ---------------------------------------------------------------- what one cut must be

  /** `e` is where the fenced block that is open at the end of the window closes, when it is to be kept whole. */
  ghost predicate KeepsBlock(r: string, maxLen: nat, e: nat)
    requires maxLen < |r|
  {
    && CountFences(r[..maxLen]) % 2 == 1
    && maxLen + 3 <= e <= 2 * maxLen
    && FirstAt(r[maxLen..], FENCE, e - maxLen - 3)
  }

  /** A cut of the window after its last paragraph break, or else after its last line break, or else its last space. */
  ghost predicate AtBoundary(window: string, n: nat) {
    if Occurs(window, "\n\n") then n >= 2 && LastAt(window, "\n\n", n - 2)
    else if Occurs(window, "\n") then n >= 1 && LastAt(window, "\n", n - 1)
    else n >= 1 && LastAt(window, " ", n - 1)
  }

  ghost predicate HasBoundary(window: string) {
    Occurs(window, "\n\n") || Occurs(window, "\n") || Occurs(window, " ")
  }

  ghost predicate Keeps(r: string, maxLen: nat)
    requires maxLen < |r|
  {
    exists e: nat :: KeepsBlock(r, maxLen, e)
  }

  /** The kept block, up to its closing fence, and the one line break after it. */
  ghost predicate CutsKept(r: string, maxLen: nat, e: nat, chunk: string, gap: string)
    requires maxLen < |r|
  {
    && KeepsBlock(r, maxLen, e)
    && e <= |r|
    && chunk == r[..e]
    && gap == if e < |r| && r[e] == '\n' then "\n" else ""
  }

  /** The text up to a boundary, its trailing white space made the gap. */
  ghost predicate CutsBoundary(r: string, maxLen: nat, n: nat, chunk: string, gap: string)
    requires maxLen < |r|
  {
    && AtBoundary(r[..maxLen], n)
    && n <= maxLen
    && chunk == TrimEnd(r[..n], JsSpace)
    && chunk + gap == r[..n]
  }

  /** `chunk` is the right first chunk of the remaining text `r`, and `gap` the right text to drop after it. */
  ghost predicate GoodCut(r: string, maxLen: nat, preserve: bool, chunk: string, gap: string) {
    if |r| <= maxLen then chunk == r && gap == ""
    else if preserve && Keeps(r, maxLen) then exists e: nat :: CutsKept(r, maxLen, e, chunk, gap)
    else if HasBoundary(r[..maxLen]) then exists n: nat :: CutsBoundary(r, maxLen, n, chunk, gap)
    else chunk == r[..maxLen] && gap == ""
  }

  /** The good first cuts of `r`: there is one. */
  ghost function GoodCuts(r: string, maxLen: nat, preserve: bool): iset<(string, string)> {
    iset chunk, gap | GoodCut(r, maxLen, preserve, chunk, gap) :: (chunk, gap)
  }

  /** `chunk` and `gap` stand in the text between `from` and `to`, as a good cut of what remains from `from`. */
  ghost predicate SegmentAt(text: string, from: nat, to: nat, maxLen: nat, preserve: bool, chunk: string, gap: string) {
    && from <= to <= |text|
    && text[from..to] == chunk + gap
    && (chunk, gap) in GoodCuts(text[from..], maxLen, preserve)
  }

  /** The first `k` chunks and gaps stand in the text where `starts` says, one after the other. */
  ghost predicate SegmentedTo(text: string, maxLen: nat, preserve: bool,
                              chunks: seq<string>, gaps: seq<string>, starts: seq<nat>, k: nat)
    requires k <= |chunks| == |gaps| && |starts| == |chunks| + 1
  {
    k == 0 || (&& SegmentedTo(text, maxLen, preserve, chunks, gaps, starts, k - 1)
               && SegmentAt(text, starts[k - 1], starts[k], maxLen, preserve, chunks[k - 1], gaps[k - 1]))
  }

  /** The first `upTo` characters of the text are its chunks in order, each followed by its gap. */
  ghost predicate Segmented(text: string, upTo: nat, maxLen: nat, preserve: bool,
                            chunks: seq<string>, gaps: seq<string>, starts: seq<nat>) {
    && |gaps| == |chunks| && |starts| == |chunks| + 1 && starts[0] == 0 && starts[|chunks|] == upTo <= |text|
    && SegmentedTo(text, maxLen, preserve, chunks, gaps, starts, |chunks|)
  }

  lemma {:induction false} SegmentHolds(text: string, maxLen: nat, preserve: bool,
                                        chunks: seq<string>, gaps: seq<string>, starts: seq<nat>, k: nat, i: nat)
    requires i < k <= |chunks| == |gaps| && |starts| == |chunks| + 1
    requires SegmentedTo(text, maxLen, preserve, chunks, gaps, starts, k)
    ensures SegmentAt(text, starts[i], starts[i + 1], maxLen, preserve, chunks[i], gaps[i])
  {
    if i < k - 1 {
      SegmentHolds(text, maxLen, preserve, chunks, gaps, starts, k - 1, i);
    }
  }

  lemma {:induction false} SegmentsStay(text: string, maxLen: nat, preserve: bool, chunks: seq<string>,
                                        gaps: seq<string>,
                                        starts: seq<nat>, chunk: string, gap: string, to: nat, k: nat)
    requires k <= |chunks| == |gaps| && |starts| == |chunks| + 1
    requires SegmentedTo(text, maxLen, preserve, chunks, gaps, starts, k)
    ensures SegmentedTo(text, maxLen, preserve, chunks + [chunk], gaps + [gap], starts + [to], k)
  {
    if k > 0 {
      SegmentsStay(text, maxLen, preserve, chunks, gaps, starts, chunk, gap, to, k - 1);
      assert (chunks + [chunk])[k - 1] == chunks[k - 1] && (gaps + [gap])[k - 1] == gaps[k - 1];
      assert (starts + [to])[k - 1] == starts[k - 1] && (starts + [to])[k] == starts[k];
    }
  }

  method SplitText(text: string, maxLen: nat, preserve: bool)
    returns (chunks: seq<string>, ghost gaps: seq<string>, ghost starts: seq<nat>)
    requires maxLen >= 1
    ensures Segmented(text, |text|, maxLen, preserve, chunks, gaps, starts)
    ensures chunks != [] && Weave(chunks, gaps, |chunks|) == text
  {
    if |text| <= maxLen {
      chunks, gaps, starts := [text], [""], [0, |text|];
      OnePiece(text, maxLen, preserve);
      return;
    }
    chunks, gaps, starts := [], [], [0];
    var remaining := text;
    ghost var from: nat := 0;
    while |remaining| > 0
      invariant from <= |text| && remaining == text[from..]
      invariant Segmented(text, from, maxLen, preserve, chunks, gaps, starts)
      invariant chunks == [] ==> from == 0
      decreases |remaining|
    {
      var chunk, rest, gap := CutOne(remaining, maxLen, preserve);
      ghost var to := from + |chunk + gap|;
      CutStands(text, from, maxLen, preserve, chunk, gap, rest);
      AddSegment(text, from, maxLen, preserve, chunks, gaps, starts, chunk, gap, to);
      chunks, gaps, starts := chunks + [chunk], gaps + [gap], starts + [to];
      remaining, from := rest, to;
    }
    NothingLost(text, from, maxLen, preserve, chunks, gaps, starts, |chunks|);
    assert from == |text| && text[..from] == text;
  }

  lemma {:induction false} OnePiece(text: string, maxLen: nat, preserve: bool)
    requires |text| <= maxLen
    ensures Segmented(text, |text|, maxLen, preserve, [text], [""], [0, |text|]) && Weave([text], [""], 1) == text
  {
    var chunks, gaps, starts := [text], [""], [0, |text|];
    assert text[0..|text|] == text + "" && text[0..] == text;
    assert SegmentAt(text, starts[0], starts[1], maxLen, preserve, chunks[0], gaps[0]);
    assert SegmentedTo(text, maxLen, preserve, chunks, gaps, starts, 0);
  }

  lemma {:induction false} CutStands(text: string, from: nat, maxLen: nat, preserve: bool, chunk: string, gap: string,
                                     rest: string)
    requires from <= |text| && text[from..] == chunk + gap + rest && GoodCut(text[from..], maxLen, preserve, chunk, gap)
    ensures var to := from + |chunk + gap|;
            to <= |text| && rest == text[to..] && SegmentAt(text, from, to, maxLen, preserve, chunk, gap)
  {
    var r := text[from..];
    assert r[..|chunk + gap|] == chunk + gap;
    assert rest == r[|chunk + gap|..];
  }

  lemma {:induction false} AddSegment(text: string, upTo: nat, maxLen: nat, preserve: bool, chunks: seq<string>,
                                      gaps: seq<string>,
                                      starts: seq<nat>, chunk: string, gap: string, to: nat)
    requires Segmented(text, upTo, maxLen, preserve, chunks, gaps, starts)
    requires SegmentAt(text, upTo, to, maxLen, preserve, chunk, gap)
    ensures Segmented(text, to, maxLen, preserve, chunks + [chunk], gaps + [gap], starts + [to])
  {
    SegmentsStay(text, maxLen, preserve, chunks, gaps, starts, chunk, gap, to, |chunks|);
    var k, cs, gs, ss := |chunks|, chunks + [chunk], gaps + [gap], starts + [to];
    assert cs[k] == chunk && gs[k] == gap && ss[k] == upTo && ss[k + 1] == to;
    assert SegmentAt(text, ss[k], ss[k + 1], maxLen, preserve, cs[k], gs[k]);
  }

  /** The body of the loop: one chunk, the rest of the text, and the white space dropped between them. */
  method CutOne(r: string, maxLen: nat, preserve: bool) returns (chunk: string, rest: string, ghost gap: string)
    requires maxLen >= 1 && r != ""
    ensures r == chunk + gap + rest && |rest| < |r|
    ensures GoodCut(r, maxLen, preserve, chunk, gap)
  {
    if |r| <= maxLen {
      return r, "", "";
    }
    if preserve {
      var end := KeptEnd(r, maxLen);
      if end.Some? {
        chunk, rest := r[..end.value], r[end.value..];
        if rest != "" && rest[0] == '\n' {
          gap, rest := "\n", rest[1..];
        } else {
          gap := "";
        }
        assert CutsKept(r, maxLen, end.value, chunk, gap);
        return;
      }
    }
    var n := Boundary(r[..maxLen]);
    if n.Some? {
      chunk, rest := TrimEnd(r[..n.value], JsSpace), r[n.value..];
      gap := r[..n.value][|chunk|..];
      assert CutsBoundary(r, maxLen, n.value, chunk, gap);
      return;
    }
    return r[..maxLen], r[maxLen..], "";
  }

  /** The code-block branch: where the open block closes, if that is near enough. */
  method KeptEnd(r: string, maxLen: nat) returns (end: Option<nat>)
    requires maxLen < |r|
    ensures end.Some? ==> KeepsBlock(r, maxLen, end.value) && end.value <= |r|
    ensures end.None? ==> !Keeps(r, maxLen)
  {
    var openCount := CountFences(r[..maxLen]);
    if openCount % 2 == 1 {
      var closePos := IndexOf(r[maxLen..], FENCE);
      if closePos.Some? {
        var e := maxLen + closePos.value + 3;
        if e <= maxLen * 2 {
          return Some(e);
        }
        assert forall e': nat :: !KeepsBlock(r, maxLen, e');
      }
    }
    return None;
  }

  lemma {:induction false} FirstIsUnique(s: string, pat: string, p: nat, q: nat)
    requires FirstAt(s, pat, p) && FirstAt(s, pat, q)
    ensures p == q
  {
  }

  /** The boundary branches: where to cut, if the window has any boundary. */
  method Boundary(window: string) returns (n: Option<nat>)
    ensures n.Some? ==> AtBoundary(window, n.value) && 0 < n.value <= |window| && HasBoundary(window)
    ensures n.None? ==> !HasBoundary(window)
  {
    var paraPos := LastIndexOf(window, "\n\n");
    if paraPos.Some? {
      return Some(paraPos.value + 2);
    }
    var linePos := LastIndexOf(window, "\n");
    if linePos.Some? {
      return Some(linePos.value + 1);
    }
    var spacePos := LastIndexOf(window, " ");
    if spacePos.Some? {
      return Some(spacePos.value + 1);
    }
    return None;
  }

  // ---------------------------------------------------------------- main results

  /** Only white space is dropped, and a chunk is within the limit, or within twice the limit when it keeps a block. */
  lemma {:induction false} CutBounds(r: string, maxLen: nat, preserve: bool, chunk: string, gap: string)
    requires GoodCut(r, maxLen, preserve, chunk, gap)
    ensures AllOf(gap, JsSpace)
    ensures |chunk| <= if preserve then 2 * maxLen else maxLen
    ensures |chunk| > maxLen ==> preserve && |r| > maxLen && KeepsBlock(r, maxLen, |chunk|)
  {
  }

  /** There is one good first cut of a text: the specification determines the chunks. */
  lemma {:induction false} GoodCutUnique(r: string, maxLen: nat, preserve: bool, c1: string, g1: string, c2: string,
                                         g2: string)
    requires GoodCut(r, maxLen, preserve, c1, g1) && GoodCut(r, maxLen, preserve, c2, g2)
    ensures c1 == c2 && g1 == g2
  {
    if |r| > maxLen {
      var window := r[..maxLen];
      if preserve && Keeps(r, maxLen) {
        var e1: nat :| CutsKept(r, maxLen, e1, c1, g1);
        var e2: nat :| CutsKept(r, maxLen, e2, c2, g2);
        FirstIsUnique(r[maxLen..], FENCE, e1 - maxLen - 3, e2 - maxLen - 3);
      } else if HasBoundary(window) {
        var n1: nat :| CutsBoundary(r, maxLen, n1, c1, g1);
        var n2: nat :| CutsBoundary(r, maxLen, n2, c2, g2);
        BoundaryUnique(window, n1, n2);
        assert g1 == r[..n1][|c1|..] && g2 == r[..n2][|c2|..];
      }
    }
  }

  lemma {:induction false} BoundaryUnique(window: string, n1: nat, n2: nat)
    requires AtBoundary(window, n1) && AtBoundary(window, n2)
    ensures n1 == n2
  {
  }

  /** The first `k` chunks, each followed by its gap. */
  function Weave(chunks: seq<string>, gaps: seq<string>, k: nat): string
    requires k <= |chunks| == |gaps|
  {
    if k == 0 then "" else Weave(chunks, gaps, k - 1) + (chunks[k - 1] + gaps[k - 1])
  }

  /** No text is lost: the chunks and what is dropped after each make up the text. */
  lemma {:induction false} NothingLost(text: string, upTo: nat, maxLen: nat, preserve: bool,
                                       chunks: seq<string>, gaps: seq<string>, starts: seq<nat>, k: nat)
    requires Segmented(text, upTo, maxLen, preserve, chunks, gaps, starts) && k <= |chunks|
    ensures starts[k] <= |text| && Weave(chunks, gaps, k) == text[..starts[k]]
  {
    forall i | 0 <= i < |chunks| ensures Stands(text, chunks[i], gaps[i], starts[i], starts[i + 1]) {
      SegmentText(text, upTo, maxLen, preserve, chunks, gaps, starts, i);
    }
    TilesWeave(text, chunks, gaps, starts, k);
  }

  predicate Stands(text: string, chunk: string, gap: string, from: nat, to: nat) {
    from <= to <= |text| && text[from..to] == chunk + gap
  }

  lemma {:induction false} TilesWeave(text: string, chunks: seq<string>, gaps: seq<string>, starts: seq<nat>, k: nat)
    requires k <= |chunks| == |gaps| && |starts| == |chunks| + 1 && starts[0] == 0
    requires forall i :: 0 <= i < |chunks| ==> Stands(text, chunks[i], gaps[i], starts[i], starts[i + 1])
    ensures starts[k] <= |text| && Weave(chunks, gaps, k) == text[..starts[k]]
  {
    if k > 0 {
      TilesWeave(text, chunks, gaps, starts, k - 1);
      assert Stands(text, chunks[k - 1], gaps[k - 1], starts[k - 1], starts[k - 1 + 1]);
      PrefixGrows(text, starts[k - 1], starts[k]);
    }
  }

  lemma {:induction false} SegmentText(text: string, upTo: nat, maxLen: nat, preserve: bool,
                                       chunks: seq<string>, gaps: seq<string>, starts: seq<nat>, i: nat)
    requires Segmented(text, upTo, maxLen, preserve, chunks, gaps, starts) && i < |chunks|
    ensures Stands(text, chunks[i], gaps[i], starts[i], starts[i + 1])
  {
    SegmentHolds(text, maxLen, preserve, chunks, gaps, starts, |chunks|, i);
  }

  lemma {:induction false} PrefixGrows(text: string, from: nat, to: nat)
    requires from <= to <= |text|
    ensures text[..to] == text[..from] + text[from..to]
  {
  }

  /** Every chunk is within the bound, and what is dropped after it is white space. */
  lemma {:induction false} ChunksBounded(text: string, maxLen: nat, preserve: bool, chunks: seq<string>,
                                         gaps: seq<string>, starts: seq<nat>)
    requires Segmented(text, |text|, maxLen, preserve, chunks, gaps, starts)
    ensures forall i :: 0 <= i < |gaps| ==> AllOf(gaps[i], JsSpace)
    ensures forall i :: 0 <= i < |chunks| ==> |chunks[i]| <= if preserve then 2 * maxLen else maxLen
  {
    forall i | 0 <= i < |chunks|
      ensures AllOf(gaps[i], JsSpace)
      ensures |chunks[i]| <= if preserve then 2 * maxLen else maxLen
    {
      SegmentHolds(text, maxLen, preserve, chunks, gaps, starts, |chunks|, i);
      CutBounds(text[starts[i]..], maxLen, preserve, chunks[i], gaps[i]);
    }
  }

  /** What a cut of `r` leaves no chunk of: the empty text, or an over-long one with no code block to keep and only
      white space before the window's boundary. */
  ghost predicate CutsEmpty(r: string, maxLen: nat, preserve: bool) {
    if |r| <= maxLen then r == "" else !(preserve && Keeps(r, maxLen)) && BlankToBoundary(r, maxLen)
  }

  lemma {:induction false} EmptyCutIff(r: string, maxLen: nat, preserve: bool, chunk: string, gap: string)
    requires maxLen >= 1 && GoodCut(r, maxLen, preserve, chunk, gap)
    ensures chunk == "" <==> CutsEmpty(r, maxLen, preserve)
  {
    if |r| > maxLen {
      if preserve && Keeps(r, maxLen) {
        var e: nat :| CutsKept(r, maxLen, e, chunk, gap);
      } else if HasBoundary(r[..maxLen]) {
        var n: nat :| CutsBoundary(r, maxLen, n, chunk, gap);
        if m: nat :| m <= maxLen && AtBoundary(r[..maxLen], m) && AllOf(r[..m], JsSpace) {
          BoundaryUnique(r[..maxLen], n, m);
          BlankTrimsAway(r[..n]);
        }
        if chunk == "" {
          assert gap == r[..n];
        }
      }
    }
  }

  /** A chunk of a message is empty exactly when the text left at its start is one that cuts empty: the empty message,
      or white space up to the window's boundary. */
  lemma {:induction false} EmptyChunkIff(text: string, upTo: nat, maxLen: nat, preserve: bool,
                                         chunks: seq<string>, gaps: seq<string>, starts: seq<nat>, i: nat)
    requires maxLen >= 1 && Segmented(text, upTo, maxLen, preserve, chunks, gaps, starts) && i < |chunks|
    ensures starts[i] <= |text| && (chunks[i] == "" <==> CutsEmpty(text[starts[i]..], maxLen, preserve))
  {
    SegmentHolds(text, maxLen, preserve, chunks, gaps, starts, |chunks|, i);
    EmptyCutIff(text[starts[i]..], maxLen, preserve, chunks[i], gaps[i]);
  }

  lemma {:induction false} BlankTrimsAway(s: string)
    requires AllOf(s, JsSpace)
    ensures TrimEnd(s, JsSpace) == ""
  {
    if s != "" {
      BlankTrimsAway(s[..|s| - 1]);
    }
  }

  ghost predicate BlankToBoundary(r: string, maxLen: nat)
    requires maxLen < |r|
  {
    exists n: nat :: n <= maxLen && AtBoundary(r[..maxLen], n) && AllOf(r[..n], JsSpace)
  }

  /** With a limit of 0 the only cut takes and drops nothing, so that the loop would not end. */
  lemma {:induction false} ZeroLimitMakesNoProgress(r: string, preserve: bool, chunk: string, gap: string)
    requires r != "" && GoodCut(r, 0, preserve, chunk, gap)
    ensures chunk == "" && gap == ""
  {
  }

  /** Such chunks do occur: a message may start with a blank paragraph. */
  lemma {:induction false} EmptyChunkHappens()
    ensures GoodCut("\n\nab", 3, false, "", "\n\n")
  {
    var r := "\n\nab";
    assert OccursAt(r[..3], "\n\n", 0);
    assert r[..3][1..3][1] == 'a';
    assert LastAt(r[..3], "\n\n", 0);
    assert TrimEnd(r[..2], JsSpace) == "" by {
      assert r[..2][..1] == "\n";
      assert TrimEnd("\n", JsSpace) == TrimEnd("", JsSpace);
    }
    assert CutsBoundary(r, 3, 2, "", "\n\n");
  }

  // ---------------------------------------------------------------- kept blocks

  lemma {:induction false} FencesConcat(a: string, b: string)
    requires b != "" ==> b[0] != '`'
    ensures CountFences(a + b) == CountFences(a) + CountFences(b)
    decreases |a|
  {
    if a == "" {
      assert a + b == b;
    } else if OccursAt(a, FENCE, 0) {
      assert (a + b)[0..3] == a[0..3];
      assert (a + b)[3..] == a[3..] + b;
      FencesConcat(a[3..], b);
    } else {
      assert (a + b)[1..] == a[1..] + b;
      FencesConcat(a[1..], b);
      StraddleIsNoFence(a, b);
    }
  }

  lemma {:induction false} StraddleIsNoFence(a: string, b: string)
    requires a != "" && !OccursAt(a, FENCE, 0) && (b != "" ==> b[0] != '`')
    ensures !OccursAt(a + b, FENCE, 0)
    ensures |a| < 3 ==> CountFences(a) == 0 && CountFences(a[1..]) == 0
  {
    var s := a + b;
    if |a| >= 3 {
      assert a[0..3] == s[0..3];
    } else if |s| >= 3 {
      assert s[0..3][|a|] == b[0] && FENCE[|a|] == '`';
    }
  }

  lemma {:induction false} FirstInTail(s: string, p: nat)
    requires FirstAt(s, FENCE, p) && p > 0
    ensures FirstAt(s[1..], FENCE, p - 1)
  {
    SliceOfTail(s, p - 1, p + 2);
    forall q: nat | q < p - 1 ensures !OccursAt(s[1..], FENCE, q) {
      if q + 3 <= |s[1..]| {
        SliceOfTail(s, q, q + 3);
      }
      assert !OccursAt(s, FENCE, q + 1);
    }
  }

  lemma {:induction false} FirstFenceCounts(s: string, p: nat)
    requires FirstAt(s, FENCE, p)
    ensures CountFences(s[..p + 3]) == 1
    decreases p
  {
    var t := s[..p + 3];
    if p == 0 {
      assert t[0..3] == FENCE && t[3..] == "";
    } else {
      assert OccursAt(t, FENCE, 0) ==> OccursAt(s, FENCE, 0) by { assert t[0..3] == s[0..3]; }
      FirstInTail(s, p);
      FirstFenceCounts(s[1..], p - 1);
      assert t[1..] == s[1..][..p + 2];
    }
  }

  predicate Tick(c: char) {
    c == '`'
  }

  /** The back-quotes at the end of `s`. */
  function TrailingTicks(s: string): nat {
    if AllOf(s, Tick) then |s| else TrailingTicks(s[1..])
  }

  /** The back-quotes at the start of `s`. */
  function LeadingTicks(s: string): (n: nat)
    ensures n <= |s| && (n < |s| ==> !Tick(s[n]))
    ensures forall i :: 0 <= i < n ==> Tick(s[i])
  {
    if s == "" || !Tick(s[0]) then 0 else 1 + LeadingTicks(s[1..])
  }

  function Ticks(n: nat): string {
    seq(n, _ => '`')
  }

  /** What the global match of the fences of `a` leaves over for what follows: up to two back-quotes. */
  function LeftOver(a: string): string {
    Ticks(TrailingTicks(a) % 3)
  }

  lemma {:induction false} FenceIsTicks(s: string)
    ensures OccursAt(s, FENCE, 0) <==> |s| >= 3 && Tick(s[0]) && Tick(s[1]) && Tick(s[2])
  {
    if |s| >= 3 {
      assert s[0..3] == [s[0], s[1], s[2]];
    }
  }

  lemma {:induction false} SkipsFirst(s: string)
    requires s != "" && !OccursAt(s, FENCE, 0)
    ensures CountFences(s) == CountFences(s[1..])
  {
  }

  lemma {:induction false} ShortLeftOver(a: string, b: string)
    requires |a| < 3
    ensures CountFences(a) == 0 && CountFences(a + b) == CountFences(LeftOver(a) + b)
  {
    if AllOf(a, Tick) {
      assert a == Ticks(|a|);
    } else {
      FenceIsTicks(a + b);
      assert (a + b)[1..] == a[1..] + b;
      SkipsFirst(a + b);
      ShortLeftOver(a[1..], b);
    }
  }

  lemma {:induction false} TrailingAfterFence(s: string)
    requires OccursAt(s, FENCE, 0)
    ensures TrailingTicks(s) % 3 == TrailingTicks(s[3..]) % 3
  {
    FenceIsTicks(s);
    if AllOf(s, Tick) {
      assert AllOf(s[3..], Tick);
    } else {
      var k :| 0 <= k < |s| && !Tick(s[k]);
      var t := s[1..];
      var u := t[1..];
      assert !Tick(t[k - 1]) && !Tick(u[k - 2]) && u[1..] == s[3..];
      assert TrailingTicks(s) == TrailingTicks(t) == TrailingTicks(u) == TrailingTicks(u[1..]);
    }
  }

  /** Matching goes on after `a` with what it left over. */
  lemma {:induction false} CountContinues(a: string, b: string)
    ensures CountFences(a + b) == CountFences(a) + CountFences(LeftOver(a) + b)
    decreases |a|
  {
    FenceIsTicks(a);
    FenceIsTicks(a + b);
    if |a| < 3 {
      ShortLeftOver(a, b);
    } else if OccursAt(a, FENCE, 0) {
      assert (a + b)[3..] == a[3..] + b;
      TrailingAfterFence(a);
      CountContinues(a[3..], b);
    } else {
      assert (a + b)[1..] == a[1..] + b;
      assert !AllOf(a, Tick);
      SkipsFirst(a);
      SkipsFirst(a + b);
      CountContinues(a[1..], b);
    }
  }

  lemma {:induction false} CountTicks(n: nat)
    ensures CountFences(Ticks(n)) == n / 3
  {
    FenceIsTicks(Ticks(n));
    if n >= 3 {
      assert Ticks(n)[3..] == Ticks(n - 3);
      CountTicks(n - 3);
    }
  }

  /** Up to two back-quotes in front of a text that does not start with a fence add a fence to it exactly when they
      make one with those the text starts with. */
  lemma {:induction false} TicksBefore(l: nat, t: string)
    requires l < 3 && LeadingTicks(t) < 3
    ensures CountFences(Ticks(l) + t) == CountFences(t) + if l + LeadingTicks(t) >= 3 then 1 else 0
  {
    var o := LeadingTicks(t);
    var u := t[o..];
    assert t[..o] == Ticks(o);
    assert t == Ticks(o) + u && Ticks(l) + t == Ticks(l + o) + u;
    FencesConcat(Ticks(o), u);
    FencesConcat(Ticks(l + o), u);
    CountTicks(o);
    CountTicks(l + o);
  }

  /** The back-quotes left over at the window's end and those that open the rest make a fence across the two, which the
      search for the closing fence does not see. */
  predicate FenceAcross(r: string, maxLen: nat)
    requires maxLen <= |r|
  {
    var opening := LeadingTicks(r[maxLen..]);
    opening < 3 && TrailingTicks(r[..maxLen]) % 3 + opening >= 3
  }

  /** A kept block is whole, with an even number of fences, exactly when no fence lies across the window's end. */
  lemma {:induction false} KeptBlockIsBalancedIff(r: string, maxLen: nat, e: nat)
    requires maxLen < |r| && KeepsBlock(r, maxLen, e)
    ensures e <= |r| && (CountFences(r[..e]) % 2 == 0 <==> !FenceAcross(r, maxLen))
  {
    var p := e - maxLen - 3;
    var window, tail := r[..maxLen], r[maxLen..][..p + 3];
    assert r[..e] == window + tail;
    CountContinues(window, tail);
    TailCounts(TrailingTicks(window) % 3, r[maxLen..], p);
  }

  /** What a text up to its first fence counts after `l` back-quotes. */
  lemma {:induction false} TailCounts(l: nat, s: string, p: nat)
    requires l < 3 && FirstAt(s, FENCE, p)
    ensures CountFences(Ticks(l) + s[..p + 3]) == 1 + if LeadingTicks(s) < 3 && l + LeadingTicks(s) >= 3 then 1 else 0
  {
    var tail := s[..p + 3];
    FenceIsTicks(s);
    if p == 0 {
      assert tail == Ticks(3) && Ticks(l) + tail == Ticks(l + 3);
      CountTicks(l + 3);
    } else {
      FirstFenceCounts(s, p);
      assert !OccursAt(s, FENCE, 0);
      assert LeadingTicks(tail) == LeadingTicks(s);
      TicksBefore(l, tail);
    }
  }

  lemma {:induction false} TrailingAfter(a: string, c: char, n: nat)
    requires !Tick(c)
    ensures TrailingTicks(a + [c] + Ticks(n)) == n
    decreases |a|
  {
    var s := a + [c] + Ticks(n);
    assert s[|a|] == c;
    if a == "" {
      assert s[1..] == Ticks(n);
    } else {
      assert s[1..] == a[1..] + [c] + Ticks(n);
      TrailingAfter(a[1..], c, n);
    }
  }

  /** Such a fence does occur: the window ends amid a run of three back-quotes inside a block. */
  lemma {:induction false} UnbalancedBlockHappens(r: string)
    requires r == "```a```b```x"
    ensures KeepsBlock(r, 6, 11) && FenceAcross(r, 6) && CountFences(r[..11]) == 3
  {
    var window, rest := r[..6], r[6..];
    assert window == Ticks(3) + ['a'] + Ticks(2);
    TrailingAfter(Ticks(3), 'a', 2);
    FencesConcat(Ticks(3), ['a'] + Ticks(2));
    assert Ticks(3) + (['a'] + Ticks(2)) == window && (['a'] + Ticks(2))[1..] == Ticks(2);
    CountTicks(3);
    assert CountFences(window) == 1 by { assert ['a'][0] == 'a'; FenceIsTicks(['a'] + Ticks(2)); }
    FirstOfRest(rest);
    assert r[..11] == window + rest[..5];
    CountContinues(window, rest[..5]);
    TailCounts(2, rest, 2);
  }

  lemma {:induction false} FirstOfRest(rest: string)
    requires |rest| == 6 && Tick(rest[0]) && rest[1] == 'b' && Tick(rest[2]) && Tick(rest[3]) && Tick(rest[4])
    ensures FirstAt(rest, FENCE, 2) && LeadingTicks(rest) == 1
  {
    assert rest[2..5] == [rest[2], rest[3], rest[4]];
    assert rest[0..3][1] == 'b' && rest[1..4][0] == 'b';
    assert !Tick(rest[1]);
  }
}
