/** Correcting misheard names in a transcript: one pass over the text replaces every variant of every item. */
module TermFixer {
  import opened Common
  import Seqs

  /** How Python sees characters: word characters (`\w`), digits (`\d`), how the engine folds a character under
      IGNORECASE, and `casefold` of a string, which need not agree with the engine. The results hold for every
      alphabet. */
  datatype Alphabet = Alphabet(word: char -> bool, digit: char -> bool, fold: char -> char, caseFold: string -> string)

  function Fold(a: Alphabet, s: string): (r: string)
    ensures |r| == |s|
  {
    seq(|s|, i requires 0 <= i < |s| => a.fold(s[i]))
  }

  datatype Confidence = High | Low

  /** The part of a replacement that never changes; `corrected` is `None` for a value that is not a string. */
  datatype Item = Item(heard: string, variants: seq<string>, corrected: Option<string>, confidence: Confidence,
                       description: string)

  class Replacement {
    const item: Item
    var matched: bool

    constructor (item: Item)
      ensures this.item == item && !matched
    {
      this.item := item;
      matched := false;
    }
  }

  // ---------------------------------------------------------------- the alternatives, in order

  /** A variant and the index of its replacement. */
  datatype Pair = Pair(variant: string, rep: nat)

  function VariantPairs(variants: seq<string>, rep: nat): seq<Pair> {
    if variants == [] then []
    else if variants[0] == "" then VariantPairs(variants[1..], rep)
    else [Pair(variants[0], rep)] + VariantPairs(variants[1..], rep)
  }

  /** All non-empty variants of the items from `from` on. */
  function PairsFrom(items: seq<Item>, from: nat): seq<Pair>
    decreases |items| - from
  {
    if from >= |items| then [] else VariantPairs(items[from].variants, from) + PairsFrom(items, from + 1)
  }

  /** Longer variants first; equal lengths keep their order. */
  function ByLength(ps: seq<Pair>): (r: seq<Pair>)
    ensures Descending(r)
    ensures forall p :: p in r <==> p in ps
  {
    if ps == [] then [] else InsertByLength(ps[0], ByLength(ps[1..]))
  }

  predicate Descending(ps: seq<Pair>) {
    forall i, j :: 0 <= i < j < |ps| ==> |ps[i].variant| >= |ps[j].variant|
  }

  function InsertByLength(p: Pair, ps: seq<Pair>): (r: seq<Pair>)
    requires Descending(ps)
    ensures Descending(r)
    ensures forall q :: q in r <==> q == p || q in ps
  {
    if ps == [] || |p.variant| >= |ps[0].variant| then [p] + ps
    else
      var rest := InsertByLength(p, ps[1..]);
      assert forall q :: q in rest ==> |q.variant| <= |ps[0].variant|;
      [ps[0]] + rest
  }

  // ---------------------------------------------------------------- matching

  /** Variant `v` stands at `i`, up to case, with no word character on either side. */
  predicate MatchAt(a: Alphabet, text: string, i: nat, v: string) {
    && i + |v| <= |text|
    && Fold(a, text[i..i + |v|]) == Fold(a, v)
    && (i > 0 ==> !a.word(text[i - 1]))
    && (i + |v| < |text| ==> !a.word(text[i + |v|]))
  }

  /** The first alternative that matches at `i`; `|ps|` when none does. */
  function FirstMatch(a: Alphabet, text: string, i: nat, ps: seq<Pair>): (k: nat)
    ensures k <= |ps|
    ensures k < |ps| ==> MatchAt(a, text, i, ps[k].variant)
    ensures forall j :: 0 <= j < k ==> !MatchAt(a, text, i, ps[j].variant)
  {
    if ps == [] || MatchAt(a, text, i, ps[0].variant) then 0 else 1 + FirstMatch(a, text, i, ps[1..])
  }

  /** A stretch `[start, end)` of the text, matched by alternative `pair`. */
  datatype Span = Span(start: nat, end: nat, pair: nat)

  predicate AllNonEmpty(ps: seq<Pair>) {
    forall p :: p in ps ==> p.variant != ""
  }

  predicate Inside(text: string, spans: seq<Span>) {
    forall k :: 0 <= k < |spans| ==> spans[k].start < spans[k].end <= |text|
  }

  /** What span `k` covers. */
  function Found(text: string, spans: seq<Span>, k: nat): string
    requires k < |spans| && Inside(text, spans)
  {
    text[spans[k].start..spans[k].end]
  }

  /** The matches that `re.sub` finds from `i` on: left to right, never overlapping, first alternative first. */
  function Spans(a: Alphabet, text: string, i: nat, ps: seq<Pair>): (spans: seq<Span>)
    requires AllNonEmpty(ps)
    ensures Inside(text, spans)
    decreases |text| - i
  {
    if i >= |text| then []
    else
      var k := FirstMatch(a, text, i, ps);
      if k < |ps| then
        assert ps[k] in ps;
        [Span(i, i + |ps[k].variant|, k)] + Spans(a, text, i + |ps[k].variant|, ps)
      else Spans(a, text, i + 1, ps)
  }

  // ---------------------------------------------------------------- what the spans are

  /** `s` is a word-bounded match of its alternative, which is longest among those that match at its start, and the
      first of those that are equal for the engine. */
  ghost predicate GoodSpan(a: Alphabet, text: string, ps: seq<Pair>, s: Span) {
    && s.pair < |ps|
    && s.start < s.end <= |text|
    && s.end == s.start + |ps[s.pair].variant|
    && MatchAt(a, text, s.start, ps[s.pair].variant)
    && (forall p :: p in ps && MatchAt(a, text, s.start, p.variant) ==> |p.variant| <= s.end - s.start)
    && (forall j :: 0 <= j < s.pair ==> Fold(a, ps[j].variant) != Fold(a, ps[s.pair].variant))
  }

  ghost predicate CoveredBy(spans: seq<Span>, i: nat) {
    exists k :: 0 <= k < |spans| && spans[k].start <= i < spans[k].end
  }

  /** Some alternative matches at `i`. */
  ghost predicate CanMatch(a: Alphabet, text: string, ps: seq<Pair>, i: nat) {
    exists p :: p in ps && MatchAt(a, text, i, p.variant)
  }

  ghost predicate AllGood(a: Alphabet, text: string, from: nat, ps: seq<Pair>, spans: seq<Span>) {
    forall k :: 0 <= k < |spans| ==> from <= spans[k].start && GoodSpan(a, text, ps, spans[k])
  }

  predicate Apart(spans: seq<Span>) {
    forall j, k :: 0 <= j < k < |spans| ==> spans[j].end <= spans[k].start
  }

  ghost predicate Complete(a: Alphabet, text: string, from: nat, ps: seq<Pair>, spans: seq<Span>) {
    forall i: nat :: from <= i && CanMatch(a, text, ps, i) ==> CoveredBy(spans, i)
  }

  /** From `from` on, the spans lie in order and apart, each is good, and nothing that could match starts outside. */
  ghost predicate Chosen(a: Alphabet, text: string, from: nat, ps: seq<Pair>, spans: seq<Span>) {
    AllGood(a, text, from, ps, spans) && Apart(spans) && Complete(a, text, from, ps, spans)
  }

  lemma {:induction false} SpansAreChosen(a: Alphabet, text: string, from: nat, ps: seq<Pair>)
    requires AllNonEmpty(ps) && Descending(ps)
    ensures Chosen(a, text, from, ps, Spans(a, text, from, ps))
    decreases |text| - from
  {
    if from >= |text| {
      NothingPastEnd(a, text, from, ps);
    } else if FirstMatch(a, text, from, ps) < |ps| {
      var s := FirstSpan(a, text, from, ps);
      SpansAreChosen(a, text, s.end, ps);
      ConsChosen(a, text, ps, s, Spans(a, text, s.end, ps));
    } else {
      SpansAreChosen(a, text, from + 1, ps);
      NoFirstNoMatch(a, text, from, ps);
      SkipChosen(a, text, from, ps, Spans(a, text, from + 1, ps));
    }
  }

  lemma {:induction false} FirstSpan(a: Alphabet, text: string, from: nat, ps: seq<Pair>) returns (s: Span)
    requires AllNonEmpty(ps) && Descending(ps) && from < |text| && FirstMatch(a, text, from, ps) < |ps|
    ensures s.start == from < s.end && GoodSpan(a, text, ps, s)
    ensures Spans(a, text, from, ps) == [s] + Spans(a, text, s.end, ps)
  {
    s := SpanAt(a, text, from, ps);
    FirstIsLongest(a, text, from, ps);
    FirstIsFirst(a, text, from, ps);
  }

  /** Where a match begins, the spans go on with it. */
  lemma {:induction false} SpanAt(a: Alphabet, text: string, i: nat, ps: seq<Pair>) returns (s: Span)
    requires AllNonEmpty(ps) && i < |text| && FirstMatch(a, text, i, ps) < |ps|
    ensures s.start == i < s.end && s.pair == FirstMatch(a, text, i, ps) && s.end == i + |ps[s.pair].variant|
    ensures Spans(a, text, i, ps) == [s] + Spans(a, text, s.end, ps)
  {
    var k := FirstMatch(a, text, i, ps);
    assert ps[k] in ps;
    s := Span(i, i + |ps[k].variant|, k);
  }

  lemma {:induction false} NothingPastEnd(a: Alphabet, text: string, from: nat, ps: seq<Pair>)
    requires AllNonEmpty(ps) && from >= |text|
    ensures Chosen(a, text, from, ps, [])
  {
  }

  lemma {:induction false} FirstIsLongest(a: Alphabet, text: string, i: nat, ps: seq<Pair>)
    requires Descending(ps) && FirstMatch(a, text, i, ps) < |ps|
    ensures forall p :: p in ps && MatchAt(a, text, i, p.variant) ==>
                          |p.variant| <= |ps[FirstMatch(a, text, i, ps)].variant|
  {
  }

  lemma {:induction false} FirstIsFirst(a: Alphabet, text: string, i: nat, ps: seq<Pair>)
    requires FirstMatch(a, text, i, ps) < |ps|
    ensures var k := FirstMatch(a, text, i, ps);
            forall j :: 0 <= j < k ==> Fold(a, ps[j].variant) != Fold(a, ps[k].variant)
  {
    var k := FirstMatch(a, text, i, ps);
    forall j | 0 <= j < k ensures Fold(a, ps[j].variant) != Fold(a, ps[k].variant) {
      SameFoldMatches(a, text, i, ps[k].variant, ps[j].variant);
    }
  }

  /** What matches depends on the variant only up to the engine's folding. */
  lemma {:induction false} SameFoldMatches(a: Alphabet, text: string, i: nat, v: string, w: string)
    requires MatchAt(a, text, i, v)
    ensures Fold(a, w) == Fold(a, text[i..i + |v|]) ==> MatchAt(a, text, i, w)
  {
  }

  lemma {:induction false} NoFirstNoMatch(a: Alphabet, text: string, i: nat, ps: seq<Pair>)
    requires FirstMatch(a, text, i, ps) == |ps|
    ensures !CanMatch(a, text, ps, i)
  {
  }

  lemma {:induction false} SkipChosen(a: Alphabet, text: string, from: nat, ps: seq<Pair>, spans: seq<Span>)
    requires !CanMatch(a, text, ps, from) && Chosen(a, text, from + 1, ps, spans)
    ensures Chosen(a, text, from, ps, spans)
  {
  }

  lemma {:induction false} ConsChosen(a: Alphabet, text: string, ps: seq<Pair>, s: Span, rest: seq<Span>)
    requires GoodSpan(a, text, ps, s) && Chosen(a, text, s.end, ps, rest)
    ensures Chosen(a, text, s.start, ps, [s] + rest)
  {
    var spans := [s] + rest;
    assert AllGood(a, text, s.start, ps, spans) && Apart(spans);
    forall i: nat | s.start <= i && CanMatch(a, text, ps, i) ensures CoveredBy(spans, i) {
      if i < s.end {
        assert spans[0] == s;
      } else {
        var k :| 0 <= k < |rest| && rest[k].start <= i < rest[k].end;
        assert spans[k + 1] == rest[k];
      }
    }
  }

  /** What is chosen is determined: any account of it names the same spans, and the same alternatives for them. */
  lemma {:induction false} ChosenUnique(a: Alphabet, text: string, from: nat, ps: seq<Pair>, s1: seq<Span>,
                                        s2: seq<Span>)
    requires Chosen(a, text, from, ps, s1) && Chosen(a, text, from, ps, s2)
    ensures s1 == s2
    decreases |s1|
  {
    if s1 != [] && s2 != [] {
      FirstSpanUnique(a, text, from, ps, s1, s2);
      TailChosen(a, text, from, ps, s1);
      TailChosen(a, text, from, ps, s2);
      ChosenUnique(a, text, s1[0].end, ps, s1[1..], s2[1..]);
      Seqs.HeadAndTail(s1);
      Seqs.HeadAndTail(s2);
    } else {
      EmptyUnique(a, text, from, ps, s1, s2);
      EmptyUnique(a, text, from, ps, s2, s1);
    }
  }

  lemma {:induction false} EmptyUnique(a: Alphabet, text: string, from: nat, ps: seq<Pair>, s1: seq<Span>,
                                       s2: seq<Span>)
    requires Chosen(a, text, from, ps, s1) && Chosen(a, text, from, ps, s2)
    ensures s1 == [] ==> s2 == []
  {
    if s2 != [] {
      assert ps[s2[0].pair] in ps;
      assert CoveredBy(s1, s2[0].start);
    }
  }

  lemma {:induction false} FirstSpanUnique(a: Alphabet, text: string, from: nat, ps: seq<Pair>, s1: seq<Span>,
                                           s2: seq<Span>)
    requires s1 != [] && s2 != []
    requires Chosen(a, text, from, ps, s1) && Chosen(a, text, from, ps, s2)
    ensures s1[0] == s2[0]
  {
    var p, q := s1[0], s2[0];
    assert ps[p.pair] in ps && ps[q.pair] in ps;
    assert CoveredBy(s1, q.start) && CoveredBy(s2, p.start);
    assert p.start == q.start;
    assert p.end == q.end;
    assert Fold(a, ps[p.pair].variant) == Fold(a, text[p.start..p.end]) == Fold(a, ps[q.pair].variant);
    assert !(p.pair < q.pair) && !(q.pair < p.pair);
  }

  lemma {:induction false} TailChosen(a: Alphabet, text: string, from: nat, ps: seq<Pair>, spans: seq<Span>)
    requires Chosen(a, text, from, ps, spans) && spans != []
    ensures Chosen(a, text, spans[0].end, ps, spans[1..])
  {
    var s, rest := spans[0], spans[1..];
    assert Apart(rest);
    forall i: nat | s.end <= i && CanMatch(a, text, ps, i) ensures CoveredBy(rest, i) {
      var k :| 0 <= k < |spans| && spans[k].start <= i < spans[k].end;
      assert rest[k - 1] == spans[k];
    }
  }

  // ---------------------------------------------------------------- rewriting

  function Annotation(russian: bool, found: string, corr: string): string {
    found + (if russian then " (вероятно " else " (likely ") + corr + "?)"
  }

  function RepOf(ps: seq<Pair>, spans: seq<Span>, k: nat): nat
    requires k < |spans| && spans[k].pair < |ps|
  {
    ps[spans[k].pair].rep
  }

  /** The spans refer to alternatives, the alternatives to items, and the stretches to the text. */
  predicate Refers(text: string, items: seq<Item>, ps: seq<Pair>, spans: seq<Span>) {
    && (forall p :: p in ps ==> p.rep < |items|)
    && (forall k :: 0 <= k < |spans| ==> spans[k].pair < |ps|)
    && Inside(text, spans) && Apart(spans)
  }

  predicate SeenBefore(ps: seq<Pair>, spans: seq<Span>, k: nat)
    requires k < |spans| && forall j :: 0 <= j < |spans| ==> spans[j].pair < |ps|
  {
    exists j :: 0 <= j < k && RepOf(ps, spans, j) == RepOf(ps, spans, k)
  }

  /** What replaces span `k`; `None` when its correction is not a string. */
  function PieceAt(text: string, items: seq<Item>, ps: seq<Pair>, spans: seq<Span>, russian: bool,
                   k: nat): Option<string>
    requires Refers(text, items, ps, spans) && k < |spans|
  {
    assert ps[spans[k].pair] in ps;
    var item := items[RepOf(ps, spans, k)];
    var found := Found(text, spans, k);
    if item.corrected.None? then None
    else if item.confidence == High then item.corrected
    else if SeenBefore(ps, spans, k) then Some(found)
    else Some(Annotation(russian, found, item.corrected.value))
  }

  function EndOf(spans: seq<Span>, k: nat): nat
    requires k <= |spans|
  {
    if k == 0 then 0 else spans[k - 1].end
  }

  /** The text up to the end of the `k`-th span, spans replaced and everything else as it was. */
  function RewrittenTo(text: string, items: seq<Item>, ps: seq<Pair>, spans: seq<Span>, russian: bool,
                       k: nat): Option<string>
    requires Refers(text, items, ps, spans) && k <= |spans|
  {
    if k == 0 then Some("")
    else
      var before := RewrittenTo(text, items, ps, spans, russian, k - 1);
      var piece := PieceAt(text, items, ps, spans, russian, k - 1);
      if before.None? || piece.None? then None
      else
        assert k >= 2 ==> spans[k - 2].end <= spans[k - 1].start;
        Some(before.value + text[EndOf(spans, k - 1)..spans[k - 1].start] + piece.value)
  }

  function Rewritten(text: string, items: seq<Item>, ps: seq<Pair>, spans: seq<Span>, russian: bool): Option<string>
    requires Refers(text, items, ps, spans)
  {
    var r := RewrittenTo(text, items, ps, spans, russian, |spans|);
    if r.None? then None else Some(r.value + text[EndOf(spans, |spans|)..])
  }

  /** The stretches of the text from `from` on that lie before, between and after the spans. */
  function Gaps(text: string, from: nat, spans: seq<Span>): (gaps: seq<string>)
    requires InOrder(text, from, spans)
    ensures |gaps| == |spans| + 1
    decreases |spans|
  {
    if spans == [] then [text[from..]]
    else [text[from..spans[0].start]] + Gaps(text, spans[0].end, spans[1..])
  }

  predicate InOrder(text: string, from: nat, spans: seq<Span>)
    decreases |spans|
  {
    if spans == [] then from <= |text|
    else from <= spans[0].start <= spans[0].end <= |text| && InOrder(text, spans[0].end, spans[1..])
  }

  /** The gaps in order, with the pieces between them. */
  function Woven(gaps: seq<string>, pieces: seq<string>): string
    requires |gaps| == |pieces| + 1
  {
    if pieces == [] then gaps[0] else gaps[0] + pieces[0] + Woven(gaps[1..], pieces[1..])
  }

  lemma {:induction false} RefersInOrder(text: string, spans: seq<Span>, from: nat)
    requires Inside(text, spans)
    requires Apart(spans) && from <= |text| && (spans != [] ==> from <= spans[0].start)
    ensures InOrder(text, from, spans)
    decreases |spans|
  {
    if spans != [] {
      assert Apart(spans[1..]);
      RefersInOrder(text, spans[1..], spans[0].end);
    }
  }

  /** What the spans cover. */
  function Covered(text: string, spans: seq<Span>): seq<string>
    requires Inside(text, spans)
  {
    seq(|spans|, k requires 0 <= k < |spans| => Found(text, spans, k))
  }

  lemma {:induction false} CoveredWoven(text: string, from: nat, spans: seq<Span>)
    requires Inside(text, spans)
    requires InOrder(text, from, spans)
    ensures Woven(Gaps(text, from, spans), Covered(text, spans)) == text[from..]
    decreases |spans|
  {
    if spans != [] {
      var s := spans[0];
      CoveredWoven(text, s.end, spans[1..]);
      assert Covered(text, spans) == [text[s.start..s.end]] + Covered(text, spans[1..]);
      assert text[from..] == text[from..s.start] + text[s.start..s.end] + text[s.end..];
    }
  }

  /** A rewriting that succeeds is made of the gaps of the text, untouched and in order, and a piece for each span; the
      text itself is made of the same gaps and what the spans cover. */
  lemma {:induction false} OnlySpansChange(text: string, items: seq<Item>, ps: seq<Pair>, spans: seq<Span>,
                                           russian: bool)
    returns (pieces: seq<string>)
    requires Refers(text, items, ps, spans) && Rewritten(text, items, ps, spans, russian).Some?
    ensures InOrder(text, 0, spans) && Woven(Gaps(text, 0, spans), Covered(text, spans)) == text
    ensures |pieces| == |spans| && IsPieces(text, items, ps, spans, russian, pieces)
    ensures Rewritten(text, items, ps, spans, russian) == Some(Woven(Gaps(text, 0, spans), pieces))
  {
    FailsIff(text, items, ps, spans, russian, |spans|);
    pieces := seq(|spans|, k requires 0 <= k < |spans| => PieceAt(text, items, ps, spans, russian, k).value);
    RefersInOrder(text, spans, 0);
    CoveredWoven(text, 0, spans);
    assert text[0..] == text && spans[0..] == spans && pieces[0..] == pieces;
    RestWoven(text, items, ps, spans, russian, pieces, 0, "");
    assert "" + Woven(Gaps(text, 0, spans), pieces) == Woven(Gaps(text, 0, spans), pieces);
  }

  ghost predicate IsPieces(text: string, items: seq<Item>, ps: seq<Pair>, spans: seq<Span>, russian: bool,
                           pieces: seq<string>)
    requires Refers(text, items, ps, spans)
  {
    && |pieces| == |spans|
    && forall k :: 0 <= k < |spans| ==> PieceAt(text, items, ps, spans, russian, k) == Some(pieces[k])
  }

  /** From span `k` on, the remaining gaps and pieces follow what is `done`. */
  lemma {:induction false} RestWoven(text: string, items: seq<Item>, ps: seq<Pair>, spans: seq<Span>, russian: bool,
                                     pieces: seq<string>, k: nat, done: string)
    requires Refers(text, items, ps, spans) && k <= |spans| && IsPieces(text, items, ps, spans, russian, pieces)
    requires RewrittenTo(text, items, ps, spans, russian, k) == Some(done)
    requires InOrder(text, EndOf(spans, k), spans[k..])
    ensures Rewritten(text, items, ps, spans, russian) ==
            Some(done + Woven(Gaps(text, EndOf(spans, k), spans[k..]), pieces[k..]))
    decreases |spans| - k
  {
    if k < |spans| {
      var rest, gap := spans[k..], text[EndOf(spans, k)..spans[k].start];
      assert rest[0] == spans[k] && rest[1..] == spans[k + 1..] && pieces[k..][1..] == pieces[k + 1..];
      RewrittenNext(text, items, ps, spans, russian, k, done, pieces[k]);
      RestWoven(text, items, ps, spans, russian, pieces, k + 1, done + (gap + pieces[k]));
      FirstWoven(text, EndOf(spans, k), rest, pieces[k..]);
      Seqs.Regroup(done, gap + pieces[k], Woven(Gaps(text, spans[k].end, rest[1..]), pieces[k..][1..]));
    } else {
      assert spans[k..] == [] && pieces[k..] == [];
    }
  }

  lemma {:induction false} FirstWoven(text: string, from: nat, spans: seq<Span>, pieces: seq<string>)
    requires InOrder(text, from, spans) && spans != [] && |pieces| == |spans|
    ensures Woven(Gaps(text, from, spans), pieces) ==
            text[from..spans[0].start] + pieces[0] + Woven(Gaps(text, spans[0].end, spans[1..]), pieces[1..])
  {
    var gaps := Gaps(text, from, spans);
    assert gaps[1..] == Gaps(text, spans[0].end, spans[1..]);
  }

  /** A rewriting fails exactly when some span's correction is not a string. */
  lemma {:induction false} FailsIff(text: string, items: seq<Item>, ps: seq<Pair>, spans: seq<Span>, russian: bool,
                                    k: nat)
    requires Refers(text, items, ps, spans) && k <= |spans|
    ensures RewrittenTo(text, items, ps, spans, russian, k).None? <==>
            exists j :: 0 <= j < k && PieceAt(text, items, ps, spans, russian, j).None?
  {
    if k > 0 {
      FailsIff(text, items, ps, spans, russian, k - 1);
    }
  }

  /** Span `k` of item `i` carries the annotation. */
  ghost predicate Annotated(text: string, items: seq<Item>, ps: seq<Pair>, spans: seq<Span>, russian: bool, i: nat,
                            k: nat)
    requires Refers(text, items, ps, spans)
  {
    && k < |spans| && RepOf(ps, spans, k) == i < |items| && items[i].corrected.Some?
    && PieceAt(text, items, ps, spans, russian, k) ==
       Some(Annotation(russian, Found(text, spans, k), items[i].corrected.value))
  }

  lemma {:induction false} FirstSpanOf(ps: seq<Pair>, spans: seq<Span>, upTo: nat, i: nat) returns (k: nat)
    requires upTo <= |spans| && (forall k :: 0 <= k < |spans| ==> spans[k].pair < |ps|) && HasSpan(ps, spans, upTo, i)
    ensures k < upTo && RepOf(ps, spans, k) == i && forall j :: 0 <= j < k ==> RepOf(ps, spans, j) != i
  {
    if HasSpan(ps, spans, upTo - 1, i) {
      k := FirstSpanOf(ps, spans, upTo - 1, i);
    } else {
      k := upTo - 1;
    }
  }

  /** In a rewriting that succeeds, every low-confidence item with a span is annotated at exactly one: its first. At all
      its others stands what was found. */
  lemma {:induction false} AnnotatedOnce(text: string, items: seq<Item>, ps: seq<Pair>, spans: seq<Span>, russian: bool,
                                         i: nat)
    returns (k: nat)
    requires Refers(text, items, ps, spans) && Rewritten(text, items, ps, spans, russian).Some?
    requires i < |items| && items[i].confidence == Low && HasSpan(ps, spans, |spans|, i)
    ensures forall j: nat :: Annotated(text, items, ps, spans, russian, i, j) <==> j == k
    ensures k < |spans| && forall j :: 0 <= j < k ==> RepOf(ps, spans, j) != i
    ensures forall j :: k < j < |spans| && RepOf(ps, spans, j) == i ==>
                          PieceAt(text, items, ps, spans, russian, j) == Some(Found(text, spans, j))
  {
    k := FirstSpanOf(ps, spans, |spans|, i);
    FailsIff(text, items, ps, spans, russian, |spans|);
    assert PieceAt(text, items, ps, spans, russian, k).Some?;
    assert !SeenBefore(ps, spans, k);
    forall j | k < j < |spans| && RepOf(ps, spans, j) == i
      ensures PieceAt(text, items, ps, spans, russian, j) == Some(Found(text, spans, j))
      ensures !Annotated(text, items, ps, spans, russian, i, j)
    {
      assert SeenBefore(ps, spans, j);
      var found := Found(text, spans, j);
      assert items[i].corrected.Some? ==> |Annotation(russian, found, items[i].corrected.value)| > |found|;
    }
  }

  // ---------------------------------------------------------------- looking a match up

  /** The by-variant dictionary: the first alternative that `casefold` makes equal to `found`. */
  function LookUp(a: Alphabet, ps: seq<Pair>, found: string): (k: nat)
    ensures k <= |ps|
    ensures k < |ps| ==> a.caseFold(ps[k].variant) == a.caseFold(found)
    ensures forall j :: 0 <= j < k ==> a.caseFold(ps[j].variant) != a.caseFold(found)
  {
    if ps == [] || a.caseFold(ps[0].variant) == a.caseFold(found) then 0 else 1 + LookUp(a, ps[1..], found)
  }

  /** The first alternative that the engine matches to the whole of `found`. */
  function EngineLookUp(a: Alphabet, ps: seq<Pair>, found: string): (k: nat)
    ensures k <= |ps|
    ensures k < |ps| ==> Fold(a, ps[k].variant) == Fold(a, found)
    ensures forall j :: 0 <= j < k ==> Fold(a, ps[j].variant) != Fold(a, found)
  {
    if ps == [] || Fold(a, ps[0].variant) == Fold(a, found) then 0 else 1 + EngineLookUp(a, ps[1..], found)
  }

  /** The alternative whose item replaces `found`: the dictionary's, or else the engine's. */
  function Owner(a: Alphabet, ps: seq<Pair>, found: string): nat {
    if LookUp(a, ps, found) < |ps| then LookUp(a, ps, found) else EngineLookUp(a, ps, found)
  }

  /** The spans with the alternatives that own what they cover. */
  function Owned(a: Alphabet, text: string, ps: seq<Pair>, spans: seq<Span>): seq<Span>
    requires Inside(text, spans)
  {
    seq(|spans|, k requires 0 <= k < |spans| => spans[k].(pair := Owner(a, ps, Found(text, spans, k))))
  }

  /** The stretches that are rewritten, each with its owner. */
  function OwnedSpans(a: Alphabet, text: string, ps: seq<Pair>): seq<Span>
    requires AllNonEmpty(ps)
  {
    Owned(a, text, ps, Spans(a, text, 0, ps))
  }

  ghost predicate IsOwned(a: Alphabet, text: string, ps: seq<Pair>, spans: seq<Span>) {
    Inside(text, spans) && forall k :: 0 <= k < |spans| ==> spans[k].pair == Owner(a, ps, Found(text, spans, k)) < |ps|
  }

  /** A match always has an owner. It is the alternative that the engine matched exactly when no alternative has the
      match's casefold, or that one is the first that has it. */
  lemma {:induction false} OwnerIsMatchIff(a: Alphabet, text: string, ps: seq<Pair>, s: Span)
    requires GoodSpan(a, text, ps, s)
    ensures var found := text[s.start..s.end];
            && Owner(a, ps, found) < |ps|
            && (Owner(a, ps, found) == s.pair <==>
                || (forall p :: p in ps ==> a.caseFold(p.variant) != a.caseFold(found))
                || IsFirstKey(a, ps, s.pair, found))
  {
    var found := text[s.start..s.end];
    assert Fold(a, ps[s.pair].variant) == Fold(a, found);
    var e, l := EngineLookUp(a, ps, found), LookUp(a, ps, found);
    assert !(e < s.pair) && !(s.pair < e);
    if l < |ps| {
      assert ps[l] in ps;
    }
  }

  lemma {:induction false} TwoByLength(p: Pair, q: Pair)
    requires |p.variant| < |q.variant|
    ensures ByLength([p, q]) == [q, p]
  {
    assert [p, q][1..] == [q] && ByLength([]) == [];
    assert ByLength([q]) == [q];
    assert InsertByLength(p, [q]) == [q] + InsertByLength(p, []);
  }

  ghost predicate IsFirstKey(a: Alphabet, ps: seq<Pair>, k: nat, found: string) {
    && k < |ps| && a.caseFold(ps[k].variant) == a.caseFold(found)
    && forall j :: 0 <= j < k ==> a.caseFold(ps[j].variant) != a.caseFold(found)
  }

  /** No two alternatives have one casefold. */
  ghost predicate DistinctKeys(a: Alphabet, ps: seq<Pair>) {
    forall i, j :: 0 <= i < j < |ps| ==> a.caseFold(ps[i].variant) != a.caseFold(ps[j].variant)
  }

  /** With distinct keys a match is replaced by the item of the matched alternative exactly when the match's casefold is
      that of no other alternative. */
  lemma {:induction false} DistinctOwnerIff(a: Alphabet, text: string, ps: seq<Pair>, s: Span)
    requires GoodSpan(a, text, ps, s) && DistinctKeys(a, ps)
    ensures var found := text[s.start..s.end];
            Owner(a, ps, found) == s.pair <==> NoOtherKey(a, ps, s.pair, found)
  {
    OwnerIsMatchIff(a, text, ps, s);
  }

  /** No alternative but `k` has the casefold of `found`. */
  ghost predicate NoOtherKey(a: Alphabet, ps: seq<Pair>, k: nat, found: string) {
    forall j :: 0 <= j < |ps| && j != k ==> a.caseFold(ps[j].variant) != a.caseFold(found)
  }

  lemma {:induction false} OneVariant(v: string, rep: nat)
    requires v != ""
    ensures VariantPairs([v], rep) == [Pair(v, rep)]
  {
    assert [v][1..] == [] && VariantPairs([], rep) == [];
  }

  /** Such a match is possible: where the engine takes `found` for `v` (as U+0130 for `i`) but its casefold is that of a
      longer `w`, the text `found` becomes the correction of `w`'s item. */
  lemma {:induction false} OtherOwnerHappens(a: Alphabet, found: string, v: string, w: string, items: seq<Item>)
    requires v != "" && |v| < |w| && Fold(a, v) == Fold(a, found)
    requires a.caseFold(w) == a.caseFold(found) != a.caseFold(v)
    requires |items| == 2 && items[0].variants == [v] && items[1].variants == [w]
    ensures Alternatives(items) == [Pair(w, 1), Pair(v, 0)] && DistinctKeys(a, Alternatives(items))
    ensures Spans(a, found, 0, Alternatives(items)) == [Span(0, |found|, 1)]
    ensures Owner(a, Alternatives(items), found) == 0
  {
    assert |Fold(a, v)| == |v| && |Fold(a, found)| == |found|;
    OneVariant(v, 0);
    OneVariant(w, 1);
    assert PairsFrom(items, 2) == [];
    assert PairsFrom(items, 1) == [Pair(w, 1)];
    assert PairsFrom(items, 0) == [Pair(v, 0), Pair(w, 1)];
    TwoByLength(Pair(v, 0), Pair(w, 1));
    assert found[0..|found|] == found;
  }

  // ---------------------------------------------------------------- the replacement itself

  function Items(reps: seq<Replacement>): seq<Item> {
    seq(|reps|, i requires 0 <= i < |reps| => reps[i].item)
  }

  function Alternatives(items: seq<Item>): seq<Pair> {
    ByLength(PairsFrom(items, 0))
  }

  lemma {:induction false} PairsRefer(items: seq<Item>, from: nat)
    ensures forall p :: p in PairsFrom(items, from) ==>
                          p.rep < |items| && p.variant != "" && p.variant in items[p.rep].variants
    decreases |items| - from
  {
    if from < |items| {
      VariantPairsRefer(items[from].variants, from);
      PairsRefer(items, from + 1);
    }
  }

  lemma {:induction false} VariantPairsRefer(variants: seq<string>, rep: nat)
    ensures forall p :: p in VariantPairs(variants, rep) ==> p.rep == rep && p.variant != "" && p.variant in variants
  {
    if variants != [] {
      VariantPairsRefer(variants[1..], rep);
    }
  }

  /** Every span has an owner, whose item it belongs to. */
  lemma {:induction false} SpansRefer(a: Alphabet, text: string, items: seq<Item>)
    ensures AllNonEmpty(Alternatives(items))
    ensures var ps := Alternatives(items);
            Refers(text, items, ps, OwnedSpans(a, text, ps)) && IsOwned(a, text, ps, OwnedSpans(a, text, ps))
  {
    PairsRefer(items, 0);
    var ps := Alternatives(items);
    SpansAreChosen(a, text, 0, ps);
    OwnedRefer(a, text, ps, Spans(a, text, 0, ps));
  }

  lemma {:induction false} OwnedRefer(a: Alphabet, text: string, ps: seq<Pair>, spans: seq<Span>)
    requires Chosen(a, text, 0, ps, spans) && Inside(text, spans)
    ensures IsOwned(a, text, ps, Owned(a, text, ps, spans)) && Apart(Owned(a, text, ps, spans))
  {
    var owned := Owned(a, text, ps, spans);
    forall k | 0 <= k < |spans| ensures owned[k].pair == Owner(a, ps, Found(text, spans, k)) < |ps| {
      OwnerIsMatchIff(a, text, ps, spans[k]);
    }
    assert forall k :: 0 <= k < |spans| ==> owned[k].start == spans[k].start && owned[k].end == spans[k].end;
  }

  /** Item `i` has a chosen span. */
  ghost predicate HasSpan(ps: seq<Pair>, spans: seq<Span>, upTo: nat, i: nat)
    requires upTo <= |spans| && forall k :: 0 <= k < |spans| ==> spans[k].pair < |ps|
  {
    exists k :: 0 <= k < upTo && RepOf(ps, spans, k) == i
  }

  lemma {:induction false} HasSpanNext(ps: seq<Pair>, spans: seq<Span>, k: nat)
    requires k < |spans| && forall j :: 0 <= j < |spans| ==> spans[j].pair < |ps|
    ensures forall i: nat :: HasSpan(ps, spans, k + 1, i) <==> HasSpan(ps, spans, k, i) || i == RepOf(ps, spans, k)
  {
    forall i: nat ensures HasSpan(ps, spans, k + 1, i) <==> HasSpan(ps, spans, k, i) || i == RepOf(ps, spans, k) {
      HasSpanOneMore(ps, spans, k, i);
    }
  }

  lemma {:induction false} HasSpanOneMore(ps: seq<Pair>, spans: seq<Span>, k: nat, i: nat)
    requires k < |spans| && forall j :: 0 <= j < |spans| ==> spans[j].pair < |ps|
    ensures HasSpan(ps, spans, k + 1, i) <==> HasSpan(ps, spans, k, i) || i == RepOf(ps, spans, k)
  {
    if HasSpan(ps, spans, k + 1, i) {
      var j :| 0 <= j < k + 1 && RepOf(ps, spans, j) == i;
      assert j < k ==> HasSpan(ps, spans, k, i);
    }
    if HasSpan(ps, spans, k, i) {
      var j :| 0 <= j < k && RepOf(ps, spans, j) == i;
      assert RepOf(ps, spans, j) == i && j < k + 1;
    }
    if i == RepOf(ps, spans, k) {
      assert k < k + 1 && RepOf(ps, spans, k) == i;
    }
  }

  /** The items annotated within the first `k` spans. */
  ghost predicate IsAnnotated(annotated: set<nat>, items: seq<Item>, ps: seq<Pair>, spans: seq<Span>, k: nat)
    requires k <= |spans| && forall j :: 0 <= j < |spans| ==> spans[j].pair < |ps|
  {
    forall i: nat :: i in annotated <==> i < |items| && items[i].confidence == Low && HasSpan(ps, spans, k, i)
  }

  lemma {:induction false} FoundItem(a: Alphabet, text: string, ps: seq<Pair>, spans: seq<Span>, k: nat)
    requires k < |spans| && (forall j :: 0 <= j < |spans| ==> spans[j].pair < |ps|) && IsOwned(a, text, ps, spans)
    ensures var i := Owner(a, ps, Found(text, spans, k));
            i < |ps| && ps[i].rep == RepOf(ps, spans, k)
            && (SeenBefore(ps, spans, k) <==> HasSpan(ps, spans, k, ps[i].rep))
  {
  }

  /** The callback of `re.sub`: what replaces span `k`, and which items are annotated by then. */
  method Substitute(a: Alphabet, text: string, reps: seq<Replacement>, ps: seq<Pair>, spans: seq<Span>, russian: bool,
                    k: nat, annotated0: set<nat>)
    returns (piece: Option<string>, annotated: set<nat>)
    requires Refers(text, Items(reps), ps, spans) && k < |spans|
    requires IsOwned(a, text, ps, spans)
    requires forall i, j :: 0 <= i < j < |reps| ==> reps[i] != reps[j]
    requires IsAnnotated(annotated0, Items(reps), ps, spans, k)
    modifies reps[RepOf(ps, spans, k)]
    ensures piece == PieceAt(text, Items(reps), ps, spans, russian, k)
    ensures piece.Some? ==> IsAnnotated(annotated, Items(reps), ps, spans, k + 1)
    ensures piece.Some? ==> Flags(reps) == old(Flags(reps))[RepOf(ps, spans, k) := true]
  {
    ghost var items := Items(reps);
    var found := Found(text, spans, k);
    FoundItem(a, text, ps, spans, k);
    assert ps[spans[k].pair] in ps;
    var at := LookUp(a, ps, found);
    if at == |ps| {
      at := EngineLookUp(a, ps, found);
    }
    var id := ps[at].rep;
    HasSpanNext(ps, spans, k);
    annotated := annotated0;
    var rep := reps[id];
    if rep.item.corrected.None? {
      return None, annotated;
    }
    rep.matched := true;
    if rep.item.confidence == High {
      return Some(rep.item.corrected.value), annotated;
    }
    if id in annotated {
      return Some(found), annotated;
    }
    annotated := annotated + {id};
    return Some(Annotation(russian, found, rep.item.corrected.value)), annotated;
  }

  function Flags(reps: seq<Replacement>): seq<bool>
    reads reps
  {
    seq(|reps|, i requires 0 <= i < |reps| reads reps => reps[i].matched)
  }

  /** `now` are the flags `before`, raised for the items of the first `k` spans. */
  ghost predicate Raised(before: seq<bool>, now: seq<bool>, ps: seq<Pair>, spans: seq<Span>, k: nat)
    requires k <= |spans| && forall j :: 0 <= j < |spans| ==> spans[j].pair < |ps|
  {
    |now| == |before| && forall i :: 0 <= i < |now| ==> (now[i] <==> before[i] || HasSpan(ps, spans, k, i))
  }

  lemma {:induction false} RaisedNext(before: seq<bool>, now: seq<bool>, ps: seq<Pair>, spans: seq<Span>, k: nat)
    requires k < |spans| && forall j :: 0 <= j < |spans| ==> spans[j].pair < |ps|
    requires Raised(before, now, ps, spans, k) && RepOf(ps, spans, k) < |now|
    ensures Raised(before, now[RepOf(ps, spans, k) := true], ps, spans, k + 1)
  {
  }

  /** The untouched text before span `k` and what replaces the span. */
  function Stretch(text: string, items: seq<Item>, ps: seq<Pair>, spans: seq<Span>, k: nat, piece: string): string
    requires Refers(text, items, ps, spans) && k < |spans|
  {
    assert k >= 1 ==> spans[k - 1].end <= spans[k].start;
    text[EndOf(spans, k)..spans[k].start] + piece
  }

  lemma {:induction false} RewrittenNext(text: string, items: seq<Item>, ps: seq<Pair>, spans: seq<Span>, russian: bool,
                                         k: nat, done: string, piece: string)
    requires Refers(text, items, ps, spans) && k < |spans|
    requires RewrittenTo(text, items, ps, spans, russian, k) == Some(done)
    requires PieceAt(text, items, ps, spans, russian, k) == Some(piece)
    ensures RewrittenTo(text, items, ps, spans, russian, k + 1) ==
            Some(done + Stretch(text, items, ps, spans, k, piece))
  {
    assert k >= 1 ==> spans[k - 1].end <= spans[k].start;
    var gap := text[EndOf(spans, k)..spans[k].start];
    assert done + gap + piece == done + (gap + piece);
  }

  /** What holds between two callbacks: `done` is the output so far, `before` the flags at the start. */
  ghost predicate Underway(text: string, reps: seq<Replacement>, ps: seq<Pair>, spans: seq<Span>, russian: bool,
                           k: nat, done: string, annotated: set<nat>, before: seq<bool>)
    reads reps
    requires Refers(text, Items(reps), ps, spans) && k <= |spans|
  {
    && RewrittenTo(text, Items(reps), ps, spans, russian, k) == Some(done)
    && Raised(before, Flags(reps), ps, spans, k)
    && IsAnnotated(annotated, Items(reps), ps, spans, k)
  }

  /** One match: the untouched text before it and what replaces it are appended. */
  method AppendMatch(a: Alphabet, text: string, reps: seq<Replacement>, ps: seq<Pair>, spans: seq<Span>, russian: bool,
                     k: nat, done0: string, annotated0: set<nat>, ghost before: seq<bool>)
    returns (done: Option<string>, annotated: set<nat>)
    requires Refers(text, Items(reps), ps, spans) && IsOwned(a, text, ps, spans) && k < |spans|
    requires forall i, j :: 0 <= i < j < |reps| ==> reps[i] != reps[j]
    requires Underway(text, reps, ps, spans, russian, k, done0, annotated0, before)
    modifies reps
    ensures done.Some? ==> Underway(text, reps, ps, spans, russian, k + 1, done.value, annotated, before)
    ensures done.None? ==> PieceAt(text, Items(reps), ps, spans, russian, k).None?
  {
    assert ps[spans[k].pair] in ps;
    RaisedNext(before, Flags(reps), ps, spans, k);
    var piece;
    piece, annotated := Substitute(a, text, reps, ps, spans, russian, k, annotated0);
    if piece.None? {
      return None, annotated;
    }
    RewrittenNext(text, Items(reps), ps, spans, russian, k, done0, piece.value);
    done := Some(done0 + Stretch(text, Items(reps), ps, spans, k, piece.value));
  }

  /** The whole `pattern.sub`: `None` when a callback fails. */
  method SubstituteAll(a: Alphabet, text: string, reps: seq<Replacement>, ps: seq<Pair>, spans: seq<Span>,
                       russian: bool)
    returns (out: Option<string>)
    requires Refers(text, Items(reps), ps, spans) && IsOwned(a, text, ps, spans)
    requires forall i, j :: 0 <= i < j < |reps| ==> reps[i] != reps[j]
    modifies reps
    ensures out == Rewritten(text, Items(reps), ps, spans, russian)
    ensures out.Some? ==> Raised(old(Flags(reps)), Flags(reps), ps, spans, |spans|)
  {
    var done: Option<string> := Some("");
    var annotated: set<nat> := {};
    for k := 0 to |spans|
      invariant done.Some? && Underway(text, reps, ps, spans, russian, k, done.value, annotated, old(Flags(reps)))
    {
      done, annotated := AppendMatch(a, text, reps, ps, spans, russian, k, done.value, annotated, old(Flags(reps)));
      if done.None? {
        FailsIff(text, Items(reps), ps, spans, russian, |spans|);
        return None;
      }
    }
    out := Some(done.value + text[EndOf(spans, |spans|)..]);
  }

  /** What a finished run leaves: `before` and `now` are the flags. */
  ghost predicate Finished(text: string, items: seq<Item>, ps: seq<Pair>, spans: seq<Span>, russian: bool,
                           before: seq<bool>, now: seq<bool>, out: string)
    requires Refers(text, items, ps, spans)
  {
    match Rewritten(text, items, ps, spans, russian)
    case Some(rewritten) => out == rewritten && Raised(before, now, ps, spans, |spans|)
    case None => out == text && true !in now
  }

  /** All variants of all items are replaced in one pass over the original text, or, when a correction turns out not
      to be a string, nothing is: then the text comes back as it was and no item counts as matched. */
  method ApplyReplacements(a: Alphabet, text: string, reps: seq<Replacement>, russian: bool) returns (out: string)
    requires forall i, j :: 0 <= i < j < |reps| ==> reps[i] != reps[j]
    modifies reps
    ensures AllNonEmpty(Alternatives(Items(reps)))
    ensures var ps := Alternatives(Items(reps));
            var spans := OwnedSpans(a, text, ps);
            Refers(text, Items(reps), ps, spans)
            && Finished(text, Items(reps), ps, spans, russian, old(Flags(reps)), Flags(reps), out)
  {
    SpansRefer(a, text, Items(reps));
    var ps := Alternatives(Items(reps));
    if ps == [] {
      NoAlternatives(a, text, 0);
      NothingToDo(text, Items(reps), russian, Flags(reps));
      return text;
    }
    var rewritten := SubstituteAll(a, text, reps, ps, OwnedSpans(a, text, ps), russian);
    if rewritten.Some? {
      return rewritten.value;
    }
    ClearMatched(reps);
    return text;
  }

  lemma {:induction false} NothingToDo(text: string, items: seq<Item>, russian: bool, flags: seq<bool>)
    requires Refers(text, items, [], [])
    ensures Finished(text, items, [], [], russian, flags, flags, text)
  {
  }

  lemma {:induction false} NoAlternatives(a: Alphabet, text: string, from: nat)
    ensures Spans(a, text, from, []) == []
    decreases |text| - from
  {
    if from < |text| {
      NoAlternatives(a, text, from + 1);
    }
  }

  method ClearMatched(reps: seq<Replacement>)
    modifies reps
    ensures forall i :: 0 <= i < |reps| ==> !reps[i].matched
  {
    for i := 0 to |reps|
      invariant forall j :: 0 <= j < i ==> !reps[j].matched
    {
      reps[i].matched := false;
    }
  }
}
