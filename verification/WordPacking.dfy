/** How the Silero TTS server cuts text into chunks: sentences, over-long sentences by words, and greedy refilling. */
module WordPacking {
  import opened Common
  import opened PyText
  import opened Seqs

  // ---------------------------------------------------------------- groups of words

  function Flatten(gs: seq<seq<string>>): seq<string> {
    if gs == [] then [] else gs[0] + Flatten(gs[1..])
  }

  lemma {:induction false} FlattenSnoc(gs: seq<seq<string>>, g: seq<string>)
    ensures Flatten(gs + [g]) == Flatten(gs) + g
  {
    if gs == [] {
      assert gs + [g] == [g];
    } else {
      assert (gs + [g])[1..] == gs[1..] + [g];
      FlattenSnoc(gs[1..], g);
    }
  }

  /** A group may stay over the limit only as a single word. */
  predicate GroupFits(g: seq<string>, limit: int) {
    g != [] && (|Join(g)| <= limit || |g| == 1)
  }

  predicate AllFit(gs: seq<seq<string>>, limit: int) {
    forall i :: 0 <= i < |gs| ==> GroupFits(gs[i], limit)
  }

  /** No group could have taken the first word of the next one. */
  predicate Greedy(gs: seq<seq<string>>, limit: int)
    requires forall i :: 0 <= i < |gs| ==> gs[i] != []
  {
    forall i :: 0 <= i < |gs| - 1 ==> |Join(gs[i])| + 1 + |gs[i + 1][0]| > limit
  }

  lemma {:induction false} JoinConcat(a: seq<string>, b: seq<string>)
    requires a != [] && b != []
    ensures Join(a + b) == Join(a) + " " + Join(b)
  {
    if |a| == 1 {
      assert a + b == [a[0]] + b && (a + b)[1..] == b;
    } else {
      assert (a + b)[1..] == a[1..] + b;
      JoinConcat(a[1..], b);
    }
  }

  lemma {:induction false} JoinLonger(extra: seq<string>, g: seq<string>, more: seq<string>)
    requires g != []
    ensures |Join(extra + g + more)| >= |Join(g)|
    ensures more != [] ==> |Join(extra + g + more)| >= |Join(g)| + 1 + |more[0]|
  {
    assert extra + g + more == extra + (g + more);
    if more != [] {
      JoinConcat(g, more);
      if |more| > 1 {
        JoinConcat([more[0]], more[1..]);
        assert [more[0]] + more[1..] == more;
      }
    } else {
      assert g + more == g;
    }
    if extra != [] {
      JoinConcat(extra, g + more);
    } else {
      assert extra + (g + more) == g + more;
    }
  }

  /** Greedy packing stays ahead of every other packing, and so uses no more groups than any. */
  lemma {:induction false} GreedyIsMinimal(gs: seq<seq<string>>, hs: seq<seq<string>>, extra: seq<string>, limit: int)
    requires AllFit(gs, limit) && AllFit(hs, limit) && Greedy(gs, limit)
    requires Flatten(hs) == extra + Flatten(gs)
    ensures |gs| <= |hs|
    decreases |gs|
  {
    if gs != [] {
      var g, h, rest := gs[0], hs[0], Flatten(gs[1..]);
      assert h + Flatten(hs[1..]) == extra + g + rest;
      FirstGroupIsShort(gs, h, extra, Flatten(hs[1..]), limit);
      var extra' := (extra + g)[|h|..];
      DropBoth(h, Flatten(hs[1..]), extra + g, rest);
      GreedyIsMinimal(gs[1..], hs[1..], extra', limit);
    }
  }

  lemma {:induction false} DropBoth(h: seq<string>, tail: seq<string>, x: seq<string>, rest: seq<string>)
    requires h + tail == x + rest && |h| <= |x|
    ensures tail == x[|h|..] + rest
  {
    assert (h + tail)[|h|..] == tail && (x + rest)[|h|..] == x[|h|..] + rest;
  }

  /** A fitting group that starts no earlier than the greedy one ends no later. */
  lemma {:induction false} FirstGroupIsShort(gs: seq<seq<string>>, h: seq<string>, extra: seq<string>,
                                             tail: seq<string>, limit: int)
    requires gs != [] && AllFit(gs, limit) && Greedy(gs, limit) && GroupFits(h, limit)
    requires h + tail == extra + gs[0] + Flatten(gs[1..])
    ensures |h| <= |extra| + |gs[0]|
  {
    var g, rest := gs[0], Flatten(gs[1..]);
    if |h| > |extra| + |g| {
      var more := h[|extra| + |g|..];
      assert h == extra + g + more by { assert h == (h + tail)[..|h|]; }
      assert more[0] == (h + tail)[|extra| + |g|] == rest[0];
      assert gs[1..] != [] && rest[0] == gs[1][0];
      JoinLonger(extra, g, more);
    }
  }

  // ---------------------------------------------------------------- cutting one sentence

  function Joined(gs: seq<seq<string>>): seq<string> {
    seq(|gs|, i requires 0 <= i < |gs| => Join(gs[i]))
  }

  /** Every packing of `words` into fitting groups needs at least `n` of them. */
  ghost predicate NoneSmaller(words: seq<string>, limit: int, n: nat) {
    forall hs :: Flatten(hs) == words && AllFit(hs, limit) ==> n <= |hs|
  }

  /** `gs` are the finished groups and `g` the current one, after the words `done`. */
  ghost predicate Packed(gs: seq<seq<string>>, g: seq<string>, done: seq<string>, limit: int) {
    && Flatten(gs) + g == done && (g == [] ==> gs == [])
    && AreWords(g) && AllFit(gs, limit) && Greedy(gs, limit)
    && (g != [] ==> GroupFits(g, limit))
    && (gs != [] ==> |Join(gs[|gs| - 1])| + 1 + |g[0]| > limit)
  }

  lemma {:induction false} PackedFlush(gs: seq<seq<string>>, g: seq<string>, done: seq<string>, limit: int, w: string)
    requires Packed(gs, g, done, limit) && IsWord(w) && g != [] && |Join(g)| + |w| + 1 > limit
    ensures Packed(gs + [g], [w], done + [w], limit) && Joined(gs + [g]) == Joined(gs) + [Join(g)]
  {
    FlattenSnoc(gs, g);
    AddGroup(gs, g, limit);
  }

  /** A finished group may be added when its first word did not fit into the last one. */
  lemma {:induction false} AddGroup(gs: seq<seq<string>>, g: seq<string>, limit: int)
    requires AllFit(gs, limit) && Greedy(gs, limit) && GroupFits(g, limit)
    requires gs != [] ==> |Join(gs[|gs| - 1])| + 1 + |g[0]| > limit
    ensures AllFit(gs + [g], limit) && Greedy(gs + [g], limit)
    ensures Joined(gs + [g]) == Joined(gs) + [Join(g)]
  {
  }

  lemma {:induction false} PackedExtend(gs: seq<seq<string>>, g: seq<string>, done: seq<string>, limit: int, w: string)
    requires Packed(gs, g, done, limit) && IsWord(w) && (g == [] || |Join(g)| + |w| + 1 <= limit)
    ensures Packed(gs, g + [w], done + [w], limit)
  {
    var g' := g + [w];
    assert Flatten(gs) + g' == (Flatten(gs) + g) + [w];
    if g != [] {
      JoinConcat(g, [w]);
      assert g'[0] == g[0] && |Join(g')| <= limit;
    } else {
      assert |g'| == 1;
    }
  }

  lemma {:induction false} PackedEnd(gs: seq<seq<string>>, g: seq<string>, done: seq<string>, limit: int)
    requires Packed(gs, g, done, limit)
    ensures var all := if g == [] then gs else gs + [g];
            Flatten(all) == done && AllFit(all, limit) && Greedy(all, limit) && NoneSmaller(done, limit, |all|)
    ensures g != [] ==> Joined(gs + [g]) == Joined(gs) + [Join(g)]
  {
    if g != [] {
      FlattenSnoc(gs, g);
      AddGroup(gs, g, limit);
      GreedyNoneSmaller(gs + [g], done, limit);
    } else {
      assert Flatten(gs) + g == Flatten(gs);
      GreedyNoneSmaller(gs, done, limit);
    }
  }

  lemma {:induction false} GreedyNoneSmaller(gs: seq<seq<string>>, words: seq<string>, limit: int)
    requires AllFit(gs, limit) && Greedy(gs, limit) && Flatten(gs) == words
    ensures NoneSmaller(words, limit, |gs|)
  {
    forall hs | Flatten(hs) == words && AllFit(hs, limit) ensures |gs| <= |hs| {
      GreedyBeats(gs, hs, limit);
    }
  }

  lemma {:induction false} GreedyBeats(gs: seq<seq<string>>, hs: seq<seq<string>>, limit: int)
    requires AllFit(gs, limit) && AllFit(hs, limit) && Greedy(gs, limit) && Flatten(hs) == Flatten(gs)
    ensures |gs| <= |hs|
  {
    assert [] + Flatten(gs) == Flatten(gs);
    GreedyIsMinimal(gs, hs, [], limit);
  }

  lemma {:induction false} JoinNonEmpty(g: seq<string>)
    requires AreWords(g)
    ensures Join(g) == "" <==> g == []
  {
  }

  /** One round of the loop: the current piece is finished first when the word does not fit. */
  method AddWord(out0: seq<string>, cur0: string, w: string, limit: int, ghost gs0: seq<seq<string>>,
                 ghost g0: seq<string>, ghost before: seq<string>)
    returns (out: seq<string>, cur: string, ghost gs: seq<seq<string>>, ghost g: seq<string>)
    requires Packed(gs0, g0, before, limit) && IsWord(w) && out0 == Joined(gs0) && cur0 == Join(g0)
    ensures Packed(gs, g, before + [w], limit) && out == Joined(gs) && cur == Join(g)
  {
    JoinNonEmpty(g0);
    if |cur0| + |w| + 1 > limit && cur0 != "" {
      PackedFlush(gs0, g0, before, limit, w);
      out := out0 + [cur0];
      cur := w;
      gs, g := gs0 + [g0], [w];
    } else {
      PackedExtend(gs0, g0, before, limit, w);
      StripAppend(g0, w);
      out := out0;
      cur := Strip(cur0 + " " + w);
      gs, g := gs0, g0 + [w];
    }
  }

  /** A sentence over the limit is cut into the fewest groups of words that fit, filled greedily from the left. */
  method ByWords(sent: string, limit: int) returns (out: seq<string>, ghost gs: seq<seq<string>>)
    ensures |sent| <= limit ==> out == [sent]
    ensures |sent| > limit ==>
              && out == Joined(gs) && Flatten(gs) == Words(sent)
              && AllFit(gs, limit) && Greedy(gs, limit)
              && NoneSmaller(Words(sent), limit, |out|)
  {
    gs := [];
    if |sent| <= limit {
      return [sent], gs;
    }
    out := [];
    var cur := "";
    ghost var g: seq<string> := [];
    var words := Words(sent);
    for i := 0 to |words|
      invariant out == Joined(gs) && cur == Join(g)
      invariant Packed(gs, g, words[..i], limit)
    {
      TakeNext(words, i);
      out, cur, gs, g := AddWord(out, cur, words[i], limit, gs, g, words[..i]);
    }
    TakeAll(words);
    JoinNonEmpty(g);
    PackedEnd(gs, g, words, limit);
    if cur != "" {
      out := out + [cur];
      gs := gs + [g];
    }
  }

  lemma {:induction false} JoinEnds(g: seq<string>)
    requires AreWords(g) && g != []
    ensures Join(g) != "" && !Space(Join(g)[0]) && !Space(Join(g)[|Join(g)| - 1])
  {
    if |g| > 1 {
      JoinEnds(g[1..]);
    }
  }

  lemma {:induction false} StripAppend(g: seq<string>, w: string)
    requires AreWords(g) && IsWord(w)
    ensures Strip(Join(g) + " " + w) == Join(g + [w])
  {
    if g == [] {
      assert Join(g) + " " + w == " " + w;
      StripLead(w);
    } else {
      JoinConcat(g, [w]);
      JoinEnds(g);
      TrimIsIdentity(Join(g + [w]), Space);
    }
  }

  lemma {:induction false} StripLead(w: string)
    requires w != "" ==> !Space(w[0]) && !Space(w[|w| - 1])
    ensures Strip(" " + w) == w
  {
    var s := " " + w;
    assert s[1..] == w && Space(s[0]);
    assert TrimStart(s, Space) == TrimStart(w, Space);
    TrimIsIdentity(w, Space);
  }

  // ---------------------------------------------------------------- cutting a text

  predicate EndsSentence(c: char) {
    c == '.' || c == '!' || c == '?'
  }

  /** The first position at or after `i` where white space follows a sentence end; `|s|` when there is none. */
  function BreakFrom(s: string, i: nat): (b: nat)
    requires 0 < i
    ensures b < |s| ==> i <= b && EndsSentence(s[b - 1]) && Space(s[b])
    ensures b <= |s|
    decreases |s| - i
  {
    if i >= |s| then |s|
    else if EndsSentence(s[i - 1]) && Space(s[i]) then i
    else BreakFrom(s, i + 1)
  }

  /** `re.split` at the white space that follows a sentence end. */
  function Sentences(s: string): (r: seq<string>)
    ensures r != []
    decreases |s|
  {
    var b := BreakFrom(s, 1);
    if b < |s| then [s[..b]] + Sentences(TrimStart(s[b..], Space)) else [s]
  }

  predicate Tidy(s: string) {
    s != "" ==> !Space(s[0]) && !Space(s[|s| - 1])
  }

  function WordsOf(parts: seq<string>): seq<string> {
    if parts == [] then [] else Words(parts[0]) + WordsOf(parts[1..])
  }

  lemma {:induction false} WordsOfSnoc(parts: seq<string>, p: string)
    ensures WordsOf(parts + [p]) == WordsOf(parts) + Words(p)
  {
    if parts == [] {
      assert parts + [p] == [p];
    } else {
      assert (parts + [p])[1..] == parts[1..] + [p];
      WordsOfSnoc(parts[1..], p);
    }
  }

  /** Splitting into sentences loses no word. */
  lemma {:induction false} SentencesKeepWords(s: string)
    ensures WordsOf(Sentences(s)) == Words(s)
    ensures Words(s) == [] ==> Sentences(s) == [s]
    decreases |s|
  {
    var b := BreakFrom(s, 1);
    if b < |s| {
      SentencesKeepWords(TrimStart(s[b..], Space));
      FirstSentence(s, b);
    } else {
      WordsOfCons(s, []);
    }
  }

  lemma {:induction false} FirstSentence(s: string, b: nat)
    requires b == BreakFrom(s, 1) < |s| && var rest := TrimStart(s[b..], Space); WordsOf(Sentences(rest)) == Words(rest)
    ensures WordsOf(Sentences(s)) == Words(s) && Words(s) != []
  {
    var rest := TrimStart(s[b..], Space);
    BreakKeepsWords(s, b);
    SentenceEnd(s, b);
    HasWord(s[..b]);
    WordsOfCons(s[..b], Sentences(rest));
  }

  lemma {:induction false} SentenceEnd(s: string, b: nat)
    requires b == BreakFrom(s, 1) < |s|
    ensures s[..b] != "" && !Space(s[..b][|s[..b]| - 1])
    ensures Sentences(s) == [s[..b]] + Sentences(TrimStart(s[b..], Space))
  {
  }

  lemma {:induction false} WordsOfCons(p: string, parts: seq<string>)
    ensures WordsOf([p] + parts) == Words(p) + WordsOf(parts)
  {
    assert ([p] + parts)[1..] == parts;
  }

  /** Only the outer ends of the first and the last sentence may be blank. */
  ghost predicate SentenceShape(r: seq<string>) {
    && (forall i :: 0 < i < |r| && r[i] != "" ==> !Space(r[i][0]))
    && (forall i :: 0 <= i < |r| - 1 ==> r[i] != "" && !Space(r[i][|r[i]| - 1]))
  }

  lemma {:induction false} SentencesShaped(s: string)
    ensures SentenceShape(Sentences(s)) && Sentences(s)[0] <= s
    decreases |s|
  {
    var b := BreakFrom(s, 1);
    if b < |s| {
      var rest := TrimStart(s[b..], Space);
      SentencesShaped(rest);
      SentenceEnd(s, b);
      PrefixStart(Sentences(rest)[0], rest);
      ShapeCons(s[..b], Sentences(rest));
    }
  }

  lemma {:induction false} PrefixStart(p: string, s: string)
    requires p <= s && (s != "" ==> !Space(s[0]))
    ensures p != "" ==> !Space(p[0])
  {
  }

  lemma {:induction false} ShapeCons(first: string, r: seq<string>)
    requires SentenceShape(r) && r != [] && (r[0] != "" ==> !Space(r[0][0]))
    requires first != "" && !Space(first[|first| - 1])
    ensures SentenceShape([first] + r)
  {
  }

  lemma {:induction false} TrimmedGap(s: string) returns (gap: string)
    requires s != "" && Space(s[0])
    ensures gap != "" && Blank(gap) && s == gap + TrimStart(s, Space)
  {
    var rest := TrimStart(s, Space);
    gap := s[..|s| - |rest|];
    CutAt(s, |s| - |rest|);
    assert rest == TrimStart(s[1..], Space);
  }

  lemma {:induction false} BreakKeepsWords(s: string, b: nat)
    requires b < |s| && Space(s[b])
    ensures Words(s) == Words(s[..b]) + Words(TrimStart(s[b..], Space))
  {
    var rest := TrimStart(s[b..], Space);
    var gap := TrimmedGap(s[b..]);
    WordsSplit(s[..b], gap, rest);
    Regroup(s[..b], gap, rest);
    CutAt(s, b);
  }

  lemma {:induction false} HasWord(s: string)
    requires s != "" && !Space(s[|s| - 1])
    ensures Words(s) != []
  {
    if |s| > 1 {
      HasWord(s[1..]);
    }
  }

  /** A part stays over the limit only as a single word. */
  predicate PartFits(p: string, limit: int) {
    |p| <= limit || IsWord(p)
  }

  /** No two neighbouring parts could have been one. */
  predicate NeighboursFull(parts: seq<string>, limit: int) {
    forall i :: 0 <= i < |parts| - 1 ==> |parts[i]| + 1 + |parts[i + 1]| > limit
  }

  /** The finished parts and the current one are within the limit and could not have been packed tighter. */
  predicate Filled(parts: seq<string>, cur: string, limit: int) {
    && (forall i :: 0 <= i < |parts| ==> PartFits(parts[i], limit))
    && (cur == "" || PartFits(cur, limit))
    && NeighboursFull(parts, limit)
    && (parts != [] ==> |parts[|parts| - 1]| + 1 + |cur| > limit)
  }

  lemma {:induction false} FillFlush(parts: seq<string>, cur: string, limit: int, piece: string)
    requires Filled(parts, cur, limit) && Tidy(cur) && cur != "" && |cur| + |piece| + 1 > limit
    requires PartFits(piece, limit)
    ensures Strip(cur) == cur && Filled(parts + [cur], piece, limit)
    ensures WordsOf(parts + [cur]) + Words(piece) == (WordsOf(parts) + Words(cur)) + Words(piece)
  {
    TrimIsIdentity(cur, Space);
    WordsOfSnoc(parts, cur);
    FilledSnoc(parts, cur, limit, piece);
  }

  lemma {:induction false} FilledSnoc(parts: seq<string>, cur: string, limit: int, piece: string)
    requires Filled(parts, cur, limit) && PartFits(piece, limit)
    requires cur != "" && |cur| + |piece| + 1 > limit
    ensures Filled(parts + [cur], piece, limit)
  {
  }

  lemma {:induction false} FillExtend(parts: seq<string>, cur: string, limit: int, piece: string)
    requires Filled(parts, cur, limit) && Tidy(cur) && (cur == "" || |cur| + |piece| + 1 <= limit)
    requires PartFits(piece, limit)
    ensures Filled(parts, Strip(cur + " " + piece), limit)
  {
    assert cur + " " + piece == cur + (" " + piece);
    StripFits(cur, piece, limit);
  }

  lemma {:induction false} ExtendKeepsWords(before: seq<string>, cur: string, piece: string)
    ensures before + Words(Strip(cur + " " + piece)) == (before + Words(cur)) + Words(piece)
  {
    WordsOfStrip(cur + " " + piece);
    WordsSplit(cur, " ", piece);
  }

  lemma {:induction false} StripFits(cur: string, piece: string, limit: int)
    requires Tidy(cur) && (cur == "" || |cur| + |piece| + 1 <= limit) && PartFits(piece, limit)
    ensures |cur| <= |Strip(cur + (" " + piece))| && PartFits(Strip(cur + (" " + piece)), limit)
  {
    if cur != "" {
      StripKeepsHead(cur, " " + piece);
    } else {
      assert cur + (" " + piece) == " " + piece;
      if IsWord(piece) {
        StripLead(piece);
      } else {
        StripOfLead(piece);
      }
    }
  }

  lemma {:induction false} StripOfLead(p: string)
    ensures |Strip(" " + p)| <= |p|
  {
    var s := " " + p;
    assert s[1..] == p && Space(s[0]);
    assert TrimStart(s, Space) == TrimStart(p, Space);
  }

  lemma {:induction false} StripKeepsHead(head: string, tail: string)
    requires head != "" && Tidy(head)
    ensures |head| <= |Strip(head + tail)| <= |head + tail|
  {
    var s := head + tail;
    assert s[0] == head[0];
    assert TrimStart(s, Space) == s;
    TrimEndKeeps(s, Space, |head| - 1);
  }

  lemma {:induction false} JoinedWords(gs: seq<seq<string>>)
    requires forall i :: 0 <= i < |gs| ==> AreWords(gs[i])
    ensures WordsOf(Joined(gs)) == Flatten(gs)
  {
    if gs != [] {
      JoinedWords(gs[1..]);
      WordsOfJoin(gs[0]);
      assert Joined(gs)[1..] == Joined(gs[1..]);
    }
  }

  lemma {:induction false} FlattenMembers(gs: seq<seq<string>>, i: nat)
    requires i < |gs| && AreWords(Flatten(gs))
    ensures AreWords(gs[i])
  {
    var f := Flatten(gs);
    assert gs[0] == f[..|gs[0]|] && Flatten(gs[1..]) == f[|gs[0]|..];
    if i > 0 {
      FlattenMembers(gs[1..], i - 1);
    }
  }

  /** The pieces of a sentence: all its words, in pieces that fit, and tidy unless the sentence is its own piece. */
  ghost predicate PiecesOf(pieces: seq<string>, sent: string, limit: int) {
    && WordsOf(pieces) == Words(sent)
    && (forall i :: 0 <= i < |pieces| ==> PartFits(pieces[i], limit))
    && (pieces == [sent] || ((forall i :: 0 <= i < |pieces| ==> Tidy(pieces[i])) && |sent| > limit))
    && (Words(sent) == [] && |sent| > limit ==> pieces == [])
  }

  lemma {:induction false} PackedPieces(gs: seq<seq<string>>, sent: string, limit: int)
    requires Flatten(gs) == Words(sent) && AllFit(gs, limit) && |sent| > limit
    ensures PiecesOf(Joined(gs), sent, limit)
  {
    forall i | 0 <= i < |gs| ensures AreWords(gs[i]) && Tidy(Join(gs[i])) && PartFits(Join(gs[i]), limit) {
      FlattenMembers(gs, i);
      JoinEnds(gs[i]);
    }
    JoinedWords(gs);
    assert gs != [] ==> Flatten(gs) != [];
  }

  lemma {:induction false} WholePiece(sent: string, limit: int)
    requires |sent| <= limit
    ensures PiecesOf([sent], sent, limit)
  {
  }

  /** `before`, followed by the words of the first `k` texts. */
  function WordsUpTo(before: seq<string>, parts: seq<string>, k: nat): seq<string>
    requires k <= |parts|
  {
    if k == 0 then before else WordsUpTo(before, parts, k - 1) + Words(parts[k - 1])
  }

  lemma {:induction false} WordsUpToIsPrefix(before: seq<string>, parts: seq<string>, k: nat)
    requires k <= |parts|
    ensures WordsUpTo(before, parts, k) == before + WordsOf(parts[..k])
  {
    if k > 0 {
      WordsUpToIsPrefix(before, parts, k - 1);
      assert parts[..k] == parts[..k - 1] + [parts[k - 1]];
      WordsOfSnoc(parts[..k - 1], parts[k - 1]);
    }
  }

  lemma {:induction false} WordsUpToAll(before: seq<string>, parts: seq<string>)
    ensures WordsUpTo(before, parts, |parts|) == before + WordsOf(parts)
  {
    WordsUpToIsPrefix(before, parts, |parts|);
    assert parts[..|parts|] == parts;
  }

  predicate AllTidy(pieces: seq<string>) {
    forall i :: 0 <= i < |pieces| ==> Tidy(pieces[i])
  }

  /** One round of refilling: the current part takes the next piece, or is finished first. */
  method AddPiece(parts0: seq<string>, cur0: string, piece: string, limit: int)
    returns (parts: seq<string>, cur: string)
    requires Filled(parts0, cur0, limit) && Tidy(cur0) && PartFits(piece, limit)
    ensures Filled(parts, cur, limit)
    ensures WordsOf(parts) + Words(cur) == (WordsOf(parts0) + Words(cur0)) + Words(piece)
    ensures cur0 == "" || Tidy(piece) ==> Tidy(cur)
  {
    if |cur0| + |piece| + 1 > limit && cur0 != "" {
      FillFlush(parts0, cur0, limit, piece);
      parts := parts0 + [Strip(cur0)];
      cur := piece;
    } else {
      FillExtend(parts0, cur0, limit, piece);
      ExtendKeepsWords(WordsOf(parts0), cur0, piece);
      parts := parts0;
      cur := Strip(cur0 + " " + piece);
    }
  }

  /** The inner loop over the pieces of one sentence. */
  method AddPieces(parts0: seq<string>, cur0: string, pieces: seq<string>, limit: int)
    returns (parts: seq<string>, cur: string)
    requires Filled(parts0, cur0, limit) && Tidy(cur0)
    requires forall i :: 0 <= i < |pieces| ==> PartFits(pieces[i], limit)
    requires AllTidy(pieces) || |pieces| == 1
    ensures Filled(parts, cur, limit)
    ensures WordsOf(parts) + Words(cur) == (WordsOf(parts0) + Words(cur0)) + WordsOf(pieces)
    ensures AllTidy(pieces) || cur0 == "" ==> Tidy(cur)
    ensures pieces == [] ==> parts == parts0 && cur == cur0
  {
    parts, cur := parts0, cur0;
    ghost var before := WordsOf(parts0) + Words(cur0);
    for j := 0 to |pieces|
      invariant Filled(parts, cur, limit) && (j == 0 ==> parts == parts0 && cur == cur0)
      invariant WordsOf(parts) + Words(cur) == WordsUpTo(before, pieces, j)
      invariant j < |pieces| || AllTidy(pieces) || cur0 == "" ==> Tidy(cur)
    {
      parts, cur := AddPiece(parts, cur, pieces[j], limit);
    }
    WordsUpToAll(before, pieces);
  }

  lemma {:induction false} StaysTidy(r: seq<string>, k: nat, before: string, cur: string)
    requires SentenceShape(r) && k < |r| && (k == 0 ==> before == "") && (Tidy(r[k]) || before == "" ==> Tidy(cur))
    ensures k + 1 < |r| ==> Tidy(cur)
  {
  }

  /** The body of the outer loop: the pieces of one sentence. */
  method AddSentence(parts0: seq<string>, cur0: string, sent: string, limit: int)
    returns (parts: seq<string>, cur: string)
    requires Filled(parts0, cur0, limit) && Tidy(cur0)
    ensures Filled(parts, cur, limit)
    ensures WordsOf(parts) + Words(cur) == (WordsOf(parts0) + Words(cur0)) + Words(sent)
    ensures Tidy(sent) || cur0 == "" ==> Tidy(cur)
    ensures Words(sent) == [] && |sent| > limit ==> parts == parts0 && cur == cur0
  {
    var pieces, gs := ByWords(sent, limit);
    if |sent| > limit {
      PackedPieces(gs, sent, limit);
    } else {
      WholePiece(sent, limit);
    }
    parts, cur := AddPieces(parts0, cur0, pieces, limit);
  }

  /** A text is cut at its sentences, long sentences by words, and the pieces are packed again. No word is lost, no
      two neighbouring parts would fit into one, and every part fits (or is a single over-long word) exactly when the
      text has a word or fits itself: a longer text of white space alone comes back whole. */
  method Split(text: string, limit: int) returns (parts: seq<string>)
    ensures parts != [] && WordsOf(parts) == Words(text)
    ensures NeighboursFull(parts, limit)
    ensures (forall i :: 0 <= i < |parts| ==> PartFits(parts[i], limit)) <==> Words(text) != [] || |text| <= limit
  {
    parts := [];
    var cur := "";
    var sentences := Sentences(text);
    SentencesKeepWords(text);
    SentencesShaped(text);
    for k := 0 to |sentences|
      invariant Filled(parts, cur, limit) && (k == 0 ==> cur == "")
      invariant WordsOf(parts) + Words(cur) == WordsUpTo([], sentences, k)
      invariant k < |sentences| ==> Tidy(cur)
      invariant Words(text) == [] && |text| > limit ==> parts == [] && cur == ""
    {
      ghost var before := cur;
      parts, cur := AddSentence(parts, cur, sentences[k], limit);
      StaysTidy(sentences, k, before, cur);
    }
    WordsUpToAll([], sentences);
    parts := Finish(parts, cur, text, limit);
  }

  /** The unfinished part, if any, is the last one; a text without parts is returned whole. */
  method Finish(parts0: seq<string>, cur: string, text: string, limit: int) returns (parts: seq<string>)
    requires Filled(parts0, cur, limit) && WordsOf(parts0) + Words(cur) == Words(text)
    requires Words(text) == [] && |text| > limit ==> parts0 == [] && cur == ""
    ensures parts != [] && WordsOf(parts) == Words(text)
    ensures NeighboursFull(parts, limit)
    ensures (forall i :: 0 <= i < |parts| ==> PartFits(parts[i], limit)) <==> Words(text) != [] || |text| <= limit
  {
    parts := if cur != "" then parts0 + [cur] else parts0;
    if parts == [] {
      parts := [text];
      WordsOfCons(text, []);
      assert parts[0] == text;
      BlankIsNoWord(text);
      return;
    }
    if cur != "" {
      PartsFit(parts0, cur, limit);
      WordsOfSnoc(parts0, cur);
    }
  }

  lemma {:induction false} PartsFit(parts: seq<string>, cur: string, limit: int)
    requires Filled(parts, cur, limit) && cur != ""
    ensures NeighboursFull(parts + [cur], limit)
    ensures forall i :: 0 <= i < |parts + [cur]| ==> PartFits((parts + [cur])[i], limit)
  {
  }

  lemma {:induction false} BlankIsNoWord(text: string)
    requires Words(text) == []
    ensures !IsWord(text)
  {
  }

  /** Such a text for every limit: one blank more. */
  lemma {:induction false} BlankTextHappens(limit: nat)
    ensures var text := seq(limit + 1, _ => ' '); Words(text) == [] && |text| > limit && !PartFits(text, limit)
  {
    var text := seq(limit + 1, _ => ' ');
    assert Blank(text) && text + "" == text;
    WordsOfBlank(text, "");
    BlankIsNoWord(text);
  }
}
