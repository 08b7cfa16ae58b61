/** The model catalog of the `opex-catalog` crate: an exact (provider, model) index and a loose model index,
    both filled by `upsert`. The `log` of inserted rows is the history the two indexes must summarise. */
module Catalog {
  import opened Common

  type u32 = n: int | 0 <= n < 0x1_0000_0000

  datatype Source = ModelsDev | OpenRouter | LiteLlm

  function Priority(s: Source): nat {
    match s
    case ModelsDev => 0
    case OpenRouter => 1
    case LiteLlm => 2
  }

  datatype Cost = Cost(input: real, output: real)

  datatype Caps = Caps(attachment: bool, reasoning: bool, toolCall: bool, temperature: bool, reasoningContent: bool)

  datatype Meta = Meta(context: u32, output: Option<u32>, cost: Option<Cost>, caps: Option<Caps>, source: Source)

  /** One `insert` call. */
  datatype Row = Row(provider: string, model: string, meta: Meta)

  /** An accepted row under its normalised (provider, model) key. */
  datatype Entry = Entry(key: (string, string), meta: Meta)

  // ---------------------------------------------------------------- ids

  predicate RustSpace(c: char) {
    || '\t' <= c <= '\r' || c == ' ' || c == '\U{0085}' || c == '\U{00A0}' || c == '\U{1680}'
    || '\U{2000}' <= c <= '\U{200A}' || c == '\U{2028}' || c == '\U{2029}' || c == '\U{202F}'
    || c == '\U{205F}' || c == '\U{3000}'
  }

  function NormalizeProvider(id: string): string {
    Lower(Trim(id, RustSpace))
  }

  function NormalizeModel(model: string): string {
    var m := Lower(Trim(model, RustSpace));
    var colon := Find(m, ':');
    if 0 < colon < |m| then m[..colon] else m
  }

  /** The part after the first `/`, when there is one. */
  function Suffix(mid: string): string {
    var slash := Find(mid, '/');
    if slash < |mid| then mid[slash + 1..] else ""
  }

  /** The loose slots that a row for `mid` lands in. */
  function LooseKeys(mid: string): set<string> {
    if Suffix(mid) == "" then {mid} else {mid, Suffix(mid)}
  }

  /** In the trimmed lower-case id, white space stands right before the colon of the tag. */
  predicate BlankBeforeTag(model: string) {
    var m := Lower(Trim(model, RustSpace));
    var colon := Find(m, ':');
    0 < colon < |m| && RustSpace(m[colon - 1])
  }

  /** Normalising twice changes the id exactly when white space stands right before the tag's colon. */
  lemma {:induction false} NormalizeIdempotentIff(model: string)
    ensures NormalizeModel(NormalizeModel(model)) == NormalizeModel(model) <==> !BlankBeforeTag(model)
  {
    if BlankBeforeTag(model) {
      BlankIsTrimmed(model);
    } else {
      NormalizedIsTrimmed(model);
      NormalizedIsFixed(NormalizeModel(model));
    }
  }

  lemma {:induction false} BlankIsTrimmed(model: string)
    requires BlankBeforeTag(model)
    ensures |NormalizeModel(NormalizeModel(model))| < |NormalizeModel(model)|
  {
    var n := NormalizeModel(model);
    BlankStored(model);
    TrimShrinks(n, RustSpace);
    NormalizeShortens(n);
  }

  lemma {:induction false} NormalizeShortens(model: string)
    ensures |NormalizeModel(model)| <= |Trim(model, RustSpace)|
  {
  }

  /** The id is in lower case, trimmed, and has no tag. */
  predicate Settled(n: string) {
    && (n != "" ==> !RustSpace(n[0]) && !RustSpace(n[|n| - 1]))
    && Lower(n) == n
    && !(0 < Find(n, ':') < |n|)
  }

  lemma {:induction false} NormalizedIsTrimmed(model: string)
    requires !BlankBeforeTag(model)
    ensures Settled(NormalizeModel(model))
  {
    var t := Trim(model, RustSpace);
    var colon := Find(Lower(t), ':');
    if 0 < colon < |t| {
      TaggedSettled(t, colon);
    } else {
      UntaggedSettled(t);
    }
  }

  lemma {:induction false} TaggedSettled(t: string, colon: nat)
    requires 0 < colon < |t| && !RustSpace(t[0]) && colon == Find(Lower(t), ':') && !RustSpace(Lower(t)[colon - 1])
    ensures Settled(Lower(t)[..colon])
  {
    LowerKeepsSpace(t);
    CutIsLower(t, colon);
  }

  lemma {:induction false} UntaggedSettled(t: string)
    requires t != "" ==> !RustSpace(t[0]) && !RustSpace(t[|t| - 1])
    requires !(0 < Find(Lower(t), ':') < |t|)
    ensures Settled(Lower(t))
  {
    LowerKeepsSpace(t);
    LowerFixed(t, |t|);
    assert Lower(t)[..|t|] == Lower(t);
  }

  lemma {:induction false} LowerKeepsSpace(t: string)
    ensures forall i :: 0 <= i < |t| ==> (RustSpace(Lower(t)[i]) <==> RustSpace(t[i]))
  {
  }

  lemma {:induction false} CutIsLower(t: string, colon: nat)
    requires 0 < colon < |t| && colon == Find(Lower(t), ':')
    ensures var n := Lower(t)[..colon]; Lower(n) == n && Find(n, ':') == |n|
  {
  }

  lemma {:induction false} NormalizedIsFixed(n: string)
    requires Settled(n)
    ensures NormalizeModel(n) == n
  {
    TrimIsIdentity(n, RustSpace);
  }

  // ---------------------------------------------------------------- merging

  function MergeCaps(a: Option<Caps>, b: Option<Caps>): Option<Caps> {
    match (a, b)
    case (Some(x), Some(y)) =>
      Some(Caps(x.attachment || y.attachment, x.reasoning || y.reasoning, x.toolCall || y.toolCall,
                x.temperature && y.temperature, x.reasoningContent || y.reasoningContent))
    case (Some(x), None) => a
    case (None, _) => b
  }

  /** `a` strictly beats `b`: a more trusted source, or the same trust and a larger window. */
  predicate Beats(a: Meta, b: Meta) {
    || Priority(a.source) < Priority(b.source)
    || (Priority(a.source) == Priority(b.source) && a.context > b.context)
  }

  function Combine(existing: Meta, meta: Meta): Meta {
    if Beats(meta, existing) then meta.(caps := MergeCaps(meta.caps, existing.caps))
    else existing.(caps := MergeCaps(existing.caps, meta.caps))
  }

  // ---------------------------------------------------------------- what a slot must hold

  datatype Slot = Exact(key: (string, string)) | Loose(id: string)

  /** Whether recording `e` touches `slot`. */
  predicate Feeds(e: Entry, slot: Slot) {
    match slot
    case Exact(key) => key == e.key
    case Loose(id) => id in LooseKeys(e.key.1)
  }

  ghost predicate Fed(log: seq<Entry>, slot: Slot) {
    exists i :: 0 <= i < |log| && Feeds(log[i], slot)
  }

  /** Row `i` is the earliest among the best rows of the slot. */
  ghost predicate Winner(log: seq<Entry>, slot: Slot, i: int) {
    && 0 <= i < |log|
    && Feeds(log[i], slot)
    && forall j :: 0 <= j < |log| && Feeds(log[j], slot) ==>
                     && !Beats(log[j].meta, log[i].meta)
                     && (j < i ==> Beats(log[i].meta, log[j].meta))
  }

  /** Row `i` feeds the slot and reports capabilities `c`. */
  ghost predicate Reports(log: seq<Entry>, slot: Slot, i: int, c: Caps) {
    0 <= i < |log| && Feeds(log[i], slot) && log[i].meta.caps == Some(c)
  }

  /** What a capability set asserts. `temperature` is restrictive, so what it asserts is its absence. */
  datatype Fact = Attachment | Reasoning | ToolCall | NoTemperature | ReasoningContent

  predicate Asserts(c: Caps, f: Fact) {
    match f
    case Attachment => c.attachment
    case Reasoning => c.reasoning
    case ToolCall => c.toolCall
    case NoTemperature => !c.temperature
    case ReasoningContent => c.reasoningContent
  }

  lemma {:induction false} CapsByFacts(a: Caps, b: Caps)
    requires forall f :: Asserts(a, f) <==> Asserts(b, f)
    ensures a == b
  {
    assert Asserts(a, Attachment) <==> Asserts(b, Attachment);
    assert Asserts(a, Reasoning) <==> Asserts(b, Reasoning);
    assert Asserts(a, ToolCall) <==> Asserts(b, ToolCall);
    assert Asserts(a, NoTemperature) <==> Asserts(b, NoTemperature);
    assert Asserts(a, ReasoningContent) <==> Asserts(b, ReasoningContent);
  }

  /** Exactly the facts that some row asserts; no capabilities when no row reports any. */
  ghost predicate CapsJoined(caps: Option<Caps>, log: seq<Entry>, slot: Slot) {
    && (caps.Some? <==> exists i, c :: Reports(log, slot, i, c))
    && (caps.Some? ==> forall f :: Asserts(caps.value, f) <==> Told(log, slot, f))
  }

  ghost predicate Told(log: seq<Entry>, slot: Slot, f: Fact) {
    exists i, c :: Reports(log, slot, i, c) && Asserts(c, f)
  }

  ghost predicate IsSlot(m: Meta, log: seq<Entry>, slot: Slot) {
    && (exists i :: Winner(log, slot, i) && m.(caps := log[i].meta.caps) == log[i].meta)
    && CapsJoined(m.caps, log, slot)
  }

  ghost predicate SummarisesExact(exact: map<(string, string), Meta>, log: seq<Entry>) {
    && (forall key :: key in exact <==> Fed(log, Exact(key)))
    && (forall key :: key in exact ==> IsSlot(exact[key], log, Exact(key)))
  }

  ghost predicate SummarisesLoose(loose: map<string, Meta>, log: seq<Entry>) {
    && (forall id :: id in loose <==> Fed(log, Loose(id)))
    && (forall id :: id in loose ==> IsSlot(loose[id], log, Loose(id)))
  }

  /** The two indexes summarise the log: a slot exists when some entry feeds it, and then holds what it must. */
  ghost predicate Summarises(exact: map<(string, string), Meta>, loose: map<string, Meta>, log: seq<Entry>) {
    SummarisesExact(exact, log) && SummarisesLoose(loose, log)
  }

  // ---------------------------------------------------------------- one insertion keeps the summary

  lemma {:induction false} StillSummarised(m: Meta, log: seq<Entry>, e: Entry, slot: Slot)
    requires IsSlot(m, log, slot) && !Feeds(e, slot)
    ensures IsSlot(m, log + [e], slot)
  {
    var w :| Winner(log, slot, w) && m.(caps := log[w].meta.caps) == log[w].meta;
    StillWinner(log, e, slot, w);
    StillJoined(m.caps, log, e, slot);
  }

  lemma {:induction false} StillWinner(log: seq<Entry>, e: Entry, slot: Slot, w: nat)
    requires Winner(log, slot, w) && !Feeds(e, slot)
    ensures Winner(log + [e], slot, w) && (log + [e])[w] == log[w]
  {
  }

  lemma {:induction false} StillJoined(caps: Option<Caps>, log: seq<Entry>, e: Entry, slot: Slot)
    requires CapsJoined(caps, log, slot) && !Feeds(e, slot)
    ensures CapsJoined(caps, log + [e], slot)
  {
    var l := log + [e];
    assert forall i, c :: Reports(log, slot, i, c) <==> Reports(l, slot, i, c);
    forall f ensures Told(l, slot, f) <==> Told(log, slot, f) {
    }
  }

  lemma {:induction false} FirstRow(log: seq<Entry>, e: Entry, slot: Slot)
    requires !Fed(log, slot) && Feeds(e, slot)
    ensures IsSlot(e.meta, log + [e], slot)
  {
    var l := log + [e];
    assert Winner(l, slot, |log|);
    assert forall i, c :: Reports(l, slot, i, c) <==> i == |log| && e.meta.caps == Some(c);
    if e.meta.caps.Some? {
      assert Reports(l, slot, |log|, e.meta.caps.value);
    }
  }

  lemma {:induction false} CombineIsSlot(m: Meta, log: seq<Entry>, e: Entry, slot: Slot)
    requires IsSlot(m, log, slot) && Feeds(e, slot)
    ensures IsSlot(Combine(m, e.meta), log + [e], slot)
  {
    var l := log + [e];
    var w :| Winner(log, slot, w) && m.(caps := log[w].meta.caps) == log[w].meta;
    assert Winner(l, slot, if Beats(e.meta, m) then |log| else w);
    CapsMerge(m.caps, log, e, slot);
    assert MergeCaps(m.caps, e.meta.caps) == MergeCaps(e.meta.caps, m.caps);
  }

  lemma {:induction false} CapsMerge(caps: Option<Caps>, log: seq<Entry>, e: Entry, slot: Slot)
    requires CapsJoined(caps, log, slot) && Feeds(e, slot)
    ensures CapsJoined(MergeCaps(caps, e.meta.caps), log + [e], slot)
  {
    var l := log + [e];
    ReportsOneMore(log, e, slot);
    forall f ensures Told(l, slot, f) <==> Told(log, slot, f) || (e.meta.caps.Some? && Asserts(e.meta.caps.value, f)) {
      ToldOneMore(log, e, slot, f);
    }
    assert e.meta.caps.Some? ==> Reports(l, slot, |log|, e.meta.caps.value);
  }

  lemma {:induction false} ReportsOneMore(log: seq<Entry>, e: Entry, slot: Slot)
    requires Feeds(e, slot)
    ensures forall i, c :: Reports(log + [e], slot, i, c) <==>
                           Reports(log, slot, i, c) || (i == |log| && e.meta.caps == Some(c))
  {
  }

  lemma {:induction false} ToldOneMore(log: seq<Entry>, e: Entry, slot: Slot, f: Fact)
    requires Feeds(e, slot)
    ensures Told(log + [e], slot, f) <==> Told(log, slot, f) || (e.meta.caps.Some? && Asserts(e.meta.caps.value, f))
  {
    ReportsOneMore(log, e, slot);
    assert e.meta.caps.Some? ==> Reports(log + [e], slot, |log|, e.meta.caps.value);
  }

  // ---------------------------------------------------------------- main results

  /** The two logs hold the same entries, in any order and number. */
  ghost predicate SameEntries(a: seq<Entry>, b: seq<Entry>) {
    forall e :: e in a <==> e in b
  }

  /** The fields that no reordering of the rows can change. */
  predicate SameCore(a: Meta, b: Meta) {
    a.source == b.source && a.context == b.context && a.caps == b.caps
  }

  lemma {:induction false} SlotOrderIndependent(m1: Meta, log1: seq<Entry>, m2: Meta, log2: seq<Entry>, slot: Slot)
    requires SameEntries(log1, log2)
    requires IsSlot(m1, log1, slot) && IsSlot(m2, log2, slot)
    ensures SameCore(m1, m2)
  {
    var w1 :| Winner(log1, slot, w1) && m1.(caps := log1[w1].meta.caps) == log1[w1].meta;
    var w2 :| Winner(log2, slot, w2) && m2.(caps := log2[w2].meta.caps) == log2[w2].meta;
    assert log1[w1] in log2 && log2[w2] in log1;
    assert m1.source == m2.source && m1.context == m2.context;
    CapsTransfer(log1, log2, slot, m1.caps);
    if m1.caps.Some? {
      CapsByFacts(m1.caps.value, m2.caps.value);
    }
  }

  lemma {:induction false} CapsTransfer(a: seq<Entry>, b: seq<Entry>, slot: Slot, caps: Option<Caps>)
    requires SameEntries(a, b) && CapsJoined(caps, a, slot)
    ensures CapsJoined(caps, b, slot)
  {
    forall i, c | Reports(a, slot, i, c) ensures exists j :: Reports(b, slot, j, c) {
      assert a[i] in b;
      var j :| 0 <= j < |b| && b[j] == a[i];
      assert Reports(b, slot, j, c);
    }
    forall i, c | Reports(b, slot, i, c) ensures exists j :: Reports(a, slot, j, c) {
      assert b[i] in a;
      var j :| 0 <= j < |a| && a[j] == b[i];
      assert Reports(a, slot, j, c);
    }
  }

  lemma {:induction false} FedTransfer(a: seq<Entry>, b: seq<Entry>, slot: Slot)
    requires SameEntries(a, b)
    ensures Fed(a, slot) <==> Fed(b, slot)
  {
    if Fed(a, slot) {
      var i :| 0 <= i < |a| && Feeds(a[i], slot);
      assert a[i] in b;
    }
    if Fed(b, slot) {
      var i :| 0 <= i < |b| && Feeds(b[i], slot);
      assert b[i] in a;
    }
  }

  /** Catalogs built from the same rows in any two orders have the same slots, and every slot the same core. */
  lemma {:induction false} InsertionOrderIrrelevant(
    exact1: map<(string, string), Meta>, loose1: map<string, Meta>, log1: seq<Entry>,
    exact2: map<(string, string), Meta>, loose2: map<string, Meta>, log2: seq<Entry>)
    requires Summarises(exact1, loose1, log1) && Summarises(exact2, loose2, log2) && SameEntries(log1, log2)
    ensures exact1.Keys == exact2.Keys && forall key :: key in exact1 ==> SameCore(exact1[key], exact2[key])
    ensures loose1.Keys == loose2.Keys && forall id :: id in loose1 ==> SameCore(loose1[id], loose2[id])
  {
    ExactOrderIrrelevant(exact1, log1, exact2, log2);
    LooseOrderIrrelevant(loose1, log1, loose2, log2);
  }

  lemma {:induction false} ExactOrderIrrelevant(exact1: map<(string, string), Meta>, log1: seq<Entry>,
                                                exact2: map<(string, string), Meta>, log2: seq<Entry>)
    requires SummarisesExact(exact1, log1) && SummarisesExact(exact2, log2) && SameEntries(log1, log2)
    ensures exact1.Keys == exact2.Keys && forall key :: key in exact1 ==> SameCore(exact1[key], exact2[key])
  {
    forall key ensures key in exact1 <==> key in exact2 {
      FedTransfer(log1, log2, Exact(key));
    }
    forall key | key in exact1 ensures SameCore(exact1[key], exact2[key]) {
      SlotOrderIndependent(exact1[key], log1, exact2[key], log2, Exact(key));
    }
  }

  lemma {:induction false} LooseOrderIrrelevant(loose1: map<string, Meta>, log1: seq<Entry>, loose2: map<string, Meta>,
                                                log2: seq<Entry>)
    requires SummarisesLoose(loose1, log1) && SummarisesLoose(loose2, log2) && SameEntries(log1, log2)
    ensures loose1.Keys == loose2.Keys && forall id :: id in loose1 ==> SameCore(loose1[id], loose2[id])
  {
    forall id ensures id in loose1 <==> id in loose2 {
      FedTransfer(log1, log2, Loose(id));
    }
    forall id | id in loose1 ensures SameCore(loose1[id], loose2[id]) {
      SlotOrderIndependent(loose1[id], log1, loose2[id], log2, Loose(id));
    }
  }

  /** The summary determines a slot completely, output and cost included: they are those of the earliest best row. */
  lemma {:induction false} SlotUnique(m1: Meta, m2: Meta, log: seq<Entry>, slot: Slot)
    requires IsSlot(m1, log, slot) && IsSlot(m2, log, slot)
    ensures m1 == m2
  {
    SlotOrderIndependent(m1, log, m2, log, slot);
    var w1 :| Winner(log, slot, w1) && m1.(caps := log[w1].meta.caps) == log[w1].meta;
    var w2 :| Winner(log, slot, w2) && m2.(caps := log[w2].meta.caps) == log[w2].meta;
    assert w1 == w2;
  }

  /** Row `i` feeds the slot and no row that does beats it. */
  ghost predicate BestRow(log: seq<Entry>, slot: Slot, i: nat) {
    && i < |log| && Feeds(log[i], slot)
    && forall j :: 0 <= j < |log| && Feeds(log[j], slot) ==> !Beats(log[j].meta, log[i].meta)
  }

  predicate SameExtras(a: Meta, b: Meta) {
    a.output == b.output && a.cost == b.cost
  }

  /** All best rows of the slot report the same output and cost. */
  ghost predicate BestAgree(log: seq<Entry>, slot: Slot) {
    forall i: nat, j: nat :: BestRow(log, slot, i) && BestRow(log, slot, j) ==> SameExtras(log[i].meta, log[j].meta)
  }

  /** Every order of the same rows leaves `m` in the slot. */
  ghost predicate OrderFree(m: Meta, log: seq<Entry>, slot: Slot) {
    forall log2, m2 :: multiset(log2) == multiset(log) && IsSlot(m2, log2, slot) ==> m2 == m
  }

  /** A slot is the same for every order of the rows, output and cost included, exactly when its best rows agree on
      them. */
  lemma {:induction false} OrderFreeIff(m: Meta, log: seq<Entry>, slot: Slot)
    requires IsSlot(m, log, slot)
    ensures OrderFree(m, log, slot) <==> BestAgree(log, slot)
  {
    if BestAgree(log, slot) {
      forall log2, m2 | multiset(log2) == multiset(log) && IsSlot(m2, log2, slot) ensures m2 == m {
        AgreedSlot(m, log, m2, log2, slot);
      }
    }
    forall i: nat, j: nat | OrderFree(m, log, slot) && BestRow(log, slot, i) && BestRow(log, slot, j)
      ensures SameExtras(log[i].meta, log[j].meta)
    {
      FrontDecides(m, log, slot, i);
      FrontDecides(m, log, slot, j);
    }
  }

  lemma {:induction false} AgreedSlot(m1: Meta, log1: seq<Entry>, m2: Meta, log2: seq<Entry>, slot: Slot)
    requires multiset(log2) == multiset(log1) && BestAgree(log1, slot)
    requires IsSlot(m1, log1, slot) && IsSlot(m2, log2, slot)
    ensures m1 == m2
  {
    SameRows(log1, log2);
    SlotOrderIndependent(m1, log1, m2, log2, slot);
    var i := BestOf(m1, log1, log1, slot);
    var j := BestOf(m2, log2, log1, slot);
  }

  lemma {:induction false} SameRows(a: seq<Entry>, b: seq<Entry>)
    requires multiset(a) == multiset(b)
    ensures SameEntries(a, b)
  {
    forall e ensures e in a <==> e in b {
      assert e in a <==> e in multiset(a);
      assert e in b <==> e in multiset(b);
    }
  }

  /** Output and cost of a slot are those of a best row, also of the same rows in another order. */
  lemma {:induction false} BestOf(m: Meta, log: seq<Entry>, log2: seq<Entry>, slot: Slot) returns (i: nat)
    requires IsSlot(m, log, slot) && SameEntries(log, log2)
    ensures BestRow(log2, slot, i) && SameExtras(m, log2[i].meta)
  {
    var w :| Winner(log, slot, w) && m.(caps := log[w].meta.caps) == log[w].meta;
    assert log[w] in log2;
    i :| 0 <= i < |log2| && log2[i] == log[w];
    forall j | 0 <= j < |log2| && Feeds(log2[j], slot) ensures !Beats(log2[j].meta, log2[i].meta) {
      assert log2[j] in log;
    }
  }

  function MovedToFront(log: seq<Entry>, i: nat): seq<Entry>
    requires i < |log|
  {
    [log[i]] + (log[..i] + log[i + 1..])
  }

  /** With a best row moved to the front of the log, the slot has its output and cost. */
  lemma {:induction false} FrontDecides(m: Meta, log: seq<Entry>, slot: Slot, i: nat)
    requires BestRow(log, slot, i) && OrderFree(m, log, slot)
    ensures SameExtras(m, log[i].meta)
  {
    var log2 := MovedToFront(log, i);
    MovedSame(log, i);
    SameRows(log2, log);
    FirstBestWins(log2, log, slot, i);
    var m2 := SlotExists(log2, slot);
    assert m2 == m;
    FirstGives(m, log2, slot);
  }

  lemma {:induction false} FirstGives(m: Meta, log: seq<Entry>, slot: Slot)
    requires IsSlot(m, log, slot) && Winner(log, slot, 0)
    ensures SameExtras(m, log[0].meta)
  {
    var w :| Winner(log, slot, w) && m.(caps := log[w].meta.caps) == log[w].meta;
    assert w == 0;
  }

  lemma {:induction false} MovedSame(log: seq<Entry>, i: nat)
    requires i < |log|
    ensures multiset(MovedToFront(log, i)) == multiset(log) && MovedToFront(log, i)[0] == log[i]
  {
    assert log == log[..i] + [log[i]] + log[i + 1..];
  }

  lemma {:induction false} FirstBestWins(log2: seq<Entry>, log: seq<Entry>, slot: Slot, i: nat)
    requires SameEntries(log2, log) && log2 != [] && BestRow(log, slot, i) && log[i] == log2[0]
    ensures Winner(log2, slot, 0) && Fed(log2, slot)
  {
    forall j | 0 <= j < |log2| && Feeds(log2[j], slot) ensures !Beats(log2[j].meta, log2[0].meta) {
      assert log2[j] in log;
    }
  }

  /** Every slot that some row feeds has its summary. */
  lemma {:induction false} SlotExists(log: seq<Entry>, slot: Slot) returns (m: Meta)
    requires Fed(log, slot)
    ensures IsSlot(m, log, slot)
  {
    var n := |log| - 1;
    var front, e := log[..n], log[n];
    assert log == front + [e];
    FedByOneMore(front, e, slot);
    if !Fed(front, slot) {
      FirstRow(front, e, slot);
      m := e.meta;
    } else {
      m := SlotExists(front, slot);
      if Feeds(e, slot) {
        CombineIsSlot(m, front, e, slot);
        m := Combine(m, e.meta);
      } else {
        StillSummarised(m, front, e, slot);
      }
    }
  }

  /** Exact slot `key` is one of those whose rows also land in loose slot `id`. */
  predicate Under(exact: map<(string, string), Meta>, id: string, key: (string, string)) {
    key in exact && id in LooseKeys(key.1)
  }

  /** `m` is, on source, context and capabilities, the join of the exact slots under `id`. */
  ghost predicate JoinsExact(m: Meta, exact: map<(string, string), Meta>, id: string) {
    && (exists key :: Under(exact, id, key) && exact[key].source == m.source && exact[key].context == m.context)
    && (forall key :: Under(exact, id, key) ==> !Beats(exact[key], m))
    && (m.caps.Some? <==> exists key :: Under(exact, id, key) && exact[key].caps.Some?)
    && (m.caps.Some? ==> forall f :: Asserts(m.caps.value, f) <==> ToldExact(exact, id, f))
  }

  ghost predicate ToldExact(exact: map<(string, string), Meta>, id: string, f: Fact) {
    exists key :: Under(exact, id, key) && exact[key].caps.Some? && Asserts(exact[key].caps.value, f)
  }

  /** In every reachable catalog each loose slot is the join of the exact slots whose model id, or whose part
      after the first `/`, is the slot's id. */
  lemma {:induction false} LooseJoinsExact(exact: map<(string, string), Meta>, loose: map<string, Meta>,
                                           log: seq<Entry>, id: string)
    requires Summarises(exact, loose, log)
    ensures id in loose <==> exists key :: Under(exact, id, key)
    ensures id in loose ==> JoinsExact(loose[id], exact, id)
  {
    forall i | 0 <= i < |log| && Feeds(log[i], Loose(id)) ensures Under(exact, id, log[i].key) {
      assert Feeds(log[i], Exact(log[i].key));
    }
    forall key | Under(exact, id, key)
      ensures forall i :: 0 <= i < |log| && Feeds(log[i], Exact(key)) ==> Feeds(log[i], Loose(id))
      ensures Fed(log, Loose(id))
    {
      var i :| 0 <= i < |log| && Feeds(log[i], Exact(key));
      assert Feeds(log[i], Loose(id));
    }
    if id in loose {
      LooseBest(exact, loose, log, id);
      LooseCaps(exact, loose, log, id);
    }
  }

  lemma {:induction false} LooseBest(exact: map<(string, string), Meta>, loose: map<string, Meta>, log: seq<Entry>,
                                     id: string)
    requires Summarises(exact, loose, log) && id in loose
    ensures exists key :: Under(exact, id, key) && exact[key].source == loose[id].source
                          && exact[key].context == loose[id].context
    ensures forall key :: Under(exact, id, key) ==> !Beats(exact[key], loose[id])
  {
    var w := LooseWinner(loose, log, id);
    forall key | Under(exact, id, key) ensures !Beats(exact[key], loose[id]) {
      ExactBest(exact, loose, log, id, w, key);
    }
    LooseWinnerIsExact(exact, loose, log, id, w);
    assert Under(exact, id, log[w].key);
  }

  lemma {:induction false} LooseWinner(loose: map<string, Meta>, log: seq<Entry>, id: string) returns (w: nat)
    requires SummarisesLoose(loose, log) && id in loose
    ensures Winner(log, Loose(id), w) && loose[id].source == log[w].meta.source
            && loose[id].context == log[w].meta.context
  {
    w :| Winner(log, Loose(id), w) && loose[id].(caps := log[w].meta.caps) == log[w].meta;
  }

  /** The exact slot of the row that wins a loose slot has its source and context. */
  lemma {:induction false} LooseWinnerIsExact(exact: map<(string, string), Meta>, loose: map<string, Meta>,
                                              log: seq<Entry>, id: string, w: nat)
    requires Summarises(exact, loose, log) && Winner(log, Loose(id), w)
    ensures var key := log[w].key;
            Under(exact, id, key) && exact[key].source == log[w].meta.source
            && exact[key].context == log[w].meta.context
  {
    var key := log[w].key;
    assert Feeds(log[w], Exact(key));
    assert Under(exact, id, key);
    ExactBest(exact, loose, log, id, w, key);
    var x :| Winner(log, Exact(key), x) && exact[key].(caps := log[x].meta.caps) == log[x].meta;
  }

  /** No exact slot under a loose one beats the loose slot's winner. */
  lemma {:induction false} ExactBest(exact: map<(string, string), Meta>, loose: map<string, Meta>, log: seq<Entry>,
                                     id: string, w: nat, key: (string, string))
    requires Summarises(exact, loose, log) && Winner(log, Loose(id), w) && Under(exact, id, key)
    ensures !Beats(exact[key], log[w].meta)
  {
    var x :| Winner(log, Exact(key), x) && exact[key].(caps := log[x].meta.caps) == log[x].meta;
    assert Feeds(log[x], Loose(id));
  }

  /** The reports of the loose slot are those of the exact slots under it. */
  lemma {:induction false} LooseCaps(exact: map<(string, string), Meta>, loose: map<string, Meta>, log: seq<Entry>,
                                     id: string)
    requires Summarises(exact, loose, log) && id in loose
    ensures loose[id].caps.Some? <==> exists key :: Under(exact, id, key) && exact[key].caps.Some?
    ensures loose[id].caps.Some? ==> forall f :: Asserts(loose[id].caps.value, f) <==> ToldExact(exact, id, f)
  {
    forall i, c | Reports(log, Loose(id), i, c)
      ensures Under(exact, id, log[i].key) && Reports(log, Exact(log[i].key), i, c)
    {
      assert Feeds(log[i], Exact(log[i].key));
    }
    forall key | Under(exact, id, key)
      ensures CapsJoined(exact[key].caps, log, Exact(key))
      ensures forall i, c :: Reports(log, Exact(key), i, c) ==> Reports(log, Loose(id), i, c)
    {
    }
    forall f ensures Told(log, Loose(id), f) <==> ToldExact(exact, id, f) {
      if Told(log, Loose(id), f) {
        var i, c :| Reports(log, Loose(id), i, c) && Asserts(c, f);
        assert Told(log, Exact(log[i].key), f);
      }
    }
  }

  // ---------------------------------------------------------------- lookup

  /** The catalog provider ids tried for one of our provider types, in order. */
  function CatalogProviderIds(providerType: string): seq<string> {
    var t := Lower(providerType);
    if t in {"openai", "openai_compat", "codex-cli"} then ["openai"]
    else if t in {"anthropic", "claude-cli"} then ["anthropic"]
    else if t in {"google", "gemini-cli", "gemini-cloudcode"} then ["google", "google-vertex"]
    else if t == "moonshot" then ["moonshotai", "moonshot"]
    else if t == "qwen" then ["alibaba", "dashscope", "qwen"]
    else if t == "glm" then ["zhipuai", "zhipu", "z-ai", "glm"]
    else if t == "together" then ["togetherai", "together"]
    else if t == "cloudflare" then ["cloudflare-workers-ai", "cloudflare"]
    else [t]
  }

  function ModelAlias(mid: string): Option<(string, string)> {
    if mid == "kimi-k2.6" || mid == "kimi-k2" then Some(("moonshotai", "kimi-k2"))
    else if mid == "kimi-k1.5" then Some(("moonshotai", "kimi-k1.5"))
    else None
  }

  /** The exact row under the first id of `ids` that has one. */
  function FirstExact(exact: map<(string, string), Meta>, ids: seq<string>, mid: string): Option<Meta> {
    if ids == [] then None
    else if (ids[0], mid) in exact then Some(exact[(ids[0], mid)])
    else FirstExact(exact, ids[1..], mid)
  }

  /** The tiers of `lookup`: vendor hint, mapped provider ids, alias, and last the loose index. */
  function Resolve(exact: map<(string, string), Meta>, loose: map<string, Meta>,
                   hint: string, ids: seq<string>, mid: string): Option<Meta> {
    if hint != "" && (hint, mid) in exact then Some(exact[(hint, mid)])
    else
      var mapped := FirstExact(exact, ids, mid);
      if mapped.Some? then mapped
      else
        var alias := ModelAlias(mid);
        if alias.Some? && alias.value in exact then Some(exact[alias.value])
        else if mid in loose then Some(loose[mid])
        else None
  }

  function LookupIn(exact: map<(string, string), Meta>, loose: map<string, Meta>,
                    providerType: string, vendor: Option<string>, model: string): Option<Meta> {
    var hint := if vendor.Some? then NormalizeProvider(vendor.value) else "";
    Resolve(exact, loose, hint, CatalogProviderIds(providerType), NormalizeModel(model))
  }

  /** A model id accepted once is found by its raw spelling in every later catalog, for every provider type and
      vendor hint. */
  lemma {:induction false} AcceptedIsFound(exact: map<(string, string), Meta>, loose: map<string, Meta>,
                                           log: seq<Entry>, row: Row,
                                           providerType: string, vendor: Option<string>)
    requires Summarises(exact, loose, log)
    requires Accepted(row) && EntryOf(row) in log
    ensures LookupIn(exact, loose, providerType, vendor, row.model).Some?
  {
    var hint := if vendor.Some? then NormalizeProvider(vendor.value) else "";
    RecordedResolves(exact, loose, log, EntryOf(row), hint, CatalogProviderIds(providerType));
  }

  lemma {:induction false} RecordedResolves(exact: map<(string, string), Meta>, loose: map<string, Meta>,
                                            log: seq<Entry>, e: Entry,
                                            hint: string, ids: seq<string>)
    requires SummarisesLoose(loose, log) && e in log
    ensures Resolve(exact, loose, hint, ids, e.key.1).Some?
  {
  }

  /** With its vendor named, an accepted model is answered from its own exact slot, for every provider type and whatever
      other rows there are: the slot's earliest best row with the capabilities reported under that key. */
  lemma {:induction false} VendorRowFound(exact: map<(string, string), Meta>, loose: map<string, Meta>, log: seq<Entry>,
                                          row: Row,
                                          providerType: string)
    requires Summarises(exact, loose, log)
    requires Accepted(row) && EntryOf(row) in log
    ensures var r := LookupIn(exact, loose, providerType, Some(row.provider), row.model);
            r.Some? && IsSlot(r.value, log, Exact(EntryOf(row).key))
  {
    var key := EntryOf(row).key;
    var i :| 0 <= i < |log| && log[i] == EntryOf(row);
    assert Feeds(log[i], Exact(key));
    assert key in exact;
  }

  /** Any lookup answers alike, up to output and cost, whatever order the rows came in. */
  lemma {:induction false} LookupOrderIrrelevant(
    exact1: map<(string, string), Meta>, loose1: map<string, Meta>, log1: seq<Entry>,
    exact2: map<(string, string), Meta>, loose2: map<string, Meta>, log2: seq<Entry>,
    providerType: string, vendor: Option<string>, model: string)
    requires Summarises(exact1, loose1, log1) && Summarises(exact2, loose2, log2) && SameEntries(log1, log2)
    ensures SameAnswer(LookupIn(exact1, loose1, providerType, vendor, model),
                       LookupIn(exact2, loose2, providerType, vendor, model))
  {
    InsertionOrderIrrelevant(exact1, loose1, log1, exact2, loose2, log2);
    var hint := if vendor.Some? then NormalizeProvider(vendor.value) else "";
    ResolveAlike(exact1, loose1, exact2, loose2, hint, CatalogProviderIds(providerType), NormalizeModel(model));
  }

  predicate SameAnswer(a: Option<Meta>, b: Option<Meta>) {
    (a.Some? <==> b.Some?) && (a.Some? ==> SameCore(a.value, b.value))
  }

  lemma {:induction false} ResolveAlike(exact1: map<(string, string), Meta>, loose1: map<string, Meta>,
                                        exact2: map<(string, string), Meta>, loose2: map<string, Meta>,
                                        hint: string, ids: seq<string>, mid: string)
    requires exact1.Keys == exact2.Keys && forall key :: key in exact1 ==> SameCore(exact1[key], exact2[key])
    requires loose1.Keys == loose2.Keys && forall id :: id in loose1 ==> SameCore(loose1[id], loose2[id])
    ensures SameAnswer(Resolve(exact1, loose1, hint, ids, mid), Resolve(exact2, loose2, hint, ids, mid))
  {
    FirstExactAlike(exact1, exact2, ids, mid);
    assert forall key :: key in exact1.Keys <==> key in exact2.Keys;
    assert forall id :: id in loose1.Keys <==> id in loose2.Keys;
  }

  lemma {:induction false} FirstExactAlike(exact1: map<(string, string), Meta>, exact2: map<(string, string), Meta>,
                                           ids: seq<string>, mid: string)
    requires exact1.Keys == exact2.Keys && forall key :: key in exact1 ==> SameCore(exact1[key], exact2[key])
    ensures SameAnswer(FirstExact(exact1, ids, mid), FirstExact(exact2, ids, mid))
  {
    if ids != [] {
      assert (ids[0], mid) in exact1.Keys <==> (ids[0], mid) in exact2.Keys;
      FirstExactAlike(exact1, exact2, ids[1..], mid);
    }
  }

  /** Without a blank before its tag, a model id finds its row by the stored spelling as well, whatever else is
      inserted. */
  lemma {:induction false} StoredIdFound(exact: map<(string, string), Meta>, loose: map<string, Meta>, log: seq<Entry>,
                                         row: Row,
                                         providerType: string, vendor: Option<string>)
    requires Summarises(exact, loose, log)
    requires Accepted(row) && EntryOf(row) in log && !BlankBeforeTag(row.model)
    ensures LookupIn(exact, loose, providerType, vendor, EntryOf(row).key.1).Some?
  {
    var hint := if vendor.Some? then NormalizeProvider(vendor.value) else "";
    NormalizeIdempotentIff(row.model);
    RecordedResolves(exact, loose, log, EntryOf(row), hint, CatalogProviderIds(providerType));
  }

  /** The stored id alone is a spelling that finds its row exactly when no blank stands before the tag's colon. With
      one, the stored id ends in a blank, which the lookup trims away; only another row could answer it then. */
  lemma {:induction false} StoredIdFoundIff(exact: map<(string, string), Meta>, loose: map<string, Meta>, row: Row,
                                            providerType: string, vendor: Option<string>)
    requires Accepted(row) && Summarises(exact, loose, [EntryOf(row)])
    ensures LookupIn(exact, loose, providerType, vendor, EntryOf(row).key.1).Some? <==> !BlankBeforeTag(row.model)
  {
    var stored := EntryOf(row).key.1;
    if BlankBeforeTag(row.model) {
      var hint := if vendor.Some? then NormalizeProvider(vendor.value) else "";
      BlankStored(row.model);
      NormalizedEnd(stored);
      NothingElse(exact, loose, [EntryOf(row)], hint, CatalogProviderIds(providerType), NormalizeModel(stored));
    } else {
      StoredIdFound(exact, loose, [EntryOf(row)], row, providerType, vendor);
    }
  }

  predicate EndsInBlank(id: string) {
    id != "" && RustSpace(id[|id| - 1])
  }

  /** An id without a colon is trimmed by normalising. */
  lemma {:induction false} NormalizedEnd(id: string)
    requires Find(id, ':') == |id|
    ensures !EndsInBlank(NormalizeModel(id))
  {
    var t := Trim(id, RustSpace);
    var m := Lower(t);
    LowerKeepsSpace(t);
    NoColon(id, t);
    assert Find(m, ':') == |m|;
  }

  lemma {:induction false} NoColon(id: string, t: string)
    requires Find(id, ':') == |id| && t == Trim(id, RustSpace)
    ensures forall i :: 0 <= i < |t| ==> Lower(t)[i] != ':'
  {
    var u := TrimStart(id, RustSpace);
    forall i | 0 <= i < |t| ensures Lower(t)[i] != ':' {
      assert t[i] == u[i] == id[|id| - |u| + i];
    }
  }

  lemma {:induction false} BlankStored(model: string)
    requires BlankBeforeTag(model)
    ensures EndsInBlank(NormalizeModel(model)) && Find(NormalizeModel(model), ':') == |NormalizeModel(model)|
  {
    var t := Trim(model, RustSpace);
    CutIsLower(t, Find(Lower(t), ':'));
  }

  /** Such an id: `m :x` is stored as `m `. */
  lemma {:induction false} StoredIdLostWitness(raw: string)
    requires |raw| == 4 && raw[0] == 'm' && raw[1] == ' ' && raw[2] == ':' && raw[3] == 'x'
    ensures BlankBeforeTag(raw) && NormalizeModel(raw) == ['m', ' ']
  {
    LowerOfLower(raw);
    NormalizeCuts(raw, 2);
    TakeTwo(raw);
  }

  lemma {:induction false} TakeTwo(raw: string)
    requires |raw| >= 2
    ensures raw[..2] == [raw[0], raw[1]]
  {
  }

  lemma {:induction false} LowerOfLower(raw: string)
    requires forall i :: 0 <= i < |raw| ==> !('A' <= raw[i] <= 'Z')
    ensures Lower(raw) == raw
  {
  }

  lemma {:induction false} FedByOne(log: seq<Entry>, slot: Slot)
    requires |log| == 1
    ensures Fed(log, slot) <==> Feeds(log[0], slot)
  {
  }

  lemma {:induction false} StoredIffFed(exact: map<(string, string), Meta>, loose: map<string, Meta>, log: seq<Entry>,
                                        key: (string, string), id: string)
    requires Summarises(exact, loose, log)
    ensures key in exact <==> Fed(log, Exact(key))
    ensures id in loose <==> Fed(log, Loose(id))
  {
  }

  /** A catalog of one entry whose id ends in a blank has no slot under an id that does not. */
  lemma {:induction false} NotFedNotStored(exact: map<(string, string), Meta>, loose: map<string, Meta>,
                                           log: seq<Entry>, pid: string, other: string)
    requires Summarises(exact, loose, log) && |log| == 1 && EndsInBlank(log[0].key.1) && !EndsInBlank(other)
    ensures (pid, other) !in exact && other !in loose
  {
    FedByOne(log, Exact((pid, other)));
    FedByOne(log, Loose(other));
    StoredIffFed(exact, loose, log, (pid, other), other);
    SuffixEnd(log[0].key.1);
  }

  lemma {:induction false} SuffixEnd(mid: string)
    requires EndsInBlank(mid)
    ensures forall id :: id in LooseKeys(mid) ==> EndsInBlank(id)
  {
    var suffix := Suffix(mid);
    assert suffix != "" ==> suffix[|suffix| - 1] == mid[|mid| - 1];
  }

  lemma {:induction false} AliasEnd(mid: string)
    ensures ModelAlias(mid).Some? ==> !EndsInBlank(ModelAlias(mid).value.1)
  {
    assert "kimi-k2"[6] == '2' && "kimi-k1.5"[8] == '5';
  }

  /** Nor has it anything to offer for such an id, in any tier. */
  lemma {:induction false} NothingElse(exact: map<(string, string), Meta>, loose: map<string, Meta>, log: seq<Entry>,
                                       hint: string, ids: seq<string>, other: string)
    requires Summarises(exact, loose, log) && |log| == 1 && EndsInBlank(log[0].key.1) && !EndsInBlank(other)
    ensures Resolve(exact, loose, hint, ids, other) == None
  {
    forall pid ensures (pid, other) !in exact && other !in loose {
      NotFedNotStored(exact, loose, log, pid, other);
    }
    NoneExact(exact, ids, other);
    AliasEnd(other);
    if ModelAlias(other).Some? {
      NotFedNotStored(exact, loose, log, ModelAlias(other).value.0, ModelAlias(other).value.1);
    }
  }

  lemma {:induction false} NoneExact(exact: map<(string, string), Meta>, ids: seq<string>, mid: string)
    requires forall pid :: (pid, mid) !in exact
    ensures FirstExact(exact, ids, mid) == None
  {
    if ids != [] {
      NoneExact(exact, ids[1..], mid);
    }
  }

  lemma {:induction false} NormalizeCuts(raw: string, colon: nat)
    requires 0 < colon < |raw| && raw[colon] == ':' && ':' !in raw[..colon]
    requires Lower(raw) == raw && !RustSpace(raw[0]) && !RustSpace(raw[|raw| - 1])
    ensures NormalizeModel(raw) == raw[..colon]
    ensures BlankBeforeTag(raw) <==> RustSpace(raw[colon - 1])
  {
    TrimIsIdentity(raw, RustSpace);
    assert Find(raw, ':') == colon;
  }

  // ---------------------------------------------------------------- the catalog object

  predicate Accepted(row: Row) {
    NormalizeProvider(row.provider) != "" && NormalizeModel(row.model) != ""
  }

  function EntryOf(row: Row): Entry {
    Entry((NormalizeProvider(row.provider), NormalizeModel(row.model)), row.meta)
  }

  /** What inserting `rows` in order adds to the log. */
  function Entries(rows: seq<Row>): seq<Entry> {
    if rows == [] then []
    else if Accepted(rows[0]) then [EntryOf(rows[0])] + Entries(rows[1..])
    else Entries(rows[1..])
  }

  function Upserted<K>(m: map<K, Meta>, key: K, meta: Meta): map<K, Meta> {
    m[key := if key in m then Combine(m[key], meta) else meta]
  }

  method Upsert<K(==)>(m: map<K, Meta>, key: K, meta: Meta) returns (r: map<K, Meta>)
    ensures r == Upserted(m, key, meta)
  {
    var row := meta;
    if key in m {
      var existing := m[key];
      var keepExisting :=
        || Priority(existing.source) < Priority(meta.source)
        || (Priority(existing.source) == Priority(meta.source) && existing.context >= meta.context);
      if keepExisting {
        return m[key := existing.(caps := MergeCaps(existing.caps, meta.caps))];
      }
      row := row.(caps := MergeCaps(row.caps, existing.caps));
    }
    r := m[key := row];
  }

  function LooseUpserted(loose: map<string, Meta>, mid: string, meta: Meta): map<string, Meta> {
    Upserted(if Suffix(mid) == "" then loose else Upserted(loose, Suffix(mid), meta), mid, meta)
  }

  lemma {:induction false} UpsertedIsSlot<K>(m: map<K, Meta>, key: K, log: seq<Entry>, e: Entry, slot: Slot)
    requires key in m <==> Fed(log, slot)
    requires key in m ==> IsSlot(m[key], log, slot)
    requires Feeds(e, slot)
    ensures IsSlot(Upserted(m, key, e.meta)[key], log + [e], slot)
  {
    if key in m {
      CombineIsSlot(m[key], log, e, slot);
    } else {
      FirstRow(log, e, slot);
    }
  }

  lemma {:induction false} FedByOneMore(log: seq<Entry>, e: Entry, slot: Slot)
    ensures Fed(log + [e], slot) <==> Fed(log, slot) || Feeds(e, slot)
  {
    var log' := log + [e];
    if Fed(log, slot) {
      var i :| 0 <= i < |log| && Feeds(log[i], slot);
      assert Feeds(log'[i], slot);
    }
    assert log'[|log|] == e;
  }

  lemma {:induction false} RecordKeepsExact(exact: map<(string, string), Meta>, log: seq<Entry>, e: Entry)
    requires SummarisesExact(exact, log)
    ensures SummarisesExact(Upserted(exact, e.key, e.meta), log + [e])
  {
    var exact' := Upserted(exact, e.key, e.meta);
    forall key ensures key in exact' <==> Fed(log + [e], Exact(key)) {
      FedByOneMore(log, e, Exact(key));
    }
    forall key | key in exact' ensures IsSlot(exact'[key], log + [e], Exact(key)) {
      if key == e.key {
        UpsertedIsSlot(exact, key, log, e, Exact(key));
      } else {
        StillSummarised(exact[key], log, e, Exact(key));
      }
    }
  }

  lemma {:induction false} RecordKeepsLoose(loose: map<string, Meta>, log: seq<Entry>, e: Entry)
    requires SummarisesLoose(loose, log)
    ensures SummarisesLoose(LooseUpserted(loose, e.key.1, e.meta), log + [e])
  {
    var mid := e.key.1;
    var loose' := LooseUpserted(loose, mid, e.meta);
    forall id
      ensures id in loose' <==> Fed(log + [e], Loose(id))
      ensures id in loose' ==> IsSlot(loose'[id], log + [e], Loose(id))
    {
      FedByOneMore(log, e, Loose(id));
      LooseUpsertedAt(loose, mid, e.meta, id);
      if id in LooseKeys(mid) {
        UpsertedIsSlot(loose, id, log, e, Loose(id));
      } else if id in loose {
        StillSummarised(loose[id], log, e, Loose(id));
      }
    }
  }

  lemma {:induction false} LooseUpsertedAt(loose: map<string, Meta>, mid: string, meta: Meta, id: string)
    ensures id in LooseUpserted(loose, mid, meta) <==> id in loose || id in LooseKeys(mid)
    ensures id in LooseKeys(mid) ==> LooseUpserted(loose, mid, meta)[id] == Upserted(loose, id, meta)[id]
    ensures id in loose && id !in LooseKeys(mid) ==> LooseUpserted(loose, mid, meta)[id] == loose[id]
  {
  }

  class ModelCatalog {
    var exact: map<(string, string), Meta>
    var loose: map<string, Meta>
    ghost var log: seq<Entry>

    ghost predicate Valid()
      reads this
    {
      Summarises(exact, loose, log)
    }

    constructor ()
      ensures Valid() && log == []
    {
      exact, loose, log := map[], map[], [];
    }

    method Insert(providerId: string, modelId: string, meta: Meta)
      requires Valid()
      modifies this
      ensures Valid()
      ensures log == old(log) + Entries([Row(providerId, modelId, meta)])
    {
      var pid := NormalizeProvider(providerId);
      var mid := NormalizeModel(modelId);
      assert Entries([Row(providerId, modelId, meta)]) ==
             if pid == "" || mid == "" then [] else [Entry((pid, mid), meta)];
      if pid == "" || mid == "" {
        return;
      }
      Record(pid, mid, meta);
    }

    /** The part of `insert` after both ids are normalised. */
    method Record(pid: string, mid: string, meta: Meta)
      requires Valid()
      modifies this
      ensures Valid()
      ensures log == old(log) + [Entry((pid, mid), meta)]
    {
      ghost var e := Entry((pid, mid), meta);
      RecordKeepsExact(exact, log, e);
      RecordKeepsLoose(loose, log, e);
      exact := Upsert(exact, (pid, mid), meta);
      var suffix := Suffix(mid);
      if suffix != "" {
        loose := Upsert(loose, suffix, meta);
      }
      loose := Upsert(loose, mid, meta);
      log := log + [e];
    }

    function Lookup(providerType: string, vendor: Option<string>, model: string): Option<Meta>
      reads this
    {
      LookupIn(exact, loose, providerType, vendor, model)
    }
  }
}
