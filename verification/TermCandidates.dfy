/** What happens to candidates before the replacement: cleaning their variants, giving a shared variant to one
    candidate, and joining the verdicts to them by id. */
module TermCandidates {
  import opened Common
  import opened TermFixer
  import PyText

  const MAX_VARIANTS := 10
  const MIN_VARIANT_LEN := 3
  const MAX_TERM_LEN := 120
  const MAX_CORRECTED_LEN := 80

  datatype Candidate = Candidate(heard: string, variants: seq<string>, description: string, query: string)

  // ---------------------------------------------------------------- cleaning

  /** White space squeezed: `" ".join(v.split())`. */
  function Squeeze(v: string): string {
    PyText.Join(PyText.Words(v))
  }

  predicate DigitsOnly(a: Alphabet, v: string) {
    v != "" && AllOf(v, c => a.digit(c) || c == '-')
  }

  predicate VariantOk(a: Alphabet, v: string) {
    MIN_VARIANT_LEN <= |v| <= MAX_TERM_LEN && !DigitsOnly(a, v)
  }

  /** The input squeezed, when it is a string and then acceptable as a variant. */
  function Usable(a: Alphabet, input: Option<string>): Option<string> {
    if input.Some? && VariantOk(a, Squeeze(input.value)) then Some(Squeeze(input.value)) else None
  }

  function AllUsable(a: Alphabet, inputs: seq<Option<string>>): seq<Option<string>> {
    seq(|inputs|, i requires 0 <= i < |inputs| => Usable(a, inputs[i]))
  }

  predicate Increasing(s: seq<nat>) {
    forall i, j :: 0 <= i < j < |s| ==> s[i] < s[j]
  }

  /** Among `out` there is the spelling of input `i`, from that input or an earlier one. */
  ghost predicate Represented(a: Alphabet, usable: seq<Option<string>>, i: nat, out: seq<string>, origin: seq<nat>)
    requires i < |usable| && |origin| == |out|
  {
    usable[i].Some? ==>
      exists j :: 0 <= j < |out| && origin[j] <= i && a.caseFold(out[j]) == a.caseFold(usable[i].value)
  }

  /** `out` are the first usable inputs of their spelling, in order: `origin[j]` is where `out[j]` stood. Nothing usable
      is missing among the first `upTo` inputs. */
  ghost predicate Cleaned(a: Alphabet, usable: seq<Option<string>>, upTo: nat, out: seq<string>, origin: seq<nat>) {
    && |origin| == |out| && Increasing(origin) && upTo <= |usable|
    && (forall j :: 0 <= j < |out| ==> origin[j] < upTo && usable[origin[j]] == Some(out[j]))
    && (forall i, j :: 0 <= i < j < |out| ==> a.caseFold(out[i]) != a.caseFold(out[j]))
    && (forall i :: 0 <= i < upTo ==> Represented(a, usable, i, out, origin))
  }

  lemma {:induction false} CleanedSkip(a: Alphabet, usable: seq<Option<string>>, i: nat, out: seq<string>,
                                       origin: seq<nat>)
    requires i < |usable| && Cleaned(a, usable, i, out, origin)
    requires usable[i].Some? ==> exists j :: 0 <= j < |out| && a.caseFold(out[j]) == a.caseFold(usable[i].value)
    ensures Cleaned(a, usable, i + 1, out, origin)
  {
  }

  lemma {:induction false} CleanedAdd(a: Alphabet, usable: seq<Option<string>>, i: nat, out: seq<string>,
                                      origin: seq<nat>)
    requires i < |usable| && usable[i].Some? && Cleaned(a, usable, i, out, origin)
    requires forall j :: 0 <= j < |out| ==> a.caseFold(out[j]) != a.caseFold(usable[i].value)
    ensures Cleaned(a, usable, i + 1, out + [usable[i].value], origin + [i])
  {
    var out', origin' := out + [usable[i].value], origin + [i];
    forall k | 0 <= k < i + 1 ensures Represented(a, usable, k, out', origin') {
      if k < i && usable[k].Some? {
        assert Represented(a, usable, k, out, origin);
        var j :| 0 <= j < |out| && origin[j] <= k && a.caseFold(out[j]) == a.caseFold(usable[k].value);
        assert out'[j] == out[j] && origin'[j] == origin[j];
      } else {
        assert out'[|out|] == usable[i].value;
      }
    }
  }

  function Spellings(a: Alphabet, out: seq<string>): set<string> {
    set v | v in out :: a.caseFold(v)
  }

  lemma {:induction false} SpellingsMore(a: Alphabet, out: seq<string>, v: string)
    ensures Spellings(a, out + [v]) == Spellings(a, out) + {a.caseFold(v)}
  {
  }

  /** The distinct usable variants in order, the heard form first, up to the cap: `read` inputs were looked at, all of
      them unless the cap was reached. A `None` among the variants is a value that is not a string. */
  method CleanVariants(a: Alphabet, heard: string, variants: seq<Option<string>>)
    returns (out: seq<string>, ghost origin: seq<nat>, ghost read: nat)
    ensures Cleaned(a, AllUsable(a, [Some(heard)] + variants), read, out, origin)
    ensures |out| <= MAX_VARIANTS && (|out| < MAX_VARIANTS ==> read == |variants| + 1)
  {
    var inputs := [Some(heard)] + variants;
    ghost var usable := AllUsable(a, inputs);
    out, origin, read := [], [], |inputs|;
    var seen: set<string> := {};
    for i := 0 to |inputs|
      invariant Cleaned(a, usable, i, out, origin) && |out| < MAX_VARIANTS && read == |inputs|
      invariant seen == Spellings(a, out)
    {
      var v := Usable(a, inputs[i]);
      if v.Some? && a.caseFold(v.value) !in seen {
        CleanedAdd(a, usable, i, out, origin);
        SpellingsMore(a, out, v.value);
        seen := seen + {a.caseFold(v.value)};
        out := out + [v.value];
        origin := origin + [i];
        if |out| >= MAX_VARIANTS {
          read := i + 1;
          return;
        }
      } else {
        if v.Some? {
          var j :| 0 <= j < |out| && a.caseFold(out[j]) == a.caseFold(v.value);
        }
        CleanedSkip(a, usable, i, out, origin);
      }
    }
  }

  // ---------------------------------------------------------------- one owner per variant

  /** Some variant before number `n` of candidate `c` has this spelling. */
  predicate Taken(a: Alphabet, cs: seq<Candidate>, c: nat, n: nat, key: string)
    requires c < |cs| && n <= |cs[c].variants|
  {
    || (exists d, m :: 0 <= d < c && 0 <= m < |cs[d].variants| && a.caseFold(cs[d].variants[m]) == key)
    || (exists m :: 0 <= m < n && a.caseFold(cs[c].variants[m]) == key)
  }

  /** The variants among the first `n` of candidate `c` that nothing before them has taken. */
  function Kept(a: Alphabet, cs: seq<Candidate>, c: nat, n: nat): seq<string>
    requires c < |cs| && n <= |cs[c].variants|
  {
    if n == 0 then []
    else
      var kept := Kept(a, cs, c, n - 1);
      var v := cs[c].variants[n - 1];
      if Taken(a, cs, c, n - 1, a.caseFold(v)) then kept else kept + [v]
  }

  /** The first `k` candidates with the variants that are theirs; a candidate left with none is dropped. */
  function Deduped(a: Alphabet, cs: seq<Candidate>, k: nat): seq<Candidate>
    requires k <= |cs|
  {
    if k == 0 then []
    else
      var done := Deduped(a, cs, k - 1);
      var kept := Kept(a, cs, k - 1, |cs[k - 1].variants|);
      if kept == [] then done else done + [cs[k - 1].(variants := kept)]
  }

  method DedupVariants(a: Alphabet, cs: seq<Candidate>) returns (out: seq<Candidate>)
    ensures out == Deduped(a, cs, |cs|)
  {
    var taken: set<string> := {};
    out := [];
    for c := 0 to |cs|
      invariant out == Deduped(a, cs, c)
      invariant forall key :: key in taken <==>
                              exists d, m :: 0 <= d < c && 0 <= m < |cs[d].variants|
                                             && a.caseFold(cs[d].variants[m]) == key
    {
      var kept: seq<string> := [];
      var variants := cs[c].variants;
      for n := 0 to |variants|
        invariant kept == Kept(a, cs, c, n)
        invariant forall key :: key in taken <==> Taken(a, cs, c, n, key)
      {
        var key := a.caseFold(variants[n]);
        if key !in taken {
          taken := taken + {key};
          kept := kept + [variants[n]];
        }
      }
      if kept != [] {
        out := out + [cs[c].(variants := kept)];
      }
    }
  }

  ghost predicate DistinctStrings(a: Alphabet, vs: seq<string>) {
    forall i, j :: 0 <= i < j < |vs| ==> a.caseFold(vs[i]) != a.caseFold(vs[j])
  }

  ghost predicate SharesNothing(a: Alphabet, vs: seq<string>, ws: seq<string>) {
    forall v, w :: v in vs && w in ws ==> a.caseFold(v) != a.caseFold(w)
  }

  /** No spelling is a variant of two candidates, nor twice of one. */
  ghost predicate OneOwner(a: Alphabet, vss: seq<seq<string>>) {
    && (forall i :: 0 <= i < |vss| ==> DistinctStrings(a, vss[i]))
    && (forall i, j :: 0 <= i < j < |vss| ==> SharesNothing(a, vss[i], vss[j]))
  }

  function VariantsOf(cs: seq<Candidate>): seq<seq<string>> {
    seq(|cs|, i requires 0 <= i < |cs| => cs[i].variants)
  }

  lemma {:induction false} KeptIsOwn(a: Alphabet, cs: seq<Candidate>, c: nat, n: nat)
    requires c < |cs| && n <= |cs[c].variants|
    ensures DistinctStrings(a, Kept(a, cs, c, n))
    ensures forall v :: v in Kept(a, cs, c, n) ==>
                          exists m :: 0 <= m < n && cs[c].variants[m] == v && !Taken(a, cs, c, m, a.caseFold(v))
  {
    if n > 0 {
      KeptIsOwn(a, cs, c, n - 1);
      var kept, v := Kept(a, cs, c, n - 1), cs[c].variants[n - 1];
      if !Taken(a, cs, c, n - 1, a.caseFold(v)) {
        forall i | 0 <= i < |kept| ensures a.caseFold(kept[i]) != a.caseFold(v) {
          assert kept[i] in kept;
        }
      }
    }
  }

  /** After deduplication each spelling has one owner, and every kept variant was its candidate's before. */
  lemma {:induction false} DedupedHasOneOwner(a: Alphabet, cs: seq<Candidate>, k: nat)
    requires k <= |cs|
    ensures OneOwner(a, VariantsOf(Deduped(a, cs, k)))
    ensures forall x :: x in Deduped(a, cs, k) ==>
                          exists c :: 0 <= c < k && x == cs[c].(variants := Kept(a, cs, c, |cs[c].variants|))
                                      && x.variants != []
  {
    if k > 0 {
      DedupedHasOneOwner(a, cs, k - 1);
      var c := k - 1;
      var done, kept := Deduped(a, cs, c), Kept(a, cs, c, |cs[c].variants|);
      KeptIsOwn(a, cs, c, |cs[c].variants|);
      forall i | 0 <= i < |done| ensures SharesNothing(a, done[i].variants, kept) {
        assert done[i] in done;
        var d :| 0 <= d < c && done[i] == cs[d].(variants := Kept(a, cs, d, |cs[d].variants|));
        KeptIsOwn(a, cs, d, |cs[d].variants|);
      }
      if kept != [] {
        assert VariantsOf(done + [cs[c].(variants := kept)]) == VariantsOf(done) + [kept];
      }
    }
  }

  /** The first candidate to list a spelling keeps it. */
  lemma {:induction false} FirstOwnerKeeps(a: Alphabet, cs: seq<Candidate>, c: nat, m: nat)
    requires c < |cs| && m < |cs[c].variants| && !Taken(a, cs, c, m, a.caseFold(cs[c].variants[m]))
    ensures cs[c].variants[m] in Kept(a, cs, c, |cs[c].variants|)
  {
    KeptGrows(a, cs, c, m + 1, |cs[c].variants|);
  }

  lemma {:induction false} KeptGrows(a: Alphabet, cs: seq<Candidate>, c: nat, n: nat, m: nat)
    requires c < |cs| && n <= m <= |cs[c].variants|
    ensures forall v :: v in Kept(a, cs, c, n) ==> v in Kept(a, cs, c, m)
    decreases m
  {
    if n < m {
      KeptGrows(a, cs, c, n, m - 1);
    }
  }

  // ---------------------------------------------------------------- verdicts

  /** An element of the answer; `id` is `None` unless it is a plain integer. */
  datatype Verdict = NotAnObject | Verdict(id: Option<int>, alreadyCorrect: bool, corrected: Option<string>,
                                           confidence: Option<Confidence>)

  predicate AllowedInCorrected(a: Alphabet, c: char) {
    a.word(c) || c in {' ', '.', '-', '&', '+', '(', ')'}
  }

  /** The verdict offers a correction of the candidate that keeps within all limits. */
  predicate Acceptable(a: Alphabet, v: Verdict, c: Candidate) {
    && v.Verdict? && !v.alreadyCorrect && v.corrected.Some? && '\n' !in v.corrected.value
    && var corr := PyText.Strip(v.corrected.value);
    && corr != "" && |corr| <= MAX_CORRECTED_LEN && |corr| <= 3 * |c.heard|
    && (forall i :: 0 <= i < |corr| ==> AllowedInCorrected(a, corr[i]))
    && a.caseFold(corr) != a.caseFold(c.heard)
  }

  function ItemOf(v: Verdict, c: Candidate): Item
    requires v.Verdict? && v.corrected.Some?
  {
    var confidence := if v.confidence.Some? then v.confidence.value else Low;
    Item(c.heard, c.variants, Some(PyText.Strip(v.corrected.value)), confidence, c.description)
  }

  predicate HasId(v: Verdict, id: int) {
    v.Verdict? && v.id == Some(id)
  }

  /** Verdict `k` is the first one with the id of a candidate. */
  predicate Decides(vs: seq<Verdict>, cands: map<int, Candidate>, k: nat)
    requires k < |vs|
  {
    && vs[k].Verdict? && vs[k].id.Some? && vs[k].id.value in cands
    && forall j :: 0 <= j < k ==> !HasId(vs[j], vs[k].id.value)
  }

  /** The ids accepted by the first `k` verdicts, and what they become. */
  function Accepted(a: Alphabet, vs: seq<Verdict>, cands: map<int, Candidate>, k: nat): seq<(int, Item)>
    requires k <= |vs|
  {
    if k == 0 then []
    else
      var done := Accepted(a, vs, cands, k - 1);
      var v := vs[k - 1];
      if Decides(vs, cands, k - 1) && Acceptable(a, v, cands[v.id.value])
      then done + [(v.id.value, ItemOf(v, cands[v.id.value]))]
      else done
  }

  function Seconds(ps: seq<(int, Item)>): seq<Item> {
    seq(|ps|, i requires 0 <= i < |ps| => ps[i].1)
  }

  /** The checks on one verdict for its candidate, in the order the code makes them. */
  method Check(a: Alphabet, v: Verdict, cand: Candidate) returns (item: Option<Item>)
    requires v.Verdict?
    ensures item == if Acceptable(a, v, cand) then Some(ItemOf(v, cand)) else None
  {
    if v.alreadyCorrect {
      return None;
    }
    if v.corrected.None? || '\n' in v.corrected.value {
      return None;
    }
    var corr := PyText.Strip(v.corrected.value);
    if corr == "" || |corr| > MAX_CORRECTED_LEN || |corr| > 3 * |cand.heard|
       || (exists i :: 0 <= i < |corr| && !AllowedInCorrected(a, corr[i])) {
      return None;
    }
    if a.caseFold(corr) == a.caseFold(cand.heard) {
      return None;
    }
    return Some(ItemOf(v, cand));
  }

  lemma {:induction false} AcceptedNext(a: Alphabet, vs: seq<Verdict>, cands: map<int, Candidate>, k: nat)
    requires k < |vs|
    ensures Seconds(Accepted(a, vs, cands, k + 1)) ==
            if Decides(vs, cands, k) && Acceptable(a, vs[k], cands[vs[k].id.value])
            then Seconds(Accepted(a, vs, cands, k)) + [ItemOf(vs[k], cands[vs[k].id.value])]
            else Seconds(Accepted(a, vs, cands, k))
  {
  }

  /** The candidates without a verdict among the first `k`. */
  ghost predicate Undecided(remaining: map<int, Candidate>, vs: seq<Verdict>, cands: map<int, Candidate>, k: nat)
    requires k <= |vs|
  {
    && (forall i :: i in remaining <==> i in cands && forall j :: 0 <= j < k ==> !HasId(vs[j], i))
    && (forall i :: i in remaining ==> remaining[i] == cands[i])
  }

  lemma {:induction false} UndecidedNext(remaining: map<int, Candidate>, vs: seq<Verdict>, cands: map<int, Candidate>,
                                         k: nat)
    requires k < |vs| && Undecided(remaining, vs, cands, k)
    ensures var v := vs[k];
            if v.Verdict? && v.id.Some? then
              && (v.id.value in remaining <==> Decides(vs, cands, k))
              && Undecided(remaining - {v.id.value}, vs, cands, k + 1)
            else Undecided(remaining, vs, cands, k + 1)
  {
    var v := vs[k];
    if v.Verdict? && v.id.Some? {
      var id := v.id.value;
      assert id in remaining <==> id in cands && forall j :: 0 <= j < k ==> !HasId(vs[j], id);
      assert v.id == Some(id);
    }
  }

  /** Verdicts are joined to the candidates strictly by id; only the first verdict for an id counts, even when it is
      rejected. */
  method SanitizeVerdicts(a: Alphabet, vs: seq<Verdict>, cands: map<int, Candidate>) returns (out: seq<Item>)
    ensures out == Seconds(Accepted(a, vs, cands, |vs|))
  {
    out := [];
    var remaining := cands;
    for k := 0 to |vs|
      invariant out == Seconds(Accepted(a, vs, cands, k))
      invariant Undecided(remaining, vs, cands, k)
    {
      var v := vs[k];
      UndecidedNext(remaining, vs, cands, k);
      AcceptedNext(a, vs, cands, k);
      if v.Verdict? && v.id.Some? {
        var known := v.id.value in remaining;
        if known {
          var item := Check(a, v, remaining[v.id.value]);
          if item.Some? {
            out := out + [item.value];
          }
        }
        remaining := remaining - {v.id.value};
      }
    }
  }

  /** One of the first `k` verdicts has the id. */
  ghost predicate Named(vs: seq<Verdict>, k: nat, id: int)
    requires k <= |vs|
  {
    exists j :: 0 <= j < k && HasId(vs[j], id)
  }

  /** The ids are those of candidates decided by the first `k` verdicts, pairwise distinct. */
  ghost predicate JoinedById(r: seq<(int, Item)>, vs: seq<Verdict>, cands: map<int, Candidate>, k: nat)
    requires k <= |vs|
  {
    && (forall i :: 0 <= i < |r| ==> r[i].0 in cands && r[i].1.variants == cands[r[i].0].variants)
    && (forall i :: 0 <= i < |r| ==> Named(vs, k, r[i].0))
    && (forall i, j :: 0 <= i < j < |r| ==> r[i].0 != r[j].0)
  }

  lemma {:induction false} AcceptedIdsDistinct(a: Alphabet, vs: seq<Verdict>, cands: map<int, Candidate>, k: nat)
    requires k <= |vs|
    ensures JoinedById(Accepted(a, vs, cands, k), vs, cands, k)
  {
    if k == 0 {
      NoneJoined(a, vs, cands);
    } else {
      AcceptedIdsDistinct(a, vs, cands, k - 1);
      OneMoreJoined(a, vs, cands, k);
    }
  }

  lemma {:induction false} NoneJoined(a: Alphabet, vs: seq<Verdict>, cands: map<int, Candidate>)
    ensures JoinedById(Accepted(a, vs, cands, 0), vs, cands, 0)
  {
    assert Accepted(a, vs, cands, 0) == [];
  }

  lemma {:induction false} OneMoreJoined(a: Alphabet, vs: seq<Verdict>, cands: map<int, Candidate>, k: nat)
    requires 0 < k <= |vs| && JoinedById(Accepted(a, vs, cands, k - 1), vs, cands, k - 1)
    ensures JoinedById(Accepted(a, vs, cands, k), vs, cands, k)
  {
    var more := AcceptedAt(a, vs, cands, k);
    JoinedAppend(Accepted(a, vs, cands, k - 1), more, Accepted(a, vs, cands, k), vs, cands, k - 1);
  }

  lemma {:induction false} JoinedAppend(r: seq<(int, Item)>, more: seq<(int, Item)>, all: seq<(int, Item)>,
                                        vs: seq<Verdict>, cands: map<int, Candidate>, k: nat)
    requires k < |vs| && JoinedById(r, vs, cands, k) && all == r + more && |more| <= 1
    requires more != [] ==>
               && Decides(vs, cands, k) && more[0].0 == vs[k].id.value
               && more[0].1.variants == cands[more[0].0].variants
    ensures JoinedById(all, vs, cands, k + 1)
  {
    if more == [] {
      JoinedStays(r, vs, cands, k);
      assert all == r;
    } else {
      JoinedMore(r, more[0], all, vs, cands, k);
    }
  }

  /** What verdict `k - 1` adds: at most one item, with the variants of the candidate that it decides. */
  lemma {:induction false} AcceptedAt(a: Alphabet, vs: seq<Verdict>, cands: map<int, Candidate>, k: nat)
    returns (more: seq<(int, Item)>)
    requires 0 < k <= |vs|
    ensures Accepted(a, vs, cands, k) == Accepted(a, vs, cands, k - 1) + more && |more| <= 1
    ensures more != [] ==>
              && Decides(vs, cands, k - 1) && more[0].0 == vs[k - 1].id.value
              && more[0].1.variants == cands[more[0].0].variants
  {
    var v := vs[k - 1];
    if Decides(vs, cands, k - 1) && Acceptable(a, v, cands[v.id.value]) {
      more := [(v.id.value, ItemOf(v, cands[v.id.value]))];
    } else {
      more := [];
    }
  }

  lemma {:induction false} JoinedStays(r: seq<(int, Item)>, vs: seq<Verdict>, cands: map<int, Candidate>, k: nat)
    requires k < |vs| && JoinedById(r, vs, cands, k)
    ensures JoinedById(r, vs, cands, k + 1)
  {
  }

  lemma {:induction false} JoinedMore(r: seq<(int, Item)>, last: (int, Item), all: seq<(int, Item)>,
                                      vs: seq<Verdict>, cands: map<int, Candidate>, k: nat)
    requires k < |vs| && JoinedById(r, vs, cands, k) && Decides(vs, cands, k) && all == r + [last]
    requires last.0 == vs[k].id.value && last.1.variants == cands[last.0].variants
    ensures JoinedById(all, vs, cands, k + 1)
  {
    assert HasId(vs[k], last.0);
    forall i | 0 <= i < |r| ensures Named(vs, k + 1, r[i].0) && r[i].0 != last.0 {
      assert Named(vs, k, r[i].0);
    }
  }

  // ---------------------------------------------------------------- the pipeline

  function ItemVariants(items: seq<Item>): seq<seq<string>> {
    seq(|items|, i requires 0 <= i < |items| => items[i].variants)
  }

  lemma {:induction false} PairsDistinct(a: Alphabet, items: seq<Item>, from: nat)
    requires OneOwner(a, ItemVariants(items))
    ensures DistinctKeys(a, PairsFrom(items, from))
    ensures forall p :: p in PairsFrom(items, from) ==> from <= p.rep < |items| && p.variant in items[p.rep].variants
    decreases |items| - from
  {
    if from < |items| {
      var vss := ItemVariants(items);
      PairsDistinct(a, items, from + 1);
      assert DistinctStrings(a, vss[from]);
      VariantPairsDistinct(a, items[from].variants, from);
      var head, rest := VariantPairs(items[from].variants, from), PairsFrom(items, from + 1);
      forall p, q | p in head && q in rest ensures a.caseFold(p.variant) != a.caseFold(q.variant) {
        assert SharesNothing(a, vss[from], vss[q.rep]);
      }
      DistinctConcat(a, head, rest);
    }
  }

  lemma {:induction false} DistinctConcat(a: Alphabet, ps: seq<Pair>, qs: seq<Pair>)
    requires DistinctKeys(a, ps) && DistinctKeys(a, qs)
    requires forall p, q :: p in ps && q in qs ==> a.caseFold(p.variant) != a.caseFold(q.variant)
    ensures DistinctKeys(a, ps + qs)
  {
  }

  lemma {:induction false} VariantPairsDistinct(a: Alphabet, vs: seq<string>, rep: nat)
    requires DistinctStrings(a, vs)
    ensures DistinctKeys(a, VariantPairs(vs, rep))
    ensures forall p :: p in VariantPairs(vs, rep) ==> p.rep == rep && p.variant in vs
  {
    if vs != [] {
      VariantPairsDistinct(a, vs[1..], rep);
      if vs[0] != "" {
        forall p, q | p in [Pair(vs[0], rep)] && q in VariantPairs(vs[1..], rep)
          ensures a.caseFold(p.variant) != a.caseFold(q.variant)
        {
          var j :| 1 <= j < |vs| && vs[j] == q.variant;
        }
        DistinctConcat(a, [Pair(vs[0], rep)], VariantPairs(vs[1..], rep));
      }
    }
  }

  lemma {:induction false} ByLengthDistinct(a: Alphabet, ps: seq<Pair>)
    requires DistinctKeys(a, ps)
    ensures DistinctKeys(a, ByLength(ps))
  {
    if ps != [] {
      ByLengthDistinct(a, ps[1..]);
      InsertDistinct(a, ps[0], ByLength(ps[1..]));
    }
  }

  lemma {:induction false} InsertDistinct(a: Alphabet, p: Pair, ps: seq<Pair>)
    requires Descending(ps) && DistinctKeys(a, ps)
    requires forall q :: q in ps ==> a.caseFold(p.variant) != a.caseFold(q.variant)
    ensures DistinctKeys(a, InsertByLength(p, ps))
  {
    if ps == [] || |p.variant| >= |ps[0].variant| {
      DistinctConcat(a, [p], ps);
    } else {
      InsertDistinct(a, p, ps[1..]);
      forall q | q in InsertByLength(p, ps[1..]) ensures a.caseFold(ps[0].variant) != a.caseFold(q.variant) {
        if q != p {
          var j :| 1 <= j < |ps| && ps[j] == q;
        }
      }
      DistinctConcat(a, [ps[0]], InsertByLength(p, ps[1..]));
    }
  }

  /** `dict(enumerate(candidates))` */
  function Enumerated(cs: seq<Candidate>): map<int, Candidate> {
    map i | 0 <= i < |cs| :: cs[i]
  }

  /** The items that reach the replacement. */
  function PipelineItems(a: Alphabet, cs: seq<Candidate>, vs: seq<Verdict>): seq<Item> {
    Seconds(Accepted(a, vs, Enumerated(Deduped(a, cs, |cs|)), |vs|))
  }

  /** Whatever the verdicts say, the replacements that reach `apply_replacements` have variants with distinct casefolds.
      So the rewriting is determined: any choice of spans that are word-bounded, longest and first at their start, apart
      and complete is the one made. And a span goes to the item whose variant the engine matched exactly when no other
      variant has its casefold. */
  lemma {:induction false} PipelineDeterminesSpans(a: Alphabet, cs: seq<Candidate>, vs: seq<Verdict>, text: string,
                                                   spans: seq<Span>)
    requires Chosen(a, text, 0, Alternatives(PipelineItems(a, cs, vs)), spans)
    ensures var ps := Alternatives(PipelineItems(a, cs, vs));
            DistinctKeys(a, ps) && AllNonEmpty(ps) && spans == Spans(a, text, 0, ps)
    ensures var ps := Alternatives(PipelineItems(a, cs, vs));
            forall k :: 0 <= k < |spans| ==>
                          (OwnedSpans(a, text, ps)[k] == spans[k] <==>
                           NoOtherKey(a, ps, spans[k].pair, Found(text, spans, k)))
  {
    var items := PipelineItems(a, cs, vs);
    var ps := Alternatives(items);
    PipelineDistinct(a, cs, vs);
    PairsRefer(items, 0);
    SpansAreChosen(a, text, 0, ps);
    ChosenUnique(a, text, 0, ps, spans, Spans(a, text, 0, ps));
    forall k | 0 <= k < |spans|
      ensures OwnedSpans(a, text, ps)[k] == spans[k] <==> NoOtherKey(a, ps, spans[k].pair, Found(text, spans, k))
    {
      DistinctOwnerIff(a, text, ps, spans[k]);
    }
  }

  lemma {:induction false} PipelineDistinct(a: Alphabet, cs: seq<Candidate>, vs: seq<Verdict>)
    ensures DistinctKeys(a, Alternatives(PipelineItems(a, cs, vs)))
  {
    var deduped := Deduped(a, cs, |cs|);
    var accepted := Accepted(a, vs, Enumerated(deduped), |vs|);
    var items := Seconds(accepted);
    DedupedHasOneOwner(a, cs, |cs|);
    AcceptedIdsDistinct(a, vs, Enumerated(deduped), |vs|);
    AcceptedHasOneOwner(a, deduped, accepted);
    PairsDistinct(a, items, 0);
    ByLengthDistinct(a, PairsFrom(items, 0));
  }

  lemma {:induction false} AcceptedAreStrings(a: Alphabet, vs: seq<Verdict>, cands: map<int, Candidate>, k: nat)
    requires k <= |vs|
    ensures forall r :: r in Accepted(a, vs, cands, k) ==> r.1.corrected.Some?
  {
    if k > 0 {
      AcceptedAreStrings(a, vs, cands, k - 1);
    }
  }

  /** Every correction that reaches the replacement is a string, so that in the pipeline the pass never fails. */
  lemma {:induction false} PipelineNeverFails(a: Alphabet, cs: seq<Candidate>, vs: seq<Verdict>, text: string,
                                              russian: bool)
    ensures var items := PipelineItems(a, cs, vs);
            var ps := Alternatives(items);
            && AllNonEmpty(ps) && Refers(text, items, ps, OwnedSpans(a, text, ps))
            && Rewritten(text, items, ps, OwnedSpans(a, text, ps), russian).Some?
  {
    var cands := Enumerated(Deduped(a, cs, |cs|));
    var items := PipelineItems(a, cs, vs);
    AcceptedAreStrings(a, vs, cands, |vs|);
    forall i | 0 <= i < |items| ensures items[i].corrected.Some? {
      assert Accepted(a, vs, cands, |vs|)[i] in Accepted(a, vs, cands, |vs|);
    }
    SpansRefer(a, text, items);
    var ps := Alternatives(items);
    NoPieceMissing(text, items, ps, OwnedSpans(a, text, ps), russian);
  }

  lemma {:induction false} NoPieceMissing(text: string, items: seq<Item>, ps: seq<Pair>, spans: seq<Span>,
                                          russian: bool)
    requires Refers(text, items, ps, spans) && forall i :: 0 <= i < |items| ==> items[i].corrected.Some?
    ensures Rewritten(text, items, ps, spans, russian).Some?
  {
    FailsIff(text, items, ps, spans, russian, |spans|);
  }

  lemma {:induction false} AcceptedHasOneOwner(a: Alphabet, cs: seq<Candidate>, r: seq<(int, Item)>)
    requires OneOwner(a, VariantsOf(cs))
    requires forall i :: 0 <= i < |r| ==> 0 <= r[i].0 < |cs| && r[i].1.variants == cs[r[i].0].variants
    requires forall i, j :: 0 <= i < j < |r| ==> r[i].0 != r[j].0
    ensures OneOwner(a, ItemVariants(Seconds(r)))
  {
    var vss := VariantsOf(cs);
    forall i, j | 0 <= i < j < |r| ensures SharesNothing(a, r[i].1.variants, r[j].1.variants) {
      var c, d := r[i].0, r[j].0;
      assert if c < d then SharesNothing(a, vss[c], vss[d]) else SharesNothing(a, vss[d], vss[c]);
    }
    forall i | 0 <= i < |r| ensures DistinctStrings(a, r[i].1.variants) {
      assert DistinctStrings(a, vss[r[i].0]);
    }
  }
}
