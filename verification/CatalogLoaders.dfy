/** The two `load_into` functions as sources of catalog rows; JSON payloads are already-parsed records. */
module CatalogLoaders {
  import opened Common
  import opened Catalog
  import Seqs

  /** Windows below this are treated as unknown. */
  const MIN_CONTEXT := 1000

  /** A model of the models.dev payload; an absent or ill-typed JSON field is `None`. */
  datatype MdModel = MdModel(id: string, context: Option<u32>, output: Option<u32>,
                             costInput: Option<real>, costOutput: Option<real>,
                             attachment: Option<bool>, reasoning: Option<bool>, toolCall: Option<bool>,
                             temperature: Option<bool>, interleavedField: Option<string>)

  /** A provider of the models.dev payload; without a `models` object it is skipped. */
  datatype MdProvider = MdProvider(id: string, models: Option<seq<MdModel>>)

  /** An element of OpenRouter's `data`; rates are USD per token, as parsed. */
  datatype OrModel = OrModel(id: Option<string>, contextLength: Option<u32>, topContext: Option<u32>,
                             topOutput: Option<u32>, promptRate: Option<real>, completionRate: Option<real>)

  function Or<T>(o: Option<T>, default: T): T {
    if o.Some? then o.value else default
  }

  function MdMeta(m: MdModel): Meta
    requires m.context.Some?
  {
    Meta(m.context.value, m.output,
         if m.costInput.Some? && m.costOutput.Some? then Some(Cost(m.costInput.value, m.costOutput.value)) else None,
         Some(Caps(Or(m.attachment, false), Or(m.reasoning, false), Or(m.toolCall, false), Or(m.temperature, true),
                   m.interleavedField == Some("reasoning_content"))),
         ModelsDev)
  }

  predicate Known(context: Option<u32>) {
    context.Some? && context.value >= MIN_CONTEXT
  }

  function MdModelRows(provider: string, models: seq<MdModel>): seq<Row> {
    if models == [] then []
    else
      var n := |models| - 1;
      var rows := MdModelRows(provider, models[..n]);
      if Known(models[n].context) then rows + [Row(provider, models[n].id, MdMeta(models[n]))] else rows
  }

  function MdRows(providers: seq<MdProvider>): seq<Row> {
    if providers == [] then []
    else
      var p := providers[|providers| - 1];
      var rows := MdRows(providers[..|providers| - 1]);
      if p.models.Some? then rows + MdModelRows(p.id, p.models.value) else rows
  }

  function OrContext(m: OrModel): Option<u32> {
    if m.contextLength.Some? then m.contextLength else m.topContext
  }

  function OrMeta(m: OrModel): Meta
    requires OrContext(m).Some?
  {
    Meta(OrContext(m).value, m.topOutput,
         if m.promptRate.Some? && m.promptRate.value >= 0.0 && m.completionRate.Some? && m.completionRate.value >= 0.0
         then Some(Cost(m.promptRate.value * 1000000.0, m.completionRate.value * 1000000.0)) else None,
         None, OpenRouter)
  }

  function OrRow(m: OrModel): Row
    requires m.id.Some? && OrContext(m).Some?
  {
    var slash := Find(m.id.value, '/');
    if slash < |m.id.value| then Row(m.id.value[..slash], m.id.value[slash + 1..], OrMeta(m))
    else Row("openrouter", m.id.value, OrMeta(m))
  }

  function OrRows(data: seq<OrModel>): seq<Row> {
    if data == [] then []
    else
      var n := |data| - 1;
      var rows := OrRows(data[..n]);
      if data[n].id.Some? && Known(OrContext(data[n])) then rows + [OrRow(data[n])] else rows
  }

  /** `row` is the row of a listed model with a known window. */
  predicate MdRowOf(p: MdProvider, j: nat, row: Row) {
    p.models.Some? && j < |p.models.value| && Known(p.models.value[j].context)
    && row == Row(p.id, p.models.value[j].id, MdMeta(p.models.value[j]))
  }

  lemma {:induction false} MdModelRowsIff(provider: string, models: seq<MdModel>, row: Row)
    ensures row in MdModelRows(provider, models) <==>
            exists j: nat :: MdRowOf(MdProvider(provider, Some(models)), j, row)
  {
    if models != [] {
      var n := |models| - 1;
      var p, q := MdProvider(provider, Some(models)), MdProvider(provider, Some(models[..n]));
      MdModelRowsIff(provider, models[..n], row);
      forall j: nat ensures MdRowOf(p, j, row) <==> MdRowOf(q, j, row) || (j == n && MdRowOf(p, n, row)) {
      }
      if row in MdModelRows(provider, models[..n]) {
        var j: nat :| MdRowOf(q, j, row);
        assert MdRowOf(p, j, row);
      }
      assert MdRowOf(p, n, row) <==> Known(models[n].context) && row == Row(provider, models[n].id, MdMeta(models[n]));
    }
  }

  /** The rows of a models.dev payload are exactly those of listed models with a known window. */
  lemma {:induction false} MdRowsIff(providers: seq<MdProvider>, row: Row)
    ensures row in MdRows(providers) <==> exists i, j: nat :: 0 <= i < |providers| && MdRowOf(providers[i], j, row)
  {
    if providers != [] {
      var n := |providers| - 1;
      MdRowsIff(providers[..n], row);
      if providers[n].models.Some? {
        MdModelRowsIff(providers[n].id, providers[n].models.value, row);
        assert providers[n] == MdProvider(providers[n].id, Some(providers[n].models.value));
      }
      assert providers == providers[..n] + [providers[n]];
    }
  }

  /** The rows of an OpenRouter payload are exactly those of elements with an id and a known window. */
  lemma {:induction false} OrRowsIff(data: seq<OrModel>, row: Row)
    ensures row in OrRows(data) <==>
            exists i :: 0 <= i < |data| && data[i].id.Some? && Known(OrContext(data[i])) && row == OrRow(data[i])
  {
    if data != [] {
      var n := |data| - 1;
      OrRowsIff(data[..n], row);
      assert data == data[..n] + [data[n]];
    }
  }

  lemma {:induction false} EntriesFirst(rows: seq<Row>)
    requires rows != []
    ensures Entries(rows) == Entries([rows[0]]) + Entries(rows[1..])
  {
    assert [rows[0]][1..] == [] && Entries([]) == [];
  }

  lemma {:induction false} EntriesConcat(a: seq<Row>, b: seq<Row>)
    ensures Entries(a + b) == Entries(a) + Entries(b)
  {
    if a == [] {
      assert a + b == b;
    } else {
      assert (a + b)[1..] == a[1..] + b && (a + b)[0] == a[0];
      EntriesConcat(a[1..], b);
      var first := Entries([a[0]]);
      EntriesFirst(a);
      EntriesFirst(a + b);
      Seqs.Regroup(first, Entries(a[1..]), Entries(b));
    }
  }

  /** A log that grew by the entries of `a` and then of `b` grew by those of `a + b`. */
  lemma {:induction false} LogGrows(log: seq<Entry>, a: seq<Row>, b: seq<Row>)
    ensures (log + Entries(a)) + Entries(b) == log + Entries(a + b)
  {
    EntriesConcat(a, b);
  }

  method LoadModelsDev(cat: ModelCatalog, providers: seq<MdProvider>) returns (n: nat)
    requires cat.Valid()
    modifies cat
    ensures cat.Valid()
    ensures cat.log == old(cat.log) + Entries(MdRows(providers)) && n == |MdRows(providers)|
  {
    n := 0;
    for i := 0 to |providers|
      invariant cat.Valid()
      invariant cat.log == old(cat.log) + Entries(MdRows(providers[..i])) && n == |MdRows(providers[..i])|
    {
      assert providers[..i + 1][..i] == providers[..i];
      if providers[i].models.Some? {
        var added := LoadProvider(cat, providers[i].id, providers[i].models.value);
        LogGrows(old(cat.log), MdRows(providers[..i]), MdModelRows(providers[i].id, providers[i].models.value));
        n := n + added;
      }
    }
    assert providers[..|providers|] == providers;
  }

  /** The inner loop over one provider's models. */
  method LoadProvider(cat: ModelCatalog, provider: string, models: seq<MdModel>) returns (n: nat)
    requires cat.Valid()
    modifies cat
    ensures cat.Valid()
    ensures cat.log == old(cat.log) + Entries(MdModelRows(provider, models)) && n == |MdModelRows(provider, models)|
  {
    n := 0;
    for i := 0 to |models|
      invariant cat.Valid()
      invariant cat.log == old(cat.log) + Entries(MdModelRows(provider, models[..i]))
      invariant n == |MdModelRows(provider, models[..i])|
    {
      assert models[..i + 1][..i] == models[..i];
      if models[i].context.Some? && models[i].context.value >= MIN_CONTEXT {
        cat.Insert(provider, models[i].id, MdMeta(models[i]));
        LogGrows(old(cat.log), MdModelRows(provider, models[..i]), [Row(provider, models[i].id, MdMeta(models[i]))]);
        n := n + 1;
      }
    }
    assert models[..|models|] == models;
  }

  method LoadOpenRouter(cat: ModelCatalog, data: seq<OrModel>) returns (n: nat)
    requires cat.Valid()
    modifies cat
    ensures cat.Valid()
    ensures cat.log == old(cat.log) + Entries(OrRows(data)) && n == |OrRows(data)|
  {
    n := 0;
    for i := 0 to |data|
      invariant cat.Valid()
      invariant cat.log == old(cat.log) + Entries(OrRows(data[..i])) && n == |OrRows(data[..i])|
    {
      assert data[..i + 1][..i] == data[..i];
      if data[i].id.Some? {
        var context := OrContext(data[i]);
        if context.Some? && context.value >= MIN_CONTEXT {
          var row := OrRow(data[i]);
          cat.Insert(row.provider, row.model, row.meta);
          LogGrows(old(cat.log), OrRows(data[..i]), [row]);
          assert Row(row.provider, row.model, row.meta) == row;
          n := n + 1;
        }
      }
    }
    assert data[..|data|] == data;
  }

  /** Running the two loaders in either order gives the same answer, up to output and cost, to every lookup. */
  lemma {:induction false} LoadersCommute(
    exact1: map<(string, string), Meta>, loose1: map<string, Meta>,
    exact2: map<(string, string), Meta>, loose2: map<string, Meta>,
    providers: seq<MdProvider>, data: seq<OrModel>,
    providerType: string, vendor: Option<string>, model: string)
    requires Summarises(exact1, loose1, Entries(MdRows(providers)) + Entries(OrRows(data)))
    requires Summarises(exact2, loose2, Entries(OrRows(data)) + Entries(MdRows(providers)))
    ensures SameAnswer(LookupIn(exact1, loose1, providerType, vendor, model),
                       LookupIn(exact2, loose2, providerType, vendor, model))
  {
    var md, or := Entries(MdRows(providers)), Entries(OrRows(data));
    assert SameEntries(md + or, or + md);
    LookupOrderIrrelevant(exact1, loose1, md + or, exact2, loose2, or + md, providerType, vendor, model);
  }

  /** After both loaders, in either order, a slot that models.dev feeds carries models.dev's numbers: its source is
      models.dev and its window the largest models.dev reports for it, whatever OpenRouter says. */
  lemma {:induction false} ModelsDevWins(m: Meta, log: seq<Entry>, slot: Slot, providers: seq<MdProvider>,
                                         data: seq<OrModel>, i: nat)
    requires IsSlot(m, log, slot)
    requires SameEntries(log, Entries(MdRows(providers)) + Entries(OrRows(data)))
    requires i < |Entries(MdRows(providers))| && Feeds(Entries(MdRows(providers))[i], slot)
    ensures m.source == ModelsDev
    ensures m.context >= Entries(MdRows(providers))[i].meta.context
    ensures exists e :: e in Entries(MdRows(providers)) && Feeds(e, slot) && m.context == e.meta.context
                        && m.output == e.meta.output && m.cost == e.meta.cost
  {
    var md, or := Entries(MdRows(providers)), Entries(OrRows(data));
    var w :| Winner(log, slot, w) && m.(caps := log[w].meta.caps) == log[w].meta;
    MdSource(providers);
    OrSource(data);
    EntriesMetas(MdRows(providers), ModelsDev);
    EntriesMetas(OrRows(data), OpenRouter);
    assert md[i] in md + or;
    assert md[i] in log;
    var j :| 0 <= j < |log| && log[j] == md[i];
    assert log[w] in md + or;
  }

  lemma {:induction false} EntriesMetas(rows: seq<Row>, s: Source)
    requires forall r :: r in rows ==> r.meta.source == s
    ensures forall e :: e in Entries(rows) ==> e.meta.source == s
  {
    if rows != [] {
      EntriesMetas(rows[1..], s);
    }
  }

  lemma {:induction false} MdModelSource(provider: string, models: seq<MdModel>)
    ensures forall r :: r in MdModelRows(provider, models) ==> r.meta.source == ModelsDev
  {
    if models != [] {
      MdModelSource(provider, models[..|models| - 1]);
    }
  }

  lemma {:induction false} MdSource(providers: seq<MdProvider>)
    ensures forall r :: r in MdRows(providers) ==> r.meta.source == ModelsDev
  {
    if providers != [] {
      var p := providers[|providers| - 1];
      MdSource(providers[..|providers| - 1]);
      if p.models.Some? {
        MdModelSource(p.id, p.models.value);
      }
    }
  }

  lemma {:induction false} OrSource(data: seq<OrModel>)
    ensures forall r :: r in OrRows(data) ==> r.meta.source == OpenRouter
  {
    if data != [] {
      OrSource(data[..|data| - 1]);
    }
  }
}
