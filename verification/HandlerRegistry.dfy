/** The file-handler registry: builtins shadowed by workspace files, a full scan, and hot reload.
    A workspace folder maps paths below it to what loading the file would yield. */
module HandlerRegistry {
  import opened Common
  import opened Names

  datatype Tier = Builtin | Workspace

  /** The validated descriptor; `rest` stands for the fields that loading does not look at. */
  datatype Descriptor = Descriptor(id: string, order: int, rest: string)

  /** What loading a file meets: no usable descriptor, or a descriptor and an import that succeeds or fails. */
  datatype Source = NoDescriptor | Parsed(desc: Descriptor, run: Option<string>)

  datatype Handler = Handler(desc: Descriptor, run: string, tier: Tier)

  type Folder = map<string, Source>

  /** The three maps of the registry. */
  datatype Registry =
    Registry(handlers: map<string, Handler>, builtins: map<string, Handler>, pathToId: map<string, string>)

  // ---------------------------------------------------------------- the operations, on values

  /** The names that a scan loads: of Python files directly in the folder, without a leading underscore. */
  predicate Accepts(name: string) {
    |name| >= 3 && name[|name| - 3..] == ".py" && name[0] != '_' && '/' !in name
  }

  predicate ServedByWorkspace(r: Registry, id: string) {
    id in r.handlers && r.handlers[id].tier == Workspace
  }

  function LoadOne(r: Registry, path: string, src: Source, tier: Tier): Registry {
    if src.NoDescriptor? || src.run.None? then r
    else if tier == Workspace && ServedByWorkspace(r, src.desc.id) then r
    else
      Registry(r.handlers[src.desc.id := Handler(src.desc, src.run.value, tier)], r.builtins,
               if tier == Workspace then r.pathToId[path := src.desc.id] else r.pathToId)
  }

  /** Drops the registration of `path`; a shadowed builtin resurfaces. */
  function Evict(r: Registry, path: string): Registry {
    if path !in r.pathToId then r
    else
      var id := r.pathToId[path];
      Registry(
        if !ServedByWorkspace(r, id) then r.handlers
        else if id in r.builtins then r.handlers[id := r.builtins[id]]
        else r.handlers - {id},
        r.builtins, r.pathToId - {path})
  }

  /** `file` is the content found at `path`, or `None` when there is no file. */
  function Reload(r: Registry, path: string, file: Option<Source>): Registry {
    if file.None? then r else LoadOne(Evict(r, path), path, file.value, Workspace)
  }

  function Remove(r: Registry, path: string): Registry {
    Evict(r, path)
  }

  /** Loads the accepted names of a directory listing, in order. */
  function Scan(r: Registry, listing: seq<string>, dir: Folder, tier: Tier): Registry
    requires forall n :: n in listing ==> n in dir
  {
    if listing == [] then r
    else
      var k := |listing| - 1;
      var r' := Scan(r, listing[..k], dir, tier);
      if Accepts(listing[k]) then LoadOne(r', listing[k], dir[listing[k]], tier) else r'
  }

  /** `listing` is the sorted listing of `dir`. */
  ghost predicate Lists(listing: seq<string>, dir: Folder) {
    Sorted(listing) && forall n :: n in listing <==> n in dir
  }

  function LoadAll(builtinListing: seq<string>, builtinDir: Folder, listing: seq<string>, dir: Folder): Registry
    requires forall n :: n in builtinListing ==> n in builtinDir
    requires forall n :: n in listing ==> n in dir
  {
    var seeded := Scan(Registry(map[], map[], map[]), builtinListing, builtinDir, Builtin);
    Scan(seeded.(builtins := seeded.handlers), listing, dir, Workspace)
  }

  // ---------------------------------------------------------------- the invariant of every reachable state

  ghost predicate Valid(r: Registry) {
    && (forall id :: id in r.handlers ==> r.handlers[id].desc.id == id)
    && (forall id :: id in r.builtins ==>
                       id in r.handlers && r.builtins[id].tier == Builtin && r.builtins[id].desc.id == id)
    && (forall id :: id in r.handlers && r.handlers[id].tier == Builtin ==>
                       id in r.builtins && r.handlers[id] == r.builtins[id])
    && (forall n, m :: n in r.pathToId && m in r.pathToId && r.pathToId[n] == r.pathToId[m] ==> n == m)
    && (forall n :: n in r.pathToId ==> ServedByWorkspace(r, r.pathToId[n]))
    && (forall id :: ServedByWorkspace(r, id) ==> exists n :: n in r.pathToId && r.pathToId[n] == id)
  }

  lemma {:induction false} EvictKeepsValid(r: Registry, path: string)
    requires Valid(r)
    ensures Valid(Evict(r, path)) && Evict(r, path).builtins == r.builtins && path !in Evict(r, path).pathToId
  {
    EvictKeepsPaths(r, path);
  }

  lemma {:induction false} EvictKeepsPaths(r: Registry, path: string)
    requires Valid(r)
    ensures var r' := Evict(r, path);
            forall id :: ServedByWorkspace(r', id) ==> exists n :: n in r'.pathToId && r'.pathToId[n] == id
  {
    var r' := Evict(r, path);
    if path in r.pathToId {
      var gone := r.pathToId[path];
      forall id | ServedByWorkspace(r', id) ensures exists n :: n in r'.pathToId && r'.pathToId[n] == id {
        assert id != gone && ServedByWorkspace(r, id);
        var n :| n in r.pathToId && r.pathToId[n] == id;
        assert n in r'.pathToId;
      }
    }
  }

  lemma {:induction false} LoadKeepsValid(r: Registry, path: string, src: Source)
    requires Valid(r) && path !in r.pathToId
    ensures Valid(LoadOne(r, path, src, Workspace)) && LoadOne(r, path, src, Workspace).builtins == r.builtins
  {
    LoadKeepsPaths(r, path, src);
    var r' := LoadOne(r, path, src, Workspace);
    if r' != r {
      assert !ServedByWorkspace(r, src.desc.id) && r'.pathToId == r.pathToId[path := src.desc.id];
      forall n | n in r'.pathToId ensures ServedByWorkspace(r', r'.pathToId[n]) {
        assert n != path ==> ServedByWorkspace(r, r.pathToId[n]);
      }
    }
  }

  lemma {:induction false} LoadKeepsPaths(r: Registry, path: string, src: Source)
    requires Valid(r) && path !in r.pathToId
    ensures var r' := LoadOne(r, path, src, Workspace);
            forall id :: ServedByWorkspace(r', id) ==> exists n :: n in r'.pathToId && r'.pathToId[n] == id
  {
    var r' := LoadOne(r, path, src, Workspace);
    if r' != r {
      assert r'.pathToId[path] == src.desc.id;
      forall id | ServedByWorkspace(r', id) ensures exists n :: n in r'.pathToId && r'.pathToId[n] == id {
        if id != src.desc.id {
          assert ServedByWorkspace(r, id);
          var n :| n in r.pathToId && r.pathToId[n] == id;
          assert n in r'.pathToId;
        }
      }
    }
  }

  lemma {:induction false} ReloadKeepsValid(r: Registry, path: string, file: Option<Source>)
    requires Valid(r)
    ensures Valid(Reload(r, path, file)) && Valid(Remove(r, path))
  {
    EvictKeepsValid(r, path);
    if file.Some? {
      LoadKeepsValid(Evict(r, path), path, file.value);
    }
  }

  // ---------------------------------------------------------------- what a full scan amounts to

  predicate Loadable(src: Source) {
    src.Parsed? && src.run.Some?
  }

  /** File `n` of `dir` would register under `id` if nothing stood in its way. */
  predicate Declares(dir: Folder, n: string, id: string) {
    n in dir && Accepts(n) && Loadable(dir[n]) && dir[n].desc.id == id
  }

  /** `n` is the first file, in listing order, to declare its id. */
  ghost predicate Wins(dir: Folder, n: string) {
    && n in dir
    && Loadable(dir[n])
    && Declares(dir, n, dir[n].desc.id)
    && forall m :: Declares(dir, m, dir[n].desc.id) ==> m == n || Before(n, m)
  }

  function Made(src: Source, tier: Tier): Handler
    requires Loadable(src)
  {
    Handler(src.desc, src.run.value, tier)
  }

  /** The registry serves from the workspace exactly the winners of `dir`, with their current content. */
  ghost predicate Agrees(r: Registry, dir: Folder) {
    && (forall n :: n in r.pathToId <==> Wins(dir, n))
    && (forall n :: n in r.pathToId ==> Current(r, dir, n))
  }

  /** Winner `n` is registered under its id and served with the content found in `dir`. */
  ghost predicate Current(r: Registry, dir: Folder, n: string)
    requires n in r.pathToId
  {
    && n in dir
    && Loadable(dir[n])
    && r.pathToId[n] == dir[n].desc.id
    && dir[n].desc.id in r.handlers
    && r.handlers[dir[n].desc.id] == Made(dir[n], Workspace)
  }

  lemma {:induction false} WinnerExists(dir: Folder, n: string, id: string) returns (w: string)
    requires Declares(dir, n, id)
    ensures Wins(dir, w) && dir[w].desc.id == id
  {
    var names := set m | m in dir && Declares(dir, m, id);
    assert n in names;
    w := Least(names);
  }

  lemma {:induction false} WinnerUnique(dir: Folder, n: string, m: string)
    requires Wins(dir, n) && Wins(dir, m) && dir[n].desc.id == dir[m].desc.id
    ensures n == m
  {
    if n != m {
      BeforeAsymmetric(n, m);
    }
  }

  /** A valid registry that agrees with a folder is determined by it and by the builtins. */
  lemma {:induction false} AgreementDetermines(r1: Registry, r2: Registry, dir: Folder)
    requires Valid(r1) && Valid(r2) && r1.builtins == r2.builtins
    requires Agrees(r1, dir) && Agrees(r2, dir)
    ensures r1 == r2
  {
    assert r1.pathToId == r2.pathToId;
    forall id
      ensures id in r1.handlers <==> id in r2.handlers
      ensures id in r1.handlers ==> r1.handlers[id] == r2.handlers[id]
    {
      assert ServedByWorkspace(r1, id) <==> ServedByWorkspace(r2, id);
    }
  }

  // ---------------------------------------------------------------- when a hot reload equals a rescan

  ghost predicate OthersDeclare(dir: Folder, p: string, id: string) {
    exists n :: n != p && Declares(dir, n, id)
  }

  /** The content `src` is about to replace whatever `p` holds in `dir`. The id that `p` serves must not be left to
      another file, and the id it will declare must not be wrested from a file listed later. */
  ghost predicate ReloadSafe(dir: Folder, p: string, src: Source) {
    var keeps := Wins(dir, p) && Loadable(src) && src.desc.id == dir[p].desc.id;
    keeps ||
    (&& (Wins(dir, p) ==> !OthersDeclare(dir, p, dir[p].desc.id))
     && (Loadable(src) && OthersDeclare(dir, p, src.desc.id) ==>
           exists n :: n != p && Declares(dir, n, src.desc.id) && Before(n, p)))
  }

  ghost predicate RemoveSafe(dir: Folder, p: string) {
    Wins(dir, p) ==> !OthersDeclare(dir, p, dir[p].desc.id)
  }

  lemma {:induction false} SafeKeepsWinners(dir: Folder, p: string, src: Source, n: string)
    requires ReloadSafe(dir, p, src) && n != p
    ensures Wins(dir, n) <==> Wins(dir[p := src], n)
  {
    var dir' := dir[p := src];
    if Wins(dir, n) {
      var id := dir[n].desc.id;
      if Declares(dir', p, id) && !Before(n, p) {
        if Wins(dir, p) && dir[p].desc.id == id {
          WinnerUnique(dir, n, p);
        } else {
          assert OthersDeclare(dir, p, id);
          var m :| m != p && Declares(dir, m, id) && Before(m, p);
          if m != n {
            BeforeTransitive(n, m, p);
          }
        }
      }
    }
    if Wins(dir', n) {
      var id := dir[n].desc.id;
      assert Declares(dir, n, id);
      var w := WinnerExists(dir, n, id);
      if w == p {
        assert OthersDeclare(dir, p, id);
        assert Declares(dir', p, id);
        BeforeAsymmetric(p, n);
      } else if w != n {
        assert Declares(dir', w, id);
        BeforeAsymmetric(w, n);
      }
    }
  }

  lemma {:induction false} EvictedRegistered(r: Registry, p: string, id: string)
    requires Valid(r)
    ensures ServedByWorkspace(Evict(r, p), id) <==> exists n :: n != p && n in r.pathToId && r.pathToId[n] == id
  {
    var e := Evict(r, p);
    if ServedByWorkspace(e, id) {
      assert ServedByWorkspace(r, id) && (p in r.pathToId ==> r.pathToId[p] != id);
    }
    if n :| n != p && n in r.pathToId && r.pathToId[n] == id {
      assert ServedByWorkspace(r, id) && (p in r.pathToId ==> r.pathToId[p] != id);
    }
  }

  /** Evicting `p` leaves every other registration served as it was. */
  lemma {:induction false} EvictedKeeps(r: Registry, p: string, n: string)
    requires Valid(r) && n != p && n in r.pathToId
    ensures var id := r.pathToId[n]; id in Evict(r, p).handlers && Evict(r, p).handlers[id] == r.handlers[id]
    ensures ServedByWorkspace(Evict(r, p), r.pathToId[n])
  {
    assert p in r.pathToId ==> r.pathToId[p] != r.pathToId[n];
  }

  lemma {:induction false} EvictedServes(r: Registry, dir: Folder, p: string, id: string)
    requires Valid(r) && Agrees(r, dir)
    ensures ServedByWorkspace(Evict(r, p), id) <==> exists n :: n != p && Wins(dir, n) && dir[n].desc.id == id
  {
    EvictedRegistered(r, p, id);
  }

  /** A safe reload registers `p` exactly when `p` wins in the changed folder. */
  lemma {:induction false} SafeReloadRegisters(r: Registry, dir: Folder, p: string, src: Source)
    requires Valid(r) && Agrees(r, dir) && Accepts(p) && Loadable(src)
    requires ReloadSafe(dir, p, src)
    ensures !ServedByWorkspace(Evict(r, p), src.desc.id) <==> Wins(dir[p := src], p)
  {
    var dir', id := dir[p := src], src.desc.id;
    EvictedServes(r, dir, p, id);
    if n :| n != p && Wins(dir, n) && dir[n].desc.id == id {
      if Wins(dir, p) && dir[p].desc.id == id {
        WinnerUnique(dir, n, p);
      }
      assert OthersDeclare(dir, p, id);
      var m :| m != p && Declares(dir, m, id) && Before(m, p);
      assert Declares(dir', m, id);
      BeforeAsymmetric(m, p);
    } else {
      forall m | m != p && Declares(dir', m, id) ensures Before(p, m) {
        assert Declares(dir, m, id);
        var w := WinnerExists(dir, m, id);
        assert w == p;
      }
    }
  }

  lemma {:induction false} ReloadKeepsElsewhere(r: Registry, dir: Folder, p: string, src: Source, n: string)
    requires Valid(r) && n != p && n in r.pathToId && Current(r, dir, n)
    ensures n in Reload(r, p, Some(src)).pathToId && Current(Reload(r, p, Some(src)), dir[p := src], n)
  {
    EvictedKeeps(r, p, n);
  }

  lemma {:induction false} SafeReloadAgrees(r: Registry, dir: Folder, p: string, src: Source)
    requires Valid(r) && Agrees(r, dir) && Accepts(p)
    requires ReloadSafe(dir, p, src)
    ensures Agrees(Reload(r, p, Some(src)), dir[p := src])
  {
    var r', dir' := Reload(r, p, Some(src)), dir[p := src];
    forall n
      ensures n in r'.pathToId <==> Wins(dir', n)
      ensures n in r'.pathToId ==> Current(r', dir', n)
    {
      if n == p {
        SafeReloadHere(r, dir, p, src);
      } else {
        SafeReloadElsewhere(r, dir, p, src, n);
      }
    }
  }

  lemma {:induction false} SafeReloadHere(r: Registry, dir: Folder, p: string, src: Source)
    requires Valid(r) && Agrees(r, dir) && Accepts(p) && ReloadSafe(dir, p, src)
    ensures var r', dir' := Reload(r, p, Some(src)), dir[p := src];
            (p in r'.pathToId <==> Wins(dir', p)) && (p in r'.pathToId ==> Current(r', dir', p))
  {
    EvictKeepsValid(r, p);
    if Loadable(src) {
      SafeReloadRegisters(r, dir, p, src);
    }
  }

  lemma {:induction false} SafeReloadElsewhere(r: Registry, dir: Folder, p: string, src: Source, n: string)
    requires Valid(r) && Agrees(r, dir) && ReloadSafe(dir, p, src) && n != p
    ensures var r', dir' := Reload(r, p, Some(src)), dir[p := src];
            (n in r'.pathToId <==> Wins(dir', n)) && (n in r'.pathToId ==> Current(r', dir', n))
  {
    SafeKeepsWinners(dir, p, src, n);
    assert n in r.pathToId ==> Current(r, dir, n);
    if n in r.pathToId {
      ReloadKeepsElsewhere(r, dir, p, src, n);
    }
  }

  lemma {:induction false} UnsafeReloadDisagrees(r: Registry, dir: Folder, p: string, src: Source)
    requires Valid(r) && Agrees(r, dir) && Accepts(p)
    requires !ReloadSafe(dir, p, src)
    ensures !Agrees(Reload(r, p, Some(src)), dir[p := src])
  {
    if Wins(dir, p) && OthersDeclare(dir, p, dir[p].desc.id) {
      EvictedIdLost(r, dir, p, src);
    } else {
      LaterFileWins(r, dir, p, src);
    }
  }

  /** The evicted id has another file, which the reload does not look for. */
  lemma {:induction false} EvictedIdLost(r: Registry, dir: Folder, p: string, src: Source)
    requires Valid(r) && Agrees(r, dir) && Accepts(p)
    requires !ReloadSafe(dir, p, src) && Wins(dir, p) && OthersDeclare(dir, p, dir[p].desc.id)
    ensures !Agrees(Reload(r, p, Some(src)), dir[p := src])
  {
    var r', dir' := Reload(r, p, Some(src)), dir[p := src];
    var id := dir[p].desc.id;
    var n :| n != p && Declares(dir, n, id);
    assert Declares(dir', n, id);
    var w := WinnerExists(dir', n, id);
    if w in r'.pathToId {
      assert Wins(dir, w);
      WinnerUnique(dir, w, p);
    }
  }

  /** The reloaded file should win its id, but the id is taken. */
  lemma {:induction false} LaterFileWins(r: Registry, dir: Folder, p: string, src: Source)
    requires Valid(r) && Agrees(r, dir) && Accepts(p)
    requires !ReloadSafe(dir, p, src) && !(Wins(dir, p) && OthersDeclare(dir, p, dir[p].desc.id))
    ensures !Agrees(Reload(r, p, Some(src)), dir[p := src])
  {
    var e, dir' := Evict(r, p), dir[p := src];
    var id := src.desc.id;
    var n :| n != p && Declares(dir, n, id);
    var w := WinnerExists(dir, n, id);
    EvictedServes(r, dir, p, id);
    forall m | m != p && Declares(dir', m, id) ensures Before(p, m) {
      assert Declares(dir, m, id);
      BeforeTotal(m, p);
    }
    assert Wins(dir', p);
    assert p !in e.pathToId;
  }

  lemma {:induction false} RemoveAgreesIff(r: Registry, dir: Folder, p: string)
    requires Valid(r) && Agrees(r, dir)
    ensures Agrees(Remove(r, p), dir - {p}) <==> RemoveSafe(dir, p)
  {
    if RemoveSafe(dir, p) {
      forall n
        ensures n in Remove(r, p).pathToId <==> Wins(dir - {p}, n)
        ensures n in Remove(r, p).pathToId ==> Current(Remove(r, p), dir - {p}, n)
      {
        SafeRemovalAt(r, dir, p, n);
      }
    } else {
      UnsafeRemovalDisagrees(r, dir, p);
    }
  }

  lemma {:induction false} SafeRemovalAt(r: Registry, dir: Folder, p: string, n: string)
    requires Valid(r) && Agrees(r, dir) && RemoveSafe(dir, p)
    ensures var r', dir' := Remove(r, p), dir - {p};
            (n in r'.pathToId <==> Wins(dir', n)) && (n in r'.pathToId ==> Current(r', dir', n))
  {
    RemovalKeepsWinners(dir, p, n);
    assert n in r.pathToId ==> Current(r, dir, n);
    if n != p && n in r.pathToId {
      EvictedKeeps(r, p, n);
    }
  }

  lemma {:induction false} UnsafeRemovalDisagrees(r: Registry, dir: Folder, p: string)
    requires Valid(r) && Agrees(r, dir) && !RemoveSafe(dir, p)
    ensures !Agrees(Remove(r, p), dir - {p})
  {
    var r', dir' := Remove(r, p), dir - {p};
    var id := dir[p].desc.id;
    var n :| n != p && Declares(dir, n, id);
    assert Declares(dir', n, id);
    var w := WinnerExists(dir', n, id);
    if w in r'.pathToId {
      WinnerUnique(dir, w, p);
    }
  }

  lemma {:induction false} RemovalKeepsWinners(dir: Folder, p: string, n: string)
    requires RemoveSafe(dir, p)
    ensures Wins(dir - {p}, n) <==> n != p && Wins(dir, n)
  {
    var dir' := dir - {p};
    if n != p && Wins(dir', n) {
      var id := dir[n].desc.id;
      assert Declares(dir, n, id);
      var w := WinnerExists(dir, n, id);
      assert w != p;
      if w != n {
        assert Declares(dir', w, id);
        BeforeAsymmetric(w, n);
      }
    }
  }

  // ---------------------------------------------------------------- what the full scan computes

  /** `dir` cut down to the names in `names`. */
  function Restrict(dir: Folder, names: seq<string>): Folder
    requires forall n :: n in names ==> n in dir
  {
    map n | n in names :: dir[n]
  }

  lemma {:induction false} ScanAgrees(r: Registry, listing: seq<string>, dir: Folder)
    requires forall n :: n in listing ==> n in dir
    requires Sorted(listing) && Valid(r) && r.pathToId == map[]
    ensures var r' := Scan(r, listing, dir, Workspace);
            Valid(r') && r'.builtins == r.builtins && Agrees(r', Restrict(dir, listing))
  {
    if listing == [] {
      assert Restrict(dir, listing) == map[];
      return;
    }
    var k := |listing| - 1;
    ScanAgrees(r, listing[..k], dir);
    RestrictNext(dir, listing);
    ScanStep(Scan(r, listing[..k], dir, Workspace), Restrict(dir, listing[..k]), listing[k], dir[listing[k]]);
  }

  lemma {:induction false} RestrictNext(dir: Folder, listing: seq<string>)
    requires listing != [] && Sorted(listing) && forall n :: n in listing ==> n in dir
    ensures var k := |listing| - 1;
            && Restrict(dir, listing) == Restrict(dir, listing[..k])[listing[k] := dir[listing[k]]]
            && (forall n :: n in Restrict(dir, listing[..k]) ==> Before(n, listing[k]))
  {
    var k := |listing| - 1;
    assert listing == listing[..k] + [listing[k]];
  }

  /** Scanning one more workspace file, listed after all of `before`. */
  lemma {:induction false} ScanStep(r: Registry, before: Folder, p: string, src: Source)
    requires Valid(r) && Agrees(r, before) && forall n :: n in before ==> Before(n, p)
    ensures var r' := if Accepts(p) then LoadOne(r, p, src, Workspace) else r;
            Valid(r') && r'.builtins == r.builtins && Agrees(r', before[p := src])
  {
    assert p !in before by { if p in before { BeforeIrreflexive(p); } }
    assert p !in r.pathToId by { assert !Wins(before, p); }
    if Accepts(p) {
      assert ReloadSafe(before, p, src);
      SafeReloadAgrees(r, before, p, src);
      LoadKeepsValid(r, p, src);
    } else {
      SkippedAgrees(r, before, p, src);
    }
  }

  lemma {:induction false} SkippedAgrees(r: Registry, before: Folder, p: string, src: Source)
    requires Agrees(r, before) && !Accepts(p) && p !in r.pathToId
    ensures Agrees(r, before[p := src])
  {
    forall n ensures Wins(before, n) <==> Wins(before[p := src], n) {
      assert forall m, id :: Declares(before, m, id) <==> Declares(before[p := src], m, id);
    }
    forall n | n in r.pathToId ensures Current(r, before[p := src], n) {
      assert Current(r, before, n);
    }
  }

  /** Among builtins, which are not checked for clashes, the last file to declare an id serves it. */
  ghost predicate LastDeclares(dir: Folder, n: string, id: string) {
    Declares(dir, n, id) && forall m :: Declares(dir, m, id) ==> m == n || Before(m, n)
  }

  ghost predicate ServesBuiltins(handlers: map<string, Handler>, dir: Folder) {
    && (forall id :: id in handlers ==> exists n :: LastDeclares(dir, n, id))
    && (forall n, id :: LastDeclares(dir, n, id) ==> id in handlers && handlers[id] == Made(dir[n], Builtin))
  }

  lemma {:induction false} BuiltinScan(listing: seq<string>, dir: Folder)
    requires forall n :: n in listing ==> n in dir
    requires Sorted(listing)
    ensures var r := Scan(Registry(map[], map[], map[]), listing, dir, Builtin);
            r.pathToId == map[] && r.builtins == map[] && ServesBuiltins(r.handlers, Restrict(dir, listing))
  {
    if listing != [] {
      var k := |listing| - 1;
      var before := Restrict(dir, listing[..k]);
      BuiltinScan(listing[..k], dir);
      assert Restrict(dir, listing) == before[listing[k] := dir[listing[k]]];
      var r := Scan(Registry(map[], map[], map[]), listing[..k], dir, Builtin);
      BuiltinStep(r, before, listing[k], dir[listing[k]]);
    }
  }

  /** Loading one more builtin, listed after all of `before`. */
  lemma {:induction false} BuiltinStep(r: Registry, before: Folder, p: string, src: Source)
    requires ServesBuiltins(r.handlers, before) && forall n :: n in before ==> Before(n, p)
    ensures ServesBuiltins((if Accepts(p) then LoadOne(r, p, src, Builtin) else r).handlers, before[p := src])
  {
    assert p !in before by { if p in before { BeforeIrreflexive(p); } }
    if Accepts(p) && Loadable(src) {
      OverwriteBuiltin(r.handlers, before, p, src);
    } else {
      IgnoreBuiltin(r.handlers, before, p, src);
    }
  }

  lemma {:induction false} IgnoreBuiltin(handlers: map<string, Handler>, before: Folder, p: string, src: Source)
    requires ServesBuiltins(handlers, before) && p !in before && forall n :: n in before ==> Before(n, p)
    requires !(Accepts(p) && Loadable(src))
    ensures ServesBuiltins(handlers, before[p := src])
  {
    var after := before[p := src];
    forall id | id in handlers ensures exists n :: LastDeclares(after, n, id) {
      var n :| LastDeclares(before, n, id);
      LastAfterStep(before, p, src, n, id);
    }
    forall n, id | LastDeclares(after, n, id) ensures id in handlers && handlers[id] == Made(after[n], Builtin) {
      LastAfterStep(before, p, src, n, id);
    }
  }

  lemma {:induction false} OverwriteBuiltin(handlers: map<string, Handler>, before: Folder, p: string, src: Source)
    requires ServesBuiltins(handlers, before) && p !in before && forall n :: n in before ==> Before(n, p)
    requires Accepts(p) && Loadable(src)
    ensures ServesBuiltins(handlers[src.desc.id := Made(src, Builtin)], before[p := src])
  {
    var after, h := before[p := src], handlers[src.desc.id := Made(src, Builtin)];
    forall id | id in h ensures exists n :: LastDeclares(after, n, id) {
      LastAfterStep(before, p, src, p, id);
      if id != src.desc.id {
        var n :| LastDeclares(before, n, id);
        LastAfterStep(before, p, src, n, id);
      }
    }
    forall n, id | LastDeclares(after, n, id) ensures id in h && h[id] == Made(after[n], Builtin) {
      LastAfterStep(before, p, src, n, id);
    }
  }

  lemma {:induction false} LastAfterStep(before: Folder, p: string, src: Source, n: string, id: string)
    requires p !in before && forall n :: n in before ==> Before(n, p)
    ensures var after := before[p := src];
            LastDeclares(after, n, id) <==> if Declares(after, p, id) then n == p else LastDeclares(before, n, id)
  {
    var after := before[p := src];
    assert forall m :: m != p ==> (Declares(after, m, id) <==> Declares(before, m, id));
    if Declares(after, p, id) && n != p && LastDeclares(after, n, id) {
      BeforeAsymmetric(n, p);
    }
  }

  /** A full scan serves builtins last-declared-wins and workspace files first-declared-wins, and is valid. */
  lemma {:induction false} LoadAllMeans(builtinListing: seq<string>, builtinDir: Folder, listing: seq<string>,
                                        dir: Folder)
    requires Lists(builtinListing, builtinDir) && Lists(listing, dir)
    ensures var r := LoadAll(builtinListing, builtinDir, listing, dir);
            Valid(r) && ServesBuiltins(r.builtins, builtinDir) && Agrees(r, dir)
  {
    var seeded := Scan(Registry(map[], map[], map[]), builtinListing, builtinDir, Builtin);
    BuiltinScan(builtinListing, builtinDir);
    RestrictAll(builtinDir, builtinListing);
    SeededValid(seeded, builtinDir);
    ScanAgrees(seeded.(builtins := seeded.handlers), listing, dir);
    RestrictAll(dir, listing);
    ScanKeepsBuiltins(seeded.(builtins := seeded.handlers), listing, dir, Workspace);
  }

  lemma {:induction false} RestrictAll(dir: Folder, listing: seq<string>)
    requires forall n :: n in listing <==> n in dir
    ensures Restrict(dir, listing) == dir
  {
  }

  lemma {:induction false} SeededValid(seeded: Registry, builtinDir: Folder)
    requires ServesBuiltins(seeded.handlers, builtinDir) && seeded.pathToId == map[]
    ensures Valid(seeded.(builtins := seeded.handlers))
  {
  }

  // ---------------------------------------------------------------- main results

  /** After a full scan of `dir`, one reload event leaves exactly what a full scan of the changed folder would
      leave if and only if the change is safe; and so for a removal event. */
  lemma {:induction false} ReloadEqualsRescanIff(builtinListing: seq<string>, builtinDir: Folder, listing: seq<string>,
                                                 dir: Folder,
                                                 p: string, src: Source, listing': seq<string>)
    requires Lists(builtinListing, builtinDir) && Lists(listing, dir) && Lists(listing', dir[p := src]) && Accepts(p)
    ensures Reload(LoadAll(builtinListing, builtinDir, listing, dir), p, Some(src))
         == LoadAll(builtinListing, builtinDir, listing', dir[p := src])
       <==> ReloadSafe(dir, p, src)
  {
    var r, r' := LoadAll(builtinListing, builtinDir, listing, dir),
                 LoadAll(builtinListing, builtinDir, listing', dir[p := src]);
    LoadAllMeans(builtinListing, builtinDir, listing, dir);
    LoadAllMeans(builtinListing, builtinDir, listing', dir[p := src]);
    SameBuiltins(builtinListing, builtinDir, listing, dir, listing', dir[p := src]);
    ReloadKeepsValid(r, p, Some(src));
    ReloadKeepsBuiltins(r, p, Some(src));
    if ReloadSafe(dir, p, src) {
      SafeReloadAgrees(r, dir, p, src);
      AgreementDetermines(Reload(r, p, Some(src)), r', dir[p := src]);
    } else {
      UnsafeReloadDisagrees(r, dir, p, src);
    }
  }

  lemma {:induction false} RemoveEqualsRescanIff(builtinListing: seq<string>, builtinDir: Folder, listing: seq<string>,
                                                 dir: Folder,
                                                 p: string, listing': seq<string>)
    requires Lists(builtinListing, builtinDir) && Lists(listing, dir) && Lists(listing', dir - {p})
    ensures Remove(LoadAll(builtinListing, builtinDir, listing, dir), p)
         == LoadAll(builtinListing, builtinDir, listing', dir - {p})
       <==> RemoveSafe(dir, p)
  {
    var r, r' := LoadAll(builtinListing, builtinDir, listing, dir),
                 LoadAll(builtinListing, builtinDir, listing', dir - {p});
    LoadAllMeans(builtinListing, builtinDir, listing, dir);
    LoadAllMeans(builtinListing, builtinDir, listing', dir - {p});
    SameBuiltins(builtinListing, builtinDir, listing, dir, listing', dir - {p});
    ReloadKeepsValid(r, p, None);
    RemoveAgreesIff(r, dir, p);
    if RemoveSafe(dir, p) {
      AgreementDetermines(Remove(r, p), r', dir - {p});
    }
  }

  lemma {:induction false} ScanKeepsBuiltins(r: Registry, listing: seq<string>, dir: Folder, tier: Tier)
    requires forall n :: n in listing ==> n in dir
    ensures Scan(r, listing, dir, tier).builtins == r.builtins
  {
    if listing != [] {
      ScanKeepsBuiltins(r, listing[..|listing| - 1], dir, tier);
    }
  }

  lemma {:induction false} SameBuiltins(builtinListing: seq<string>, builtinDir: Folder, l1: seq<string>, d1: Folder,
                                        l2: seq<string>, d2: Folder)
    requires forall n :: n in builtinListing ==> n in builtinDir
    requires forall n :: n in l1 ==> n in d1
    requires forall n :: n in l2 ==> n in d2
    ensures LoadAll(builtinListing, builtinDir, l1, d1).builtins == LoadAll(builtinListing, builtinDir, l2, d2).builtins
  {
    var seeded := Scan(Registry(map[], map[], map[]), builtinListing, builtinDir, Builtin);
    ScanKeepsBuiltins(seeded.(builtins := seeded.handlers), l1, d1, Workspace);
    ScanKeepsBuiltins(seeded.(builtins := seeded.handlers), l2, d2, Workspace);
  }

  lemma {:induction false} ReloadKeepsBuiltins(r: Registry, p: string, file: Option<Source>)
    ensures Reload(r, p, file).builtins == r.builtins && Remove(r, p).builtins == r.builtins
  {
  }

  /** A change of one workspace file, followed by its event. */
  datatype Change = Write(path: string, src: Source) | Delete(path: string)

  function Changed(dir: Folder, c: Change): Folder {
    match c
    case Write(p, src) => dir[p := src]
    case Delete(p) => dir - {p}
  }

  function Handled(r: Registry, c: Change): Registry {
    match c
    case Write(p, src) => Reload(r, p, Some(src))
    case Delete(p) => Remove(r, p)
  }

  function ChangedBy(dir: Folder, cs: seq<Change>): Folder {
    if cs == [] then dir else Changed(ChangedBy(dir, cs[..|cs| - 1]), cs[|cs| - 1])
  }

  function HandledBy(r: Registry, cs: seq<Change>): Registry {
    if cs == [] then r else Handled(HandledBy(r, cs[..|cs| - 1]), cs[|cs| - 1])
  }

  /** The change does not let the registry drift from the folder, if it agreed with it before. A file that the scan
      skips must not register. */
  ghost predicate Safe(dir: Folder, c: Change) {
    match c
    case Write(p, src) =>
      if Accepts(p) then ReloadSafe(dir, p, src) else Loadable(src) ==> exists n :: Declares(dir, n, src.desc.id)
    case Delete(p) => RemoveSafe(dir, p)
  }

  lemma {:induction false} ServedIffDeclared(r: Registry, dir: Folder, id: string)
    requires Valid(r) && Agrees(r, dir)
    ensures ServedByWorkspace(r, id) <==> exists n :: Declares(dir, n, id)
  {
    if ServedByWorkspace(r, id) {
      var n :| n in r.pathToId && r.pathToId[n] == id;
      assert Wins(dir, n) && Current(r, dir, n);
      assert Declares(dir, n, id);
    }
    if n :| Declares(dir, n, id) {
      var w := WinnerExists(dir, n, id);
      assert w in r.pathToId && Current(r, dir, w);
    }
  }

  lemma {:induction false} ChangeAgreesIff(r: Registry, dir: Folder, c: Change)
    requires Valid(r) && Agrees(r, dir)
    ensures Valid(Handled(r, c)) && Handled(r, c).builtins == r.builtins
    ensures Agrees(Handled(r, c), Changed(dir, c)) <==> Safe(dir, c)
  {
    match c
    case Write(p, src) =>
      ReloadKeepsValid(r, p, Some(src));
      ReloadKeepsBuiltins(r, p, Some(src));
      if !Accepts(p) {
        SkippedNameReloadAgreesIff(r, dir, p, src);
        if Loadable(src) {
          ServedIffDeclared(r, dir, src.desc.id);
        }
      } else if ReloadSafe(dir, p, src) {
        SafeReloadAgrees(r, dir, p, src);
      } else {
        UnsafeReloadDisagrees(r, dir, p, src);
      }
    case Delete(p) =>
      ReloadKeepsValid(r, p, None);
      ReloadKeepsBuiltins(r, p, None);
      RemoveAgreesIff(r, dir, p);
  }

  /** After each of the first `n` changes the registry agrees with the folder. */
  ghost predicate Follows(r: Registry, dir: Folder, cs: seq<Change>, n: nat)
    requires n <= |cs|
  {
    forall k :: 0 <= k <= n ==> Agrees(HandledBy(r, cs[..k]), ChangedBy(dir, cs[..k]))
  }

  lemma {:induction false} HandledNext(r: Registry, dir: Folder, cs: seq<Change>, k: nat)
    requires k < |cs|
    ensures HandledBy(r, cs[..k + 1]) == Handled(HandledBy(r, cs[..k]), cs[k])
    ensures ChangedBy(dir, cs[..k + 1]) == Changed(ChangedBy(dir, cs[..k]), cs[k])
  {
    assert cs[..k + 1][..k] == cs[..k];
  }

  lemma {:induction false} FollowsIff(r: Registry, dir: Folder, cs: seq<Change>, n: nat)
    requires Valid(r) && Agrees(r, dir) && n <= |cs|
    ensures Follows(r, dir, cs, n) <==> AllSafe(dir, cs, n)
    ensures Follows(r, dir, cs, n) ==> Valid(HandledBy(r, cs[..n])) && HandledBy(r, cs[..n]).builtins == r.builtins
  {
    if n == 0 {
      FollowsAtFirst(r, dir, cs);
    } else {
      FollowsIff(r, dir, cs, n - 1);
      FollowsLess(r, dir, cs, n - 1);
      AllSafeNext(dir, cs, n - 1);
      if Follows(r, dir, cs, n - 1) {
        FollowsNextIff(r, dir, cs, n - 1);
      }
    }
  }

  lemma {:induction false} FollowsAtFirst(r: Registry, dir: Folder, cs: seq<Change>)
    requires Agrees(r, dir)
    ensures Follows(r, dir, cs, 0) && HandledBy(r, cs[..0]) == r && AllSafe(dir, cs, 0)
  {
    assert cs[..0] == [];
  }

  lemma {:induction false} FollowsLess(r: Registry, dir: Folder, cs: seq<Change>, m: nat)
    requires m < |cs|
    ensures Follows(r, dir, cs, m + 1) ==> Follows(r, dir, cs, m)
  {
  }

  lemma {:induction false} AllSafeNext(dir: Folder, cs: seq<Change>, m: nat)
    requires m < |cs|
    ensures AllSafe(dir, cs, m + 1) <==> AllSafe(dir, cs, m) && Safe(ChangedBy(dir, cs[..m]), cs[m])
  {
  }

  /** The first `n` changes are safe for the folders they are made in. */
  ghost predicate AllSafe(dir: Folder, cs: seq<Change>, n: nat)
    requires n <= |cs|
  {
    forall k :: 0 <= k < n ==> Safe(ChangedBy(dir, cs[..k]), cs[k])
  }

  lemma {:induction false} FollowsNextIff(r: Registry, dir: Folder, cs: seq<Change>, m: nat)
    requires m < |cs| && Follows(r, dir, cs, m) && Valid(HandledBy(r, cs[..m]))
             && HandledBy(r, cs[..m]).builtins == r.builtins
    ensures Follows(r, dir, cs, m + 1) <==> Safe(ChangedBy(dir, cs[..m]), cs[m])
    ensures Valid(HandledBy(r, cs[..m + 1])) && HandledBy(r, cs[..m + 1]).builtins == r.builtins
  {
    HandledNext(r, dir, cs, m);
    assert Agrees(HandledBy(r, cs[..m]), ChangedBy(dir, cs[..m]));
    ChangeAgreesIff(HandledBy(r, cs[..m]), ChangedBy(dir, cs[..m]), cs[m]);
    FollowsNext(r, dir, cs, m);
  }

  lemma {:induction false} FollowsNext(r: Registry, dir: Folder, cs: seq<Change>, m: nat)
    requires m < |cs| && Follows(r, dir, cs, m)
    ensures Follows(r, dir, cs, m + 1) <==> Agrees(HandledBy(r, cs[..m + 1]), ChangedBy(dir, cs[..m + 1]))
  {
  }

  /** `listings[k]` is the listing of the folder after `k` changes. */
  ghost predicate ListsAll(listings: seq<seq<string>>, dir: Folder, cs: seq<Change>) {
    |listings| == |cs| + 1 && forall k :: 0 <= k <= |cs| ==> Lists(listings[k], ChangedBy(dir, cs[..k]))
  }

  /** The registry that handled the first `k` changes is the one a full scan of the folder would build. */
  ghost predicate IsRescan(r: Registry, builtinListing: seq<string>, builtinDir: Folder, listings: seq<seq<string>>,
                           dir: Folder, cs: seq<Change>, k: nat)
    requires Lists(builtinListing, builtinDir) && ListsAll(listings, dir, cs) && k <= |cs|
  {
    HandledBy(r, cs[..k]) == LoadAll(builtinListing, builtinDir, listings[k], ChangedBy(dir, cs[..k]))
  }

  lemma {:induction false} IsRescanIff(r: Registry, builtinListing: seq<string>, builtinDir: Folder,
                                       listings: seq<seq<string>>,
                                       dir: Folder, cs: seq<Change>, k: nat)
    requires Lists(builtinListing, builtinDir) && ListsAll(listings, dir, cs) && k <= |cs|
    requires Lists(listings[0], dir) && r == LoadAll(builtinListing, builtinDir, listings[0], dir)
    ensures var now := HandledBy(r, cs[..k]);
            && (IsRescan(r, builtinListing, builtinDir, listings, dir, cs, k) ==> Agrees(now, ChangedBy(dir, cs[..k])))
            && (Valid(now) && now.builtins == r.builtins && Agrees(now, ChangedBy(dir, cs[..k])) ==>
                  IsRescan(r, builtinListing, builtinDir, listings, dir, cs, k))
  {
    var now, d := HandledBy(r, cs[..k]), ChangedBy(dir, cs[..k]);
    var scanned := LoadAll(builtinListing, builtinDir, listings[k], d);
    LoadAllMeans(builtinListing, builtinDir, listings[k], d);
    SameBuiltins(builtinListing, builtinDir, listings[0], dir, listings[k], d);
    if Valid(now) && now.builtins == r.builtins && Agrees(now, d) {
      AgreementDetermines(now, scanned, d);
    }
  }

  /** Handling a run of changes leaves, after each of them, what a full scan of the folder would build, exactly when
      every change is safe for the folder it is made in. */
  lemma {:induction false} HotReloadTracksFolderIff(builtinListing: seq<string>, builtinDir: Folder,
                                                    listings: seq<seq<string>>,
                                                    dir: Folder, cs: seq<Change>)
    requires Lists(builtinListing, builtinDir) && ListsAll(listings, dir, cs) && Lists(listings[0], dir)
    ensures var r := LoadAll(builtinListing, builtinDir, listings[0], dir);
            (forall k :: 0 <= k <= |cs| ==> IsRescan(r, builtinListing, builtinDir, listings, dir, cs, k)) <==>
            AllSafe(dir, cs, |cs|)
  {
    var r := LoadAll(builtinListing, builtinDir, listings[0], dir);
    LoadAllMeans(builtinListing, builtinDir, listings[0], dir);
    FollowsIff(r, dir, cs, |cs|);
    forall k | 0 <= k <= |cs|
      ensures IsRescan(r, builtinListing, builtinDir, listings, dir, cs, k) ==>
                Agrees(HandledBy(r, cs[..k]), ChangedBy(dir, cs[..k]))
      ensures Follows(r, dir, cs, |cs|) ==> IsRescan(r, builtinListing, builtinDir, listings, dir, cs, k)
    {
      IsRescanIff(r, builtinListing, builtinDir, listings, dir, cs, k);
      FollowsIff(r, dir, cs, k);
    }
  }

  /** Two files with one id make the registry drift: when the one that serves it is removed, the other does not step
      in. */
  lemma {:induction false} SharedIdDrifts(s1: Source, s2: Source)
    requires Loadable(s1) && Loadable(s2) && s1.desc.id == s2.desc.id
    ensures var dir := map["a.py" := s1, "b.py" := s2];
            Remove(LoadAll([], map[], ["a.py", "b.py"], dir), "a.py") != LoadAll([], map[], ["b.py"], dir - {"a.py"})
  {
    var dir := map["a.py" := s1, "b.py" := s2];
    assert Accepts("a.py") && Accepts("b.py") && Before("a.py", "b.py");
    FirstOfTwoUnsafe(dir, "a.py", "b.py");
    RemoveEqualsRescanIff([], map[], ["a.py", "b.py"], dir, "a.py", ["b.py"]);
  }

  lemma {:induction false} FirstOfTwoUnsafe(dir: Folder, a: string, b: string)
    requires a in dir && b in dir && Accepts(a) && Accepts(b) && Before(a, b)
    requires forall n :: n in dir ==> n == a || n == b
    requires Loadable(dir[a]) && Loadable(dir[b]) && dir[a].desc.id == dir[b].desc.id
    ensures !RemoveSafe(dir, a)
  {
    BeforeIrreflexive(a);
    assert Declares(dir, a, dir[a].desc.id) && Declares(dir, b, dir[a].desc.id);
    assert Wins(dir, a);
  }

  ghost predicate NoClash(dir: Folder) {
    forall n, m, id :: Declares(dir, n, id) && Declares(dir, m, id) ==> n == m
  }

  /** Over any run of single-file changes to accepted names during which no two files declare one id, the hot-reloaded
      registry equals a full scan of the final folder. */
  lemma {:induction false} HotReloadTracksFolder(builtinListing: seq<string>, builtinDir: Folder, listing: seq<string>,
                                                 dir: Folder,
                                                 cs: seq<Change>, listing': seq<string>)
    requires Lists(builtinListing, builtinDir) && Lists(listing, dir) && Lists(listing', ChangedBy(dir, cs))
    requires forall c :: c in cs ==> Accepts(c.path)
    requires forall k :: 0 <= k <= |cs| ==> NoClash(ChangedBy(dir, cs[..k]))
    ensures HandledBy(LoadAll(builtinListing, builtinDir, listing, dir), cs)
         == LoadAll(builtinListing, builtinDir, listing', ChangedBy(dir, cs))
  {
    var r := LoadAll(builtinListing, builtinDir, listing, dir);
    LoadAllMeans(builtinListing, builtinDir, listing, dir);
    RunAgrees(r, dir, cs);
    LoadAllMeans(builtinListing, builtinDir, listing', ChangedBy(dir, cs));
    SameBuiltins(builtinListing, builtinDir, listing, dir, listing', ChangedBy(dir, cs));
    AgreementDetermines(HandledBy(r, cs), LoadAll(builtinListing, builtinDir, listing', ChangedBy(dir, cs)),
                        ChangedBy(dir, cs));
  }

  lemma {:induction false} RunAgrees(r: Registry, dir: Folder, cs: seq<Change>)
    requires Valid(r) && Agrees(r, dir)
    requires forall c :: c in cs ==> Accepts(c.path)
    requires forall k :: 0 <= k <= |cs| ==> NoClash(ChangedBy(dir, cs[..k]))
    ensures var r' := HandledBy(r, cs); Valid(r') && r'.builtins == r.builtins && Agrees(r', ChangedBy(dir, cs))
  {
    if cs != [] {
      var k := |cs| - 1;
      var cs', c := cs[..k], cs[k];
      forall i | 0 <= i <= k ensures NoClash(ChangedBy(dir, cs'[..i])) {
        assert cs'[..i] == cs[..i];
      }
      RunAgrees(r, dir, cs');
      var r', d := HandledBy(r, cs'), ChangedBy(dir, cs');
      assert NoClash(d) by { assert cs[..k] == cs'; }
      assert NoClash(Changed(d, c)) by { assert cs[..|cs|] == cs; }
      match c
      case Write(p, src) =>
        NoClashIsSafe(d, p, src);
        ReloadKeepsValid(r', p, Some(src));
        ReloadKeepsBuiltins(r', p, Some(src));
        SafeReloadAgrees(r', d, p, src);
      case Delete(p) =>
        ReloadKeepsValid(r', p, None);
        RemoveAgreesIff(r', d, p);
    }
  }

  lemma {:induction false} NoClashIsSafe(d: Folder, p: string, src: Source)
    requires NoClash(d) && NoClash(d[p := src]) && Accepts(p)
    ensures ReloadSafe(d, p, src)
  {
    forall id | OthersDeclare(d, p, id) ensures !Declares(d, p, id) && !Declares(d[p := src], p, id) {
      var n :| n != p && Declares(d, n, id);
      assert Declares(d[p := src], n, id);
    }
  }

  /** The watcher also reports files that the scan skips: names with a leading underscore, and files in subdirectories.
      Reloading one of those stays in agreement with the scan exactly when it registers nothing. */
  lemma {:induction false} SkippedNameReloadAgreesIff(r: Registry, dir: Folder, p: string, src: Source)
    requires Valid(r) && Agrees(r, dir) && !Accepts(p)
    ensures Agrees(Reload(r, p, Some(src)), dir[p := src]) <==> !Loadable(src) || ServedByWorkspace(r, src.desc.id)
  {
    var r', dir' := Reload(r, p, Some(src)), dir[p := src];
    assert p !in r.pathToId by { assert !Wins(dir, p); }
    assert !Wins(dir', p);
    forall n ensures Wins(dir, n) <==> Wins(dir', n) {
      assert forall m, id :: Declares(dir, m, id) <==> Declares(dir', m, id);
    }
  }

  // ---------------------------------------------------------------- manifests

  datatype Origin = FromBuiltin | FromOverride | FromWorkspace

  datatype Manifest = Manifest(desc: Descriptor, tier: Tier, source: Origin)

  function ManifestOf(h: Handler, builtins: map<string, Handler>): Manifest {
    var isBuiltinId := h.desc.id in builtins;
    Manifest(h.desc,
             if isBuiltinId then Builtin else Workspace,
             if isBuiltinId then (if h.tier == Workspace then FromOverride else FromBuiltin) else FromWorkspace)
  }

  predicate KeyBefore(a: Manifest, b: Manifest) {
    a.desc.order < b.desc.order || (a.desc.order == b.desc.order && Before(a.desc.id, b.desc.id))
  }

  ghost predicate SortedByKey(items: seq<Manifest>) {
    forall i, j :: 0 <= i < j < |items| ==> KeyBefore(items[i], items[j])
  }

  /** `items` lists the manifests of the registry's handlers by (order, id). */
  ghost predicate ManifestList(items: seq<Manifest>, handlers: map<string, Handler>, builtins: map<string, Handler>) {
    && SortedByKey(items)
    && forall m :: m in items <==> exists id :: id in handlers && m == ManifestOf(handlers[id], builtins)
  }

  /** There is only one such list: the dictionary order of the handlers leaves no trace in it. */
  lemma {:induction false} ManifestListUnique(a: seq<Manifest>, b: seq<Manifest>, handlers: map<string, Handler>,
                                              builtins: map<string, Handler>)
    requires ManifestList(a, handlers, builtins) && ManifestList(b, handlers, builtins)
    ensures a == b
  {
    SortedSame(a, b);
  }

  lemma {:induction false} KeyBeforeAsymmetric(a: Manifest, b: Manifest)
    requires KeyBefore(a, b)
    ensures !KeyBefore(b, a) && a != b
  {
    if a.desc.order == b.desc.order {
      BeforeAsymmetric(a.desc.id, b.desc.id);
      BeforeIrreflexive(a.desc.id);
    }
  }

  lemma {:induction false} SortedSame(a: seq<Manifest>, b: seq<Manifest>)
    requires SortedByKey(a) && SortedByKey(b) && forall m :: m in a <==> m in b
    ensures a == b
  {
    HeadBelongs(a);
    HeadBelongs(b);
    if a != [] && b != [] {
      assert a[0] == b[0] by {
        assert a[0] in b && b[0] in a;
        if a[0] != b[0] {
          KeyBeforeAsymmetric(a[0], b[0]);
        }
      }
      forall m ensures m in a[1..] <==> m in b[1..] {
        NotInTail(a);
        NotInTail(b);
      }
      SortedSame(a[1..], b[1..]);
    }
  }

  lemma {:induction false} HeadBelongs(a: seq<Manifest>)
    ensures a != [] ==> a[0] in a
  {
  }

  lemma {:induction false} NotInTail(a: seq<Manifest>)
    requires a != [] && SortedByKey(a)
    ensures forall m :: m in a[1..] <==> m in a && m != a[0]
  {
    forall i | 1 <= i < |a| ensures a[i] != a[0] {
      KeyBeforeAsymmetric(a[0], a[i]);
    }
  }

  /** Inserts `m` into a list sorted by key. */
  function Insert(m: Manifest, s: seq<Manifest>): (r: seq<Manifest>)
    requires SortedByKey(s) && forall x :: x in s ==> x.desc.id != m.desc.id
    ensures SortedByKey(r) && forall x :: x in r <==> x == m || x in s
  {
    if s == [] then [m]
    else if KeyBefore(m, s[0]) then
      assert forall i :: 0 <= i < |s| ==> KeyBefore(m, s[i]) by {
        forall i | 0 <= i < |s| ensures KeyBefore(m, s[i]) {
          if i > 0 && m.desc.order == s[0].desc.order == s[i].desc.order {
            BeforeTransitive(m.desc.id, s[0].desc.id, s[i].desc.id);
          }
        }
      }
      [m] + s
    else
      assert KeyBefore(s[0], m) by { BeforeTotal(s[0].desc.id, m.desc.id); }
      var rest := Insert(m, s[1..]);
      assert forall x :: x in rest ==> KeyBefore(s[0], x);
      [s[0]] + rest
  }

  // ---------------------------------------------------------------- the registry object

  class HandlerRegistry {
    var handlers: map<string, Handler>
    var builtins: map<string, Handler>
    var pathToId: map<string, string>

    function State(): Registry
      reads this
    {
      Registry(handlers, builtins, pathToId)
    }

    constructor ()
      ensures State() == Registry(map[], map[], map[]) && Valid(State())
    {
      handlers, builtins, pathToId := map[], map[], map[];
    }

    /** `listing` and `dir` are empty where the directory does not exist. */
    method LoadAll(builtinListing: seq<string>, builtinDir: Folder, listing: seq<string>, dir: Folder)
      requires Lists(builtinListing, builtinDir) && Lists(listing, dir)
      modifies this
      ensures Valid(State()) && ServesBuiltins(builtins, builtinDir) && Agrees(State(), dir)
    {
      LoadAllMeans(builtinListing, builtinDir, listing, dir);
      handlers, builtins, pathToId := map[], map[], map[];
      ScanDir(builtinListing, builtinDir, Builtin);
      builtins := handlers;
      ScanDir(listing, dir, Workspace);
    }

    method ScanDir(listing: seq<string>, dir: Folder, tier: Tier)
      requires forall n :: n in listing ==> n in dir
      modifies this
      ensures State() == Scan(old(State()), listing, dir, tier)
    {
      for i := 0 to |listing|
        invariant State() == Scan(old(State()), listing[..i], dir, tier)
      {
        assert listing[..i + 1][..i] == listing[..i];
        if Accepts(listing[i]) {
          LoadFile(listing[i], dir[listing[i]], tier);
        }
      }
      assert listing[..|listing|] == listing;
    }

    method LoadFile(path: string, src: Source, tier: Tier)
      modifies this
      ensures State() == LoadOne(old(State()), path, src, tier)
    {
      if src.NoDescriptor? {
        return;
      }
      if tier == Workspace && src.desc.id in handlers && handlers[src.desc.id].tier == Workspace {
        return;
      }
      if src.run.None? {
        return;
      }
      handlers := handlers[src.desc.id := Handler(src.desc, src.run.value, tier)];
      if tier == Workspace {
        pathToId := pathToId[path := src.desc.id];
      }
    }

    /** The eviction that `reload_file` and `remove_file` share. */
    method Unregister(path: string)
      modifies this
      ensures State() == Evict(old(State()), path)
    {
      if path in pathToId {
        var oldId := pathToId[path];
        pathToId := pathToId - {path};
        if oldId in handlers && handlers[oldId].tier == Workspace {
          handlers := handlers - {oldId};
          if oldId in builtins {
            handlers := handlers[oldId := builtins[oldId]];
          }
        }
      }
    }

    method ReloadFile(path: string, file: Option<Source>)
      requires Valid(State())
      modifies this
      ensures State() == Reload(old(State()), path, file)
      ensures Valid(State()) && builtins == old(builtins)
    {
      ReloadKeepsValid(State(), path, file);
      ReloadKeepsBuiltins(State(), path, file);
      if file.None? {
        return;
      }
      Unregister(path);
      LoadFile(path, file.value, Workspace);
    }

    method RemoveFile(path: string)
      requires Valid(State())
      modifies this
      ensures State() == Remove(old(State()), path)
      ensures Valid(State()) && builtins == old(builtins)
    {
      ReloadKeepsValid(State(), path, None);
      Unregister(path);
    }

    /** `ids` is the dictionary's own order of the handlers. */
    method Manifests(ids: seq<string>) returns (items: seq<Manifest>)
      requires Valid(State())
      requires forall id :: id in ids <==> id in handlers
      requires forall i, j :: 0 <= i < j < |ids| ==> ids[i] != ids[j]
      ensures ManifestList(items, handlers, builtins)
    {
      items := [];
      for i := 0 to |ids|
        invariant SortedByKey(items)
        invariant forall m :: m in items <==> exists k :: 0 <= k < i && m == ManifestOf(handlers[ids[k]], builtins)
      {
        forall m | m in items ensures m.desc.id != ids[i] {
          var k :| 0 <= k < i && m == ManifestOf(handlers[ids[k]], builtins);
          assert handlers[ids[k]].desc.id == ids[k];
        }
        items := Insert(ManifestOf(handlers[ids[i]], builtins), items);
      }
    }
  }
}
