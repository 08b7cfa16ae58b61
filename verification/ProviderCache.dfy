/** The provider registry of toolgate: a configuration cached for 30 seconds, revalidated with its entity tag, and the
    driver instances built from it. The other end is Core's media-config endpoint. */
module ProviderCache {
  import opened Common
  import opened Names

  const TTL: real := 30.0

  /** `settings` stands for base URL, API key, model and options, which go to the driver unread. */
  datatype ProviderConfig = ProviderConfig(capability: string, driver: string, settings: string, enabled: bool)

  datatype Config = Config(version: int, active: map<string, Option<string>>, providers: map<string, ProviderConfig>,
                           workspaceDir: Option<string>)

  const EMPTY := Config(1, map[], map[], None)

  datatype Instance = Instance(capability: string, driver: string, settings: string)

  /** The driver classes by (capability, driver), and whether a class accepts given settings. */
  datatype Drivers = Drivers(known: set<(string, string)>, accepts: (string, string, string) -> bool)

  datatype State = State(config: Config, instances: map<string, Instance>, etag: Option<string>, lastFetch: real)

  const INITIAL := State(EMPTY, map[], None, 0.0)

  /** What comes back for a request: nothing, or a status. A payload of `None` fails validation. */
  datatype Response = NetworkError | NotModified | OK(etag: Option<string>, payload: Option<Config>) | Status(code: nat)

  /** One `_refresh`: the clock, Core's configuration at that moment, and the response a request would get. */
  datatype Call = Call(now: real, core: Config, response: Response)

  // ---------------------------------------------------------------- instances

  predicate Starts(d: Drivers, p: ProviderConfig) {
    p.enabled && (p.capability, p.driver) in d.known && d.accepts(p.capability, p.driver, p.settings)
  }

  function Build(d: Drivers, c: Config): map<string, Instance> {
    map id | id in c.providers && Starts(d, c.providers[id]) ::
      Instance(c.providers[id].capability, c.providers[id].driver, c.providers[id].settings)
  }

  // ---------------------------------------------------------------- one refresh

  predicate Asks(s: State, now: real) {
    s.config.providers == map[] || now - s.lastFetch >= TTL
  }

  /** The If-None-Match header; an empty tag is not sent. */
  function Condition(s: State): Option<string> {
    if s.etag == Some("") then None else s.etag
  }

  predicate Succeeds(r: Response) {
    r == NotModified || (r.OK? && r.payload.Some?)
  }

  predicate Fetches(s: State, c: Call) {
    Asks(s, c.now) && Succeeds(c.response)
  }

  function Refreshed(d: Drivers, s: State, now: real, r: Response): State {
    if !Asks(s, now) || !Succeeds(r) then s
    else if r.NotModified? then s.(lastFetch := now)
    else if r.payload.value != s.config then State(r.payload.value, Build(d, r.payload.value), r.etag, now)
    else s.(etag := r.etag, lastFetch := now)
  }

  function Run(d: Drivers, calls: seq<Call>): State {
    if calls == [] then INITIAL
    else
      var n := |calls| - 1;
      Refreshed(d, Run(d, calls[..n]), calls[n].now, calls[n].response)
  }

  /** The cache before call `k`. */
  function At(d: Drivers, calls: seq<Call>, k: nat): State
    requires k <= |calls|
  {
    Run(d, calls[..k])
  }

  // ---------------------------------------------------------------- the server

  /** Section 13.1.2 and 15.4.5 of RFC 9110, for tags that are a function of the configuration: a 304 answers only a
      condition that names the current tag, and a 200 carries the current configuration under its tag. */
  predicate Honest(tag: Config -> string, core: Config, condition: Option<string>, r: Response) {
    match r
    case NotModified => condition == Some(tag(core))
    case OK(etag, Some(payload)) => payload == core && (etag == None || etag == Some("") || etag == Some(tag(core)))
    case _ => true
  }

  /** Different configurations have different tags. */
  ghost predicate Determines(tag: Config -> string) {
    forall c1, c2 :: tag(c1) == tag(c2) ==> c1 == c2
  }

  ghost predicate HonestRun(d: Drivers, tag: Config -> string, calls: seq<Call>) {
    forall k :: 0 <= k < |calls| ==>
                  Honest(tag, calls[k].core, Condition(At(d, calls, k)), calls[k].response)
  }

  ghost predicate Monotone(calls: seq<Call>) {
    forall i, j :: 0 <= i < j < |calls| ==> calls[i].now <= calls[j].now
  }

  /** The handler of Core: the hash of the configuration is its tag. */
  function Respond(tag: Config -> string, core: Config, condition: Option<string>): (r: Response)
    ensures Honest(tag, core, condition, r) && Succeeds(r)
  {
    if condition == Some(tag(core)) then NotModified else OK(Some(tag(core)), Some(core))
  }

  // ---------------------------------------------------------------- what every run keeps

  /** A tag that would be sent belongs to the cached configuration, and so do the instances. */
  ghost predicate Inv(d: Drivers, tag: Config -> string, s: State) {
    && (Condition(s).Some? ==> Condition(s) == Some(tag(s.config)))
    && s.instances == Build(d, s.config)
  }

  /** A response that is not a failure leaves the configuration Core had when it answered. */
  lemma {:induction false} SuccessIsCurrent(d: Drivers, tag: Config -> string, s: State, c: Call)
    requires Determines(tag) && Inv(d, tag, s) && Honest(tag, c.core, Condition(s), c.response)
    ensures Inv(d, tag, Refreshed(d, s, c.now, c.response))
    ensures Fetches(s, c) ==>
              var t := Refreshed(d, s, c.now, c.response);
              t.config == c.core && t.instances == Build(d, c.core) && t.lastFetch == c.now
    ensures !Fetches(s, c) ==> Refreshed(d, s, c.now, c.response) == s
  {
  }

  lemma {:induction false} AtNext(d: Drivers, calls: seq<Call>, k: nat)
    requires k < |calls|
    ensures At(d, calls, k + 1) == Refreshed(d, At(d, calls, k), calls[k].now, calls[k].response)
  {
    assert calls[..k + 1][..k] == calls[..k];
  }

  /** In every run, whatever fails, the tag and the instances are those of the cached configuration. */
  lemma {:induction false} RunInv(d: Drivers, tag: Config -> string, calls: seq<Call>, n: nat)
    requires Determines(tag) && HonestRun(d, tag, calls) && n <= |calls|
    ensures Inv(d, tag, At(d, calls, n))
  {
    if n > 0 {
      RunInv(d, tag, calls, n - 1);
      AtNext(d, calls, n - 1);
      SuccessIsCurrent(d, tag, At(d, calls, n - 1), calls[n - 1]);
    }
  }

  /** Of the first `n` calls, `i` is the last that fetched, and the cache is as it left it. */
  ghost predicate LastFetch(d: Drivers, calls: seq<Call>, n: nat, i: nat)
    requires n <= |calls|
  {
    && i < n
    && Fetches(At(d, calls, i), calls[i])
    && (forall j :: i < j < n ==> !Fetches(At(d, calls, j), calls[j]))
    && At(d, calls, n).lastFetch == calls[i].now
    && At(d, calls, n).config == calls[i].core
  }

  /** The cache is that of the last call that fetched; without one it is as at the start. */
  lemma {:induction false} CacheIsLastFetch(d: Drivers, tag: Config -> string, calls: seq<Call>, n: nat)
    requires Determines(tag) && HonestRun(d, tag, calls) && n <= |calls|
    ensures At(d, calls, n) == INITIAL || exists i: nat :: LastFetch(d, calls, n, i)
  {
    if n > 0 {
      var m := n - 1;
      CacheIsLastFetch(d, tag, calls, m);
      RunInv(d, tag, calls, m);
      AtNext(d, calls, m);
      SuccessIsCurrent(d, tag, At(d, calls, m), calls[m]);
      if Fetches(At(d, calls, m), calls[m]) {
        assert LastFetch(d, calls, n, m);
      } else if i: nat :| LastFetch(d, calls, m, i) {
        assert LastFetch(d, calls, n, i);
      }
    }
  }

  // ---------------------------------------------------------------- how often, how stale

  /** With providers cached, a request leaves at least 30 seconds after every earlier successful one. */
  lemma {:induction false} RequestsApart(d: Drivers, tag: Config -> string, calls: seq<Call>, i: nat, j: nat)
    requires Determines(tag) && HonestRun(d, tag, calls) && Monotone(calls) && i < j < |calls|
    requires Fetches(At(d, calls, i), calls[i])
    requires Asks(At(d, calls, j), calls[j].now) && At(d, calls, j).config.providers != map[]
    ensures calls[j].now - calls[i].now >= TTL
  {
    CacheIsLastFetch(d, tag, calls, j);
    var k: nat :| LastFetch(d, calls, j, k);
    assert !(k < i) by {
      assert Fetches(At(d, calls, i), calls[i]);
    }
    assert calls[i].now <= calls[k].now;
  }

  /** While no request fails, what is served is what Core has now, or had less than 30 seconds ago. */
  lemma {:induction false} ServedIsFresh(d: Drivers, tag: Config -> string, calls: seq<Call>)
    requires Determines(tag) && HonestRun(d, tag, calls) && calls != []
    requires forall k :: 0 <= k < |calls| && Asks(At(d, calls, k), calls[k].now) ==> Succeeds(calls[k].response)
    ensures var n := |calls| - 1;
            exists i :: 0 <= i <= n && Run(d, calls).config == calls[i].core
                        && Run(d, calls).instances == Build(d, calls[i].core)
                        && (i == n || calls[n].now - calls[i].now < TTL)
  {
    var n := |calls| - 1;
    assert calls[..n + 1] == calls;
    RunInv(d, tag, calls, n + 1);
    CacheIsLastFetch(d, tag, calls, n + 1);
    AtNext(d, calls, n);
    if Asks(At(d, calls, n), calls[n].now) {
      RunInv(d, tag, calls, n);
      SuccessIsCurrent(d, tag, At(d, calls, n), calls[n]);
    } else {
      var i: nat :| LastFetch(d, calls, n + 1, i);
      assert calls[n].now - calls[i].now < TTL;
    }
  }

  /** A tag that two configurations share makes a 304 keep the wrong one. */
  lemma {:induction false} SharedTagGoesStale(d: Drivers, tag: Config -> string, c1: Config, c2: Config)
    requires c1 != c2 && tag(c1) == tag(c2) && tag(c1) != "" && c1.providers != map[]
    ensures var calls := [Call(0.0, c1, Respond(tag, c1, None)), Call(TTL, c2, Respond(tag, c2, Some(tag(c1))))];
            HonestRun(d, tag, calls) && Fetches(At(d, calls, 1), calls[1]) && Run(d, calls).config == c1
  {
  }

  // ---------------------------------------------------------------- the provider of a capability

  predicate ActiveHit(s: State, capability: string) {
    && capability in s.config.active && s.config.active[capability].Some?
    && s.config.active[capability].value != "" && s.config.active[capability].value in s.instances
  }

  predicate Candidate(s: State, capability: string, id: string) {
    id in s.instances && id in s.config.providers && s.config.providers[id].capability == capability
  }

  /** The chosen provider: the active one when it has an instance, else the first by id of the capability's own. */
  ghost predicate Chosen(s: State, capability: string, r: Option<string>) {
    if ActiveHit(s, capability) then r == s.config.active[capability]
    else if r.None? then forall id :: !Candidate(s, capability, id)
    else
      && Candidate(s, capability, r.value)
      && forall id :: Candidate(s, capability, id) && id != r.value ==> Before(r.value, id)
  }

  lemma {:induction false} ChosenUnique(s: State, capability: string, a: Option<string>, b: Option<string>)
    requires Chosen(s, capability, a) && Chosen(s, capability, b)
    ensures a == b
  {
    if !ActiveHit(s, capability) && a != b {
      assert a.Some? && b.Some?;
      BeforeAsymmetric(a.value, b.value);
    }
  }

  /** In every reachable state a capability is served exactly when it has an active instance or a provider of its own
      that starts; the one served is of another capability exactly when the active id names such a provider. */
  lemma {:induction false} ServedIff(d: Drivers, tag: Config -> string, calls: seq<Call>, capability: string,
                                     r: Option<string>)
    requires Determines(tag) && HonestRun(d, tag, calls) && Chosen(Run(d, calls), capability, r)
    ensures var s := Run(d, calls);
            && (r.Some? <==>
                || ActiveHit(s, capability)
                || exists id :: id in s.config.providers && s.config.providers[id].capability == capability
                                && Starts(d, s.config.providers[id]))
            && (r.Some? ==> r.value in s.config.providers && r.value in s.instances
                            && Starts(d, s.config.providers[r.value]))
            && ((r.Some? && s.instances[r.value].capability != capability) <==>
                ActiveHit(s, capability)
                && s.config.providers[s.config.active[capability].value].capability != capability)
  {
    RunInv(d, tag, calls, |calls|);
    assert calls[..|calls|] == calls;
    var s := Run(d, calls);
    if !ActiveHit(s, capability) {
      if id :| id in s.config.providers && s.config.providers[id].capability == capability
               && Starts(d, s.config.providers[id]) {
        assert Candidate(s, capability, id);
      }
    }
  }

  class ProviderRegistry {
    const drivers: Drivers
    var config: Config
    var instances: map<string, Instance>
    var etag: Option<string>
    var lastFetch: real

    function Value(): State
      reads this
    {
      State(config, instances, etag, lastFetch)
    }

    constructor (drivers: Drivers)
      ensures this.drivers == drivers && Value() == INITIAL
    {
      this.drivers := drivers;
      config, instances, etag, lastFetch := EMPTY, map[], None, 0.0;
    }

    /** `response` is what the request is answered with, should there be one; `asked` tells whether there was. */
    method Refresh(now: real, response: Response) returns (asked: bool)
      modifies this
      ensures asked == old(Asks(Value(), now))
      ensures Value() == Refreshed(drivers, old(Value()), now, response)
    {
      if config.providers != map[] && now - lastFetch < TTL {
        return false;
      }
      asked := true;
      match response {
        case NetworkError =>
        case NotModified =>
          lastFetch := now;
        case OK(newEtag, payload) =>
          if payload.Some? {
            if payload.value != config {
              config := payload.value;
              InstantiateAll();
            }
            etag := newEtag;
            lastFetch := now;
          }
        case Status(code) =>
      }
    }

    method InstantiateAll()
      modifies this`instances
      ensures instances == Build(drivers, config)
    {
      instances := map[];
      var rest := config.providers.Keys;
      while rest != {}
        invariant rest <= config.providers.Keys
        invariant instances == map id | id in Build(drivers, config) && id !in rest :: Build(drivers, config)[id]
        decreases rest
      {
        var id :| id in rest;
        rest := rest - {id};
        var p := config.providers[id];
        if p.enabled && (p.capability, p.driver) in drivers.known
           && drivers.accepts(p.capability, p.driver, p.settings) {
          instances := instances[id := Instance(p.capability, p.driver, p.settings)];
        }
      }
    }

    /** The id whose instance serves the capability. */
    method GetActive(capability: string) returns (r: Option<string>)
      ensures Chosen(Value(), capability, r)
    {
      if capability in config.active {
        var activeId := config.active[capability];
        if activeId.Some? && activeId.value != "" && activeId.value in instances {
          return activeId;
        }
      }
      var ids := SortNames(instances.Keys);
      for i := 0 to |ids|
        invariant forall j :: 0 <= j < i ==> !Candidate(Value(), capability, ids[j])
      {
        if ids[i] in config.providers && config.providers[ids[i]].capability == capability {
          forall id | Candidate(Value(), capability, id) && id != ids[i] ensures Before(ids[i], id) {
            assert id in ids;
          }
          return Some(ids[i]);
        }
      }
      forall id ensures !Candidate(Value(), capability, id) {
        assert id in instances.Keys <==> id in ids;
      }
      return None;
    }
  }
}
