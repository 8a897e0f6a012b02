/** The caching policy of the service worker as pure decision logic over an
    abstract cache store: install seeding, the fetch handler's bypass rules and
    cache-first lookup, and the fetch-and-cache write-back. */
module CachePolicy {
  import opened Http

  const CacheName: string := "afterSchoolClub-v1"
  const CacheFiles: seq<string> := ["index.html"]
  const ExtensionScheme: string := "chrome-extension://"

  /** The named cache: request identity to stored response. */
  type Store = map<Request, Response>

  // ---------------------------------------------------------------------------
  // Effects, so that lookups, network calls and writes can be counted

  datatype EffectKind = CacheLookup | NetworkCall | CacheWrite
  datatype Effect = Effect(kind: EffectKind, req: Request)

  /** How many effects of kind `k` the trace holds. */
  function Count(es: seq<Effect>, k: EffectKind): nat
  {
    if es == [] then 0 else (if es[0].kind == k then 1 else 0) + Count(es[1..], k)
  }

  lemma {:induction false} CountAppend(a: seq<Effect>, b: seq<Effect>, k: EffectKind)
    ensures Count(a + b, k) == Count(a, k) + Count(b, k)
  {
    if a == [] {
      assert a + b == b;
    } else {
      assert (a + b)[0] == a[0];
      assert (a + b)[1..] == a[1..] + b;
      CountAppend(a[1..], b, k);
    }
  }

  // ---------------------------------------------------------------------------
  // The predicates the handlers branch on

  /** JavaScript's `String.prototype.startsWith`. */
  predicate StartsWith(s: string, prefix: string)
  {
    |prefix| <= |s| && s[..|prefix|] == prefix
  }

  /** Why the fetch handler declined a request. */
  datatype Bypass = ExtensionUrl | PostMethod

  /** The two bypass rules, checked in source order. */
  function BypassRule(req: Request): (b: Option<Bypass>)
    ensures b.None? <==> !StartsWith(req.url, ExtensionScheme) && req.httpMethod != "POST"
    ensures StartsWith(req.url, ExtensionScheme) ==> b == Some(ExtensionUrl)
    ensures b == Some(PostMethod) <==> !StartsWith(req.url, ExtensionScheme) && req.httpMethod == "POST"
  {
    if StartsWith(req.url, ExtensionScheme) then Some(ExtensionUrl)
    else if req.httpMethod == "POST" then Some(PostMethod)
    else None
  }

  /** The write-back guard: a present response, status exactly 200, type "basic". */
  predicate Cacheable(r: Option<Response>)
  {
    r.Some? && r.value.status == 200 && r.value.kind == "basic"
  }

  /** The only request method the Cache API stores and matches: `cache.put`
      rejects any other, and `caches.match` never matches one. */
  predicate CacheableMethod(req: Request)
  {
    req.httpMethod == "GET"
  }

  // ---------------------------------------------------------------------------
  // Fetch handling

  /** What the fetch handler does with the event: it does not call `respondWith`
      (`Declined`), it resolves with a response value (`Responded`; `None` is the
      absent response passed through by fetch-and-cache), or it rejects (`Failed`). */
  datatype Outcome = Declined(reason: Bypass) | Responded(response: Option<Response>) | Failed

  /** One handled event: its outcome, the cache afterwards and the effects, in order. */
  datatype Step = Step(outcome: Outcome, store: Store, effects: seq<Effect>)

  /** A fetch result that is written back: an eligible response to a request
      that `cache.put` accepts. */
  predicate WritesBack(req: Request, net: NetResult)
  {
    net.Ok? && Cacheable(net.response) && CacheableMethod(req)
  }

  /** `fetchAndCache(request)` with the network yielding `net`.  An eligible
      response to a request other than a GET is still returned, but the put that
      follows rejects and writes nothing. */
  function FetchAndCacheStep(store: Store, req: Request, net: NetResult): (s: Step)
    ensures Count(s.effects, NetworkCall) == 1 && Count(s.effects, CacheLookup) == 0
    ensures s.outcome == (if net.Ok? then Responded(net.response) else Failed)
    ensures Count(s.effects, CacheWrite) == (if WritesBack(req, net) then 1 else 0)
    ensures WritesBack(req, net) ==>
              req in s.store && s.store[req] == net.response.value
              && (forall k :: k != req ==> (k in s.store <==> k in store))
              && (forall k :: k != req && k in store ==> s.store[k] == store[k])
    ensures !WritesBack(req, net) ==> s.store == store
  {
    var call := [Effect(NetworkCall, req)];
    var write := [Effect(CacheWrite, req)];
    CountAppend(call, write, NetworkCall);
    CountAppend(call, write, CacheLookup);
    CountAppend(call, write, CacheWrite);
    match net
    case Err => Step(Failed, store, call)
    case Ok(resp) =>
      if !Cacheable(resp) || !CacheableMethod(req) then Step(Responded(resp), store, call)
      else Step(Responded(resp), store[req := resp.value], call + write)
  }

  /** A lookup that finds the request: neither bypassed nor failed, a GET, and
      a stored key. */
  predicate Hit(store: Store, req: Request, lookupFails: bool)
  {
    BypassRule(req).None? && !lookupFails && CacheableMethod(req) && req in store
  }

  /** The fetch handler for one event: bypass rules, then cache-first lookup
      (which may reject when `lookupFails`), falling back to fetch-and-cache only
      when the lookup misses or rejects. */
  function FetchStep(store: Store, req: Request, lookupFails: bool, net: NetResult): (s: Step)
    // bypass: no response, no lookup, no network call, no change
    ensures s.outcome.Declined? <==> StartsWith(req.url, ExtensionScheme) || req.httpMethod == "POST"
    ensures StartsWith(req.url, ExtensionScheme) ==> s.outcome == Declined(ExtensionUrl)
    ensures s.outcome.Declined? ==> s.effects == [] && s.store == store
    // every other request is looked up exactly once
    ensures !s.outcome.Declined? ==> Count(s.effects, CacheLookup) == 1
    // hit: the stored response, no network call, no change
    ensures Hit(store, req, lookupFails) ==>
              s.outcome == Responded(Some(store[req])) && s.store == store
              && Count(s.effects, NetworkCall) == 0 && Count(s.effects, CacheWrite) == 0
    // miss or failed lookup: exactly one network call, whose result is returned
    ensures BypassRule(req).None? && !Hit(store, req, lookupFails) ==>
              Count(s.effects, NetworkCall) == 1
              && s.outcome == (if net.Ok? then Responded(net.response) else Failed)
    // write-back exactly when the fetched response is eligible
    ensures Count(s.effects, CacheWrite) <= 1
    ensures Count(s.effects, CacheWrite) == 1 <==>
              BypassRule(req).None? && !Hit(store, req, lookupFails) && WritesBack(req, net)
    ensures Count(s.effects, CacheWrite) == 0 ==> s.store == store
    ensures Count(s.effects, CacheWrite) == 1 ==>
              s.store == store[req := net.response.value] && s.outcome == Responded(net.response)
    // a network failure is the only way to fail, and changes nothing
    ensures s.outcome == Failed <==> BypassRule(req).None? && !Hit(store, req, lookupFails) && net.Err?
    ensures s.outcome == Failed ==> s.store == store
  {
    var lookup := [Effect(CacheLookup, req)];
    match BypassRule(req)
    case Some(b) => Step(Declined(b), store, [])
    case None =>
      if !lookupFails && CacheableMethod(req) && req in store then
        Step(Responded(Some(store[req])), store, lookup)
      else
        var f := FetchAndCacheStep(store, req, net);
        CountAppend(lookup, f.effects, CacheLookup);
        CountAppend(lookup, f.effects, NetworkCall);
        CountAppend(lookup, f.effects, CacheWrite);
        Step(f.outcome, f.store, lookup + f.effects)
  }

  /** After an eligible fetch, the identical request is a hit on the copy just
      stored: no network call and no further change. */
  lemma RepeatedRequestHits(store: Store, req: Request, lookupFails: bool, net: NetResult,
                            again: NetResult)
    requires Count(FetchStep(store, req, lookupFails, net).effects, CacheWrite) == 1
    ensures var s1 := FetchStep(store, req, lookupFails, net);
            var s2 := FetchStep(s1.store, req, false, again);
            s2.outcome == s1.outcome == Responded(net.response)
            && s2.store == s1.store
            && Count(s2.effects, NetworkCall) == 0
  {
  }

  /** A response that is not 200 with type "basic" (a 404, a 500, an "opaque" or
      "cors" response), or an absent one, is never stored. */
  lemma IneligibleNeverCached(store: Store, req: Request, lookupFails: bool, r: Option<Response>)
    requires r.None? || r.value.status != 200 || r.value.kind != "basic"
    ensures FetchStep(store, req, lookupFails, Ok(r)).store == store
    ensures Count(FetchStep(store, req, lookupFails, Ok(r)).effects, CacheWrite) == 0
  {
  }

  /** A request that is neither bypassed nor a GET (a PUT, DELETE, PATCH or
      HEAD) always goes to the network exactly once and is never stored. */
  lemma OtherMethodsNeverCached(store: Store, req: Request, lookupFails: bool, net: NetResult)
    requires BypassRule(req).None? && !CacheableMethod(req)
    ensures var s := FetchStep(store, req, lookupFails, net);
            Count(s.effects, NetworkCall) == 1 && Count(s.effects, CacheWrite) == 0
            && s.store == store
            && s.outcome == (if net.Ok? then Responded(net.response) else Failed)
  {
  }

  // ---------------------------------------------------------------------------
  // Install seeding

  /** No request occurs twice in the batch (`Cache.addAll` rejects duplicates). */
  predicate Distinct(files: seq<string>)
  {
    forall i, j :: 0 <= i < j < |files| ==> files[i] != files[j]
  }

  /** A fetch that `Cache.addAll` accepts: a present response with an ok status
      (200 to 299) other than 206 (a partial response). */
  predicate Seedable(r: NetResult)
  {
    r.Ok? && r.response.Some? && 200 <= r.response.value.status <= 299
    && r.response.value.status != 206
  }

  /** The keys a manifest seeds. */
  function ManifestKeys(files: seq<string>): set<Request>
  {
    set f | f in files :: Get(f)
  }

  /** The fetch phase of `Cache.addAll`: every path fetched, the batch of
      responses if all were accepted, nothing otherwise. */
  function FetchBatch(files: seq<string>, net: Request -> NetResult): (r: Option<Store>)
    ensures r.Some? <==> forall i :: 0 <= i < |files| ==> Seedable(net(Get(files[i])))
    ensures r.Some? ==> r.value.Keys == ManifestKeys(files)
    ensures r.Some? ==> forall k :: k in r.value ==> net(k).Ok? && net(k).response == Some(r.value[k])
    decreases |files|
  {
    if files == [] then Some(map[])
    else
      var res := net(Get(files[0]));
      if !Seedable(res) then None
      else match FetchBatch(files[1..], net)
        case None =>
          assert exists j :: 0 <= j < |files| && !Seedable(net(Get(files[j]))) by {
            var i :| 0 <= i < |files[1..]| && !Seedable(net(Get(files[1..][i])));
            assert files[1..][i] == files[i + 1];
          }
          None
        case Some(m) => Some(m[Get(files[0]) := res.response.value])
  }

  /** The install handler: open the named cache (`opens` says whether that
      succeeds), then `addAll(files)`, all or nothing. `None` is a failed
      install, which leaves the cache as it was. */
  function InstallStep(store: Store, files: seq<string>, opens: bool, net: Request -> NetResult)
    : (r: Option<Store>)
    ensures r.Some? <==> opens && Distinct(files)
                         && forall i :: 0 <= i < |files| ==> Seedable(net(Get(files[i])))
    ensures r.Some? ==> r.value.Keys == store.Keys + ManifestKeys(files)
    ensures r.Some? ==> forall f :: f in files ==> Get(f) in r.value && Some(r.value[Get(f)]) == net(Get(f)).response
    ensures r.Some? ==> forall k :: k in store && k !in ManifestKeys(files) ==> r.value[k] == store[k]
  {
    if !opens || !Distinct(files) then None
    else match FetchBatch(files, net)
      case None => None
      case Some(batch) => Some(store + batch)
  }

  /** After a successful install, installing again with the same manifest gives
      the same key set, whatever the second install's outcome; with the same
      network answers it gives the same cache. */
  lemma InstallTwiceSameKeys(store: Store, files: seq<string>, opens: bool, net: Request -> NetResult,
                             opens2: bool, net2: Request -> NetResult)
    requires InstallStep(store, files, opens, net).Some?
    ensures var once := InstallStep(store, files, opens, net).value;
            (InstallStep(once, files, opens2, net2).Some? ==>
               InstallStep(once, files, opens2, net2).value.Keys == once.Keys)
            && InstallStep(once, files, opens, net) == Some(once)
  {
    var once := InstallStep(store, files, opens, net).value;
    var twice := InstallStep(once, files, opens, net);
    assert twice.Some?;
    assert twice.value == once by {
      forall k | k in once ensures twice.value[k] == once[k] {
        if k in ManifestKeys(files) {
          var f :| f in files && k == Get(f);
        }
      }
    }
  }

  /** Seeding an empty cache yields exactly the manifest's keys. */
  lemma InstallFromEmptyKeys(files: seq<string>, opens: bool, net: Request -> NetResult)
    requires InstallStep(map[], files, opens, net).Some?
    ensures InstallStep(map[], files, opens, net).value.Keys == ManifestKeys(files)
  {
  }

  // ---------------------------------------------------------------------------
  // Scenarios

  /** After a successful install of the real manifest, a GET of "index.html" is
      served from the cache with no network call. */
  lemma InstalledIndexIsHit(store: Store, opens: bool, net: Request -> NetResult, later: NetResult)
    requires InstallStep(store, CacheFiles, opens, net).Some?
    ensures var seeded := InstallStep(store, CacheFiles, opens, net).value;
            var s := FetchStep(seeded, Get("index.html"), false, later);
            s.outcome == Responded(Some(seeded[Get("index.html")]))
            && s.outcome == Responded(net(Get("index.html")).response)
            && Count(s.effects, NetworkCall) == 0 && s.store == seeded
  {
  }

  /** "app.js" on first load: a miss, one network call, a 200 "basic" response
      written back; the same request then hits with no network call. */
  lemma AppJsFirstLoadThenHit(store: Store, again: NetResult)
    requires Get("app.js") !in store
    ensures var ok := Response(200, "basic");
            var s1 := FetchStep(store, Get("app.js"), false, Ok(Some(ok)));
            var s2 := FetchStep(s1.store, Get("app.js"), false, again);
            s1.outcome == Responded(Some(ok)) && Count(s1.effects, NetworkCall) == 1
            && s1.store == store[Get("app.js") := ok]
            && s2.outcome == Responded(Some(ok)) && Count(s2.effects, NetworkCall) == 0
  {
    var ok := Response(200, "basic");
    RepeatedRequestHits(store, Get("app.js"), false, Ok(Some(ok)), again);
  }

  /** A POST to "/api/submit" is declined without touching cache or network. */
  lemma PostSubmitDeclined(store: Store, lookupFails: bool, net: NetResult)
    ensures var s := FetchStep(store, Request("/api/submit", "POST"), lookupFails, net);
            s == Step(Declined(PostMethod), store, [])
  {
  }
}
