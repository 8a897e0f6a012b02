/** The service worker as an object over its cache store: the install handler,
    the fetch handler and fetch-and-cache change the cache in place.  Each
    method is proved against the step function of CachePolicy that specifies it. */
module ServiceWorker {
  import opened Http
  import opened CachePolicy

  /** What a cache lookup yields: a stored response, nothing, or a rejection. */
  datatype Lookup = Found(response: Response) | Missing | Rejected

  class Worker {
    /** The name of the cache that install opens and fetch-and-cache writes to. */
    const name: string
    /** The contents of the cache named `name`. */
    var cache: Store
    /** The fetch handler's lookups, network calls and writes, in order. */
    ghost var log: seq<Effect>

    /** A worker over a cache that already holds `initial` (the store persists
        across worker restarts). */
    constructor (initial: Store)
      ensures name == CacheName && cache == initial && log == []
    {
      name := CacheName;
      cache := initial;
      log := [];
    }

    /** The install handler: open the cache `name` (`opens` says whether that
        succeeds) and add every manifest entry, all or nothing; `ok` is false
        when the pending work rejects. */
    method Install(opens: bool, net: Request -> NetResult) returns (ok: bool)
      modifies this
      ensures ok == InstallStep(old(cache), CacheFiles, opens, net).Some?
      ensures cache == if ok then InstallStep(old(cache), CacheFiles, opens, net).value else old(cache)
      ensures ok ==> forall f :: f in CacheFiles ==> Get(f) in cache
      ensures log == old(log)
    {
      if !opens {
        return false;
      }
      // The manifest is a constant without duplicates, so addAll's
      // duplicate-request rejection cannot arise here.
      assert Distinct(CacheFiles);
      var batch := FetchBatch(CacheFiles, net);
      if batch.None? {
        return false;
      }
      cache := cache + batch.value;
      ok := true;
    }

    /** `caches.match(request)`; `fails` stands for a lookup that rejects.
        Only a GET request is ever matched. */
    method Match(req: Request, fails: bool) returns (r: Lookup)
      ensures r == Rejected <==> fails
      ensures !fails ==> (r.Found? <==> CacheableMethod(req) && req in cache)
      ensures r.Found? ==> req in cache && r.response == cache[req]
    {
      if fails {
        return Rejected;
      }
      if CacheableMethod(req) && req in cache {
        r := Found(cache[req]);
      } else {
        r := Missing;
      }
    }

    /** `cache.put(request, response)`, part of the same step.  It rejects a
        request other than a GET (`accepted` is false) and then writes nothing. */
    method Put(req: Request, r: Response) returns (accepted: bool)
      modifies this
      ensures accepted == CacheableMethod(req)
      ensures cache == if accepted then old(cache)[req := r] else old(cache)
      ensures log == if accepted then old(log) + [Effect(CacheWrite, req)] else old(log)
    {
      if !CacheableMethod(req) {
        return false;
      }
      cache := cache[req := r];
      log := log + [Effect(CacheWrite, req)];
      accepted := true;
    }

    /** fetchAndCache: one network call; an eligible response is copied into
        the cache; the response, or the rejection, is passed on. */
    method FetchAndCache(req: Request, net: NetResult) returns (o: Outcome)
      modifies this
      ensures o == FetchAndCacheStep(old(cache), req, net).outcome
      ensures cache == FetchAndCacheStep(old(cache), req, net).store
      ensures log == old(log) + FetchAndCacheStep(old(cache), req, net).effects
    {
      log := log + [Effect(NetworkCall, req)];
      match net {
        case Err =>
          o := Failed;
        case Ok(resp) =>
          if Cacheable(resp) {
            // The rejection of a refused put is not handled: the response is
            // returned either way.
            var copy := resp.value;
            var _ := Put(req, copy);
          }
          o := Responded(resp);
      }
    }

    /** The fetch handler: the two bypass rules in order, then cache-first
        lookup with fetch-and-cache on a miss or a rejected lookup. */
    method HandleFetch(req: Request, lookupFails: bool, net: NetResult) returns (o: Outcome)
      modifies this
      ensures o == FetchStep(old(cache), req, lookupFails, net).outcome
      ensures cache == FetchStep(old(cache), req, lookupFails, net).store
      ensures log == old(log) + FetchStep(old(cache), req, lookupFails, net).effects
    {
      match BypassRule(req) {
        case Some(b) =>
          return Declined(b);
        case None =>
      }
      log := log + [Effect(CacheLookup, req)];
      var found := Match(req, lookupFails);
      match found {
        case Found(r) =>
          o := Responded(Some(r));
        case Missing =>
          o := FetchAndCache(req, net);
        case Rejected =>
          o := FetchAndCache(req, net);
      }
    }
  }
}
