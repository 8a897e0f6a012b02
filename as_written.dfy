/** The fetch handler's promise chain as it is written.  The `.catch` handler
    is attached after the `.then` handler, so it receives not only a rejected
    cache lookup but also the rejection of the fetch-and-cache promise that the
    `.then` handler returns on a miss: when the network fails on a miss, it is
    called a second time.  CachePolicy.FetchStep is the corrected handler, in
    which only a rejected lookup falls back to the network. */
module AsWritten {
  import opened Http
  import opened CachePolicy

  /** A miss whose network call fails: the case in which the written chain
      differs from the intended one. */
  predicate FailedMiss(store: Store, req: Request, lookupFails: bool, net: NetResult)
  {
    BypassRule(req).None? && !lookupFails && !Hit(store, req, lookupFails) && net.Err?
  }

  /** The handler as written; `retry` is what the network yields to the
      second call. */
  function FetchStepAsWritten(store: Store, req: Request, lookupFails: bool, net: NetResult,
                              retry: NetResult): (s: Step)
    ensures FailedMiss(store, req, lookupFails, net) ==>
              Count(s.effects, NetworkCall) == 2
              && s.outcome == (if retry.Ok? then Responded(retry.response) else Failed)
              && s.store == FetchAndCacheStep(store, req, retry).store
    ensures !FailedMiss(store, req, lookupFails, net) ==> s == FetchStep(store, req, lookupFails, net)
  {
    var lookup := [Effect(CacheLookup, req)];
    match BypassRule(req)
    case Some(b) => Step(Declined(b), store, [])
    case None =>
      if !lookupFails && CacheableMethod(req) && req in store then
        Step(Responded(Some(store[req])), store, lookup)
      else
        var f := FetchAndCacheStep(store, req, net);
        if lookupFails || !f.outcome.Failed? then
          Step(f.outcome, f.store, lookup + f.effects)
        else
          var g := FetchAndCacheStep(f.store, req, retry);
          CountAppend(lookup, f.effects, NetworkCall);
          CountAppend(lookup + f.effects, g.effects, NetworkCall);
          Step(g.outcome, g.store, lookup + f.effects + g.effects)
  }

  /** Offline, a first request for "app.js" calls the network twice as written
      and once in the corrected handler, which fails at the first error. */
  lemma OfflineMissFetchesTwice()
    ensures Count(FetchStepAsWritten(map[], Get("app.js"), false, Err, Err).effects, NetworkCall) == 2
    ensures Count(FetchStep(map[], Get("app.js"), false, Err).effects, NetworkCall) == 1
    ensures FetchStep(map[], Get("app.js"), false, Err).outcome == Failed
  {
  }
}
