# Offline-caching service worker, modelled in Dafny

The service worker of a small progressive web app (`dist/service-worker.js`)
keeps one named cache, `"afterSchoolClub-v1"`. It does three things:

- **Install.** It opens the cache and seeds it with the manifest `["index.html"]`
  through `Cache.addAll`.
- **Fetch.** It handles every request of the page it controls. It declines
  `chrome-extension://` URLs, and then `POST` requests, without touching
  anything. For every other request it looks in the cache first and uses the
  network only on a miss or a rejected lookup.
- **Fetch-and-cache.** It calls the network and writes a copy of the response
  back only when the response is present, has status 200 and has type
  `"basic"` (and the Cache API refuses to store or match anything but a GET
  request). It always returns the response it got, and it passes a network
  error on to its caller.

The model has four modules:

- `Http` (types.dfy): requests, responses and what one network call yields.
  A request is identified by its URL and method. A manifest path becomes a GET
  request, as `Cache.addAll` makes it.
- `CachePolicy` (policy.dfy): the policy as pure functions over a
  `map<Request, Response>`.
  - `FetchStep` and `FetchAndCacheStep` return an outcome, the new cache and an
    effect trace. Their contracts count cache lookups, network calls and cache
    writes.
  - `InstallStep` and `FetchBatch` model install seeding. It is all or nothing,
    as `Cache.addAll` is defined in the W3C Service Workers specification.
  - Lemmas relate several calls to each other: repeated requests, installing
    twice, and the concrete scenarios.
- `ServiceWorker` (worker.dfy): class `Worker`.
  - Its field `cache` is the store, updated in place.
  - Its ghost field `log` records the fetch handler's effects.
  - Methods: `Install`, `HandleFetch` and `FetchAndCache` are each proved
    equal to the `CachePolicy` function that specifies it. The store's own
    `Match` and `Put` carry their own contracts.
  - Its constant `name` is `CacheName`, the cache that install opens and
    fetch-and-cache writes to.
- `AsWritten` (as_written.dfy): the promise chain of the fetch handler exactly
  as written. It differs from the handler's evident intent in one case (see
  Findings).

The network, a lookup that rejects, and a cache that fails to open are
inputs to the model:

- A network call is a `NetResult`: `Ok(response)`, where the response may be
  absent, or `Err`.
- `lookupFails` says that the lookup rejects.
- `opens` says whether the cache opens; install takes a function from request
  to `NetResult`.

`caches.match` searches every cache of the origin. Here it searches the one
named cache (see "Left out").

## Model

| member | source | states |
|---|---|---|
| `CachePolicy.BypassRule` | dist/service-worker.js:17-25 | A request is passed through exactly when its URL starts with `chrome-extension://` or its method is `POST`. The URL rule is checked first, so an extension URL is declined for that reason even when it is a POST. |
| `CachePolicy.FetchAndCacheStep` | dist/service-worker.js:36-52 | Exactly one network call and no lookup. The network's response is returned unchanged, or `Failed` when the network rejects. There is one write exactly when the response is present, status 200 and type "basic" and the request is a GET; `cache.put` rejects any other method, and that rejection is not handled. After that write the request maps to a copy of the response and every other key keeps its value. In every other case the cache is unchanged. |
| `CachePolicy.FetchStep` | dist/service-worker.js:16-34 | The corrected handler; see ## Findings. Declined exactly for an extension URL or a POST, with no effect and the cache unchanged. Every other request is looked up once. Only a GET can hit. A hit returns the stored response with no network call and no write. A miss or a rejected lookup makes exactly one network call and returns its result. A write happens, at most once, exactly when a miss fetched an eligible response to a GET, and then the cache is the old one with the request set to that response. `Failed` happens exactly when a miss meets a network error, and the cache is then unchanged. |
| `CachePolicy.RepeatedRequestHits` | dist/service-worker.js:28-47 | After a fetch that wrote back, the identical request is a hit on the stored copy. It makes no network call and does not change the cache. |
| `CachePolicy.IneligibleNeverCached` | dist/service-worker.js:38-40 | An absent response, or one that is not status 200 with type "basic" (404, 500, "opaque", "cors"), is never written to the cache. |
| `CachePolicy.OtherMethodsNeverCached` | dist/service-worker.js:27-47 | A request that is not bypassed and not a GET (PUT, DELETE, PATCH, HEAD) makes exactly one network call and returns its result. It is never written, so it is never served from the cache. |
| `CachePolicy.FetchBatch` | dist/service-worker.js:11 | The fetch phase of `addAll` succeeds exactly when every manifest request yields a present response with an ok status other than 206. The batch's keys are then exactly the manifest's requests, each mapped to the response the network gave for it. |
| `CachePolicy.InstallStep` | dist/service-worker.js:8-12 | Install succeeds exactly when the cache opens, the manifest has no duplicates and every fetch is accepted. It then adds every manifest request with its fetched response and keeps every other entry. A failed install (`None`) leaves the cache unchanged. |
| `CachePolicy.InstallTwiceSameKeys` | dist/service-worker.js:2-12 | After a successful install, a second install with the same manifest leaves the key set unchanged, whatever its outcome. With the same network answers it gives back the same cache. |
| `CachePolicy.InstallFromEmptyKeys` | dist/service-worker.js:2-12 | Installing into an empty cache gives exactly the manifest's keys. |
| `CachePolicy.InstalledIndexIsHit` | dist/service-worker.js:2-29 | After a successful install of `["index.html"]`, a GET of "index.html" is served from the cache with the installed response. It makes no network call. |
| `CachePolicy.AppJsFirstLoadThenHit` | dist/service-worker.js:28-47 | "app.js" is not cached at first. It makes one network call, and its 200 "basic" response is returned and stored. The repeated request is then a hit with no network call. |
| `CachePolicy.PostSubmitDeclined` | dist/service-worker.js:22-25 | A POST to "/api/submit" is declined, with no effect and the cache unchanged. |
| `ServiceWorker.Worker.Install` | dist/service-worker.js:6-14 | The install handler updates the cache in place exactly as `InstallStep` says for the constant manifest. The cache is unchanged on failure, and on success it holds every manifest entry. |
| `ServiceWorker.Worker.Match` | dist/service-worker.js:28 | The lookup rejects exactly when told to. Otherwise it finds a response exactly when the request is a GET and a key, and the response it finds is the stored one. |
| `ServiceWorker.Worker.Put` | dist/service-worker.js:43-45 | A GET is accepted: the cache maps the request to the given response, every other entry is unchanged, and the write is logged. Any other method is rejected, and the cache and log are unchanged. |
| `ServiceWorker.Worker.FetchAndCache` | dist/service-worker.js:36-52 | The outcome, the new cache and the logged effects are those of `FetchAndCacheStep` on the old cache. |
| `ServiceWorker.Worker.HandleFetch` | dist/service-worker.js:16-34 | The corrected handler; see ## Findings. The outcome, the new cache and the logged effects are those of `FetchStep` on the old cache. |
| `AsWritten.FetchStepAsWritten` | dist/service-worker.js:27-33 | As written, a miss whose network call fails calls the network a second time, and the second result is the outcome. In every other case the handler is identical to `FetchStep`. |
| `AsWritten.OfflineMissFetchesTwice` | dist/service-worker.js:28-32 | Offline, a first GET of "app.js" makes two network calls as written. The corrected handler makes one call and fails. |

## Left out

- Logging (`console.log`, `console.error`): it does not change behaviour.
- Promise timing, `waitUntil` and `respondWith` scheduling: not modelled. The
  fire-and-forget write of fetch-and-cache is part of the same step. The one
  failing write that is modelled is `cache.put` rejecting a request that is
  not a GET. Other failures of the write at lines 43-44 are not modelled: a
  `caches.open` that rejects, or a put that fails for another reason such as
  storage quota. The model writes in those cases too.
- Concurrent events sharing the cache: interleaving is out of scope. Each
  step runs alone.
- Real request matching (URL normalisation, `Vary`, `ignoreMethod`): requests
  are compared as (URL, method) values.
- CachePolicy.FetchAndCacheStep (and with it `FetchStep`,
  `RepeatedRequestHits` and `ServiceWorker.Worker.Put`): `cache.put` also
  rejects a URL whose scheme is not http or https, as at line 44. The model
  does not capture this, because URLs are abstract and taken as already
  resolved against the worker's scope. An eligible GET of such a URL that is
  not `chrome-extension://` (a `moz-extension://` URL, say) is written and
  then served in the model. In the browser, the put would reject, unhandled,
  and the request would always go to the network. The method rule (only GET
  is stored or matched) is modelled.
- Real `fetch` behaviour: the network is an input.
- Response bodies and single consumption: `clone` is a value copy.
- Deleting caches under old names, and worker activation: the worker does
  neither; the browser owns activation.
- CachePolicy.FetchStep and `ServiceWorker.Worker.Match`: a lookup searches
  only the cache named `CacheName`. `caches.match` at line 28 searches every
  cache of the origin (a CacheStorage), in creation order. Caches left under
  an earlier cache name are never deleted, so after a rename an old cache
  could still answer a lookup that the model treats as a miss. The code as it
  stands creates only this one cache.
- CachePolicy.FetchAndCacheStep and `CachePolicy.FetchBatch`: headers are not
  modelled. `addAll` (line 11) and `cache.put` (line 44) both reject a
  response with `Vary: *`. In the model such a response is seeded or written
  back, and then served. In the browser, the install would fail, or the put
  would reject unhandled and the request would always go to the network.
- ServiceWorker.Worker.Install: its effect log does not record the network
  fetches of `addAll`. They run in parallel inside the browser, so their
  order is not defined.

## Findings

| source | as written | input that shows it | evidently intended | confidence | as-written member | corrected member |
|---|---|---|---|---|---|---|
| dist/service-worker.js:28-32 | `.catch` is chained after `.then`, so it also catches the rejection of `fetchAndCache` returned on a miss. It then calls `fetchAndCache` again, so the network is called twice and the second result decides. | A GET of "app.js", not cached, with the network failing | Only a rejected lookup falls back to the network. A miss calls the network exactly once, and a network error fails the request with no retry. | not executed; high | `AsWritten.FetchStepAsWritten`, `AsWritten.OfflineMissFetchesTwice` | `CachePolicy.FetchStep` |
