/** Values the service worker receives from, and hands back to, the browser. */
module Http {

  datatype Option<+T> = None | Some(value: T)

  /** An intercepted request. Only the URL and the method are inspected. */
  datatype Request = Request(url: string, httpMethod: string)

  /** A response: its status code and its type ("basic", "cors", "opaque", ...).
      The body is not modelled, so cloning a response is a value copy. */
  datatype Response = Response(status: int, kind: string)

  /** What one call of the network `fetch` yields: it resolves with a response
      value (which the worker still tests for presence) or rejects. */
  datatype NetResult = Ok(response: Option<Response>) | Err

  /** The request that `Cache.addAll` builds from a manifest path. */
  function Get(path: string): Request
  {
    Request(path, "GET")
  }
}
