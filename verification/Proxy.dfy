/** The proxy as an object that is updated in place, proved against `Gates`. */
module Proxy {
  import opened Prelude
  import opened Image
  import opened Quarantine
  import opened Engines
  import opened ProxyPaths
  import opened Gates

  class Server {
    const engine: Engine
    var allowedBlobs: set<string>

    constructor (engine: Engine)
      ensures this.engine == engine && allowedBlobs == {}
    {
      this.engine := engine;
      allowedBlobs := {};
    }

    ghost function Now(): Gate
      requires engine.store != null
      reads this, engine, engine.store
    {
      Gate(engine.Now(), allowedBlobs)
    }

    method HandleV2(x: Exchange) returns (status: Status)
      requires engine.store != null
      modifies this, engine, engine.store
      ensures (Now(), status) == Handle(old(Now()), engine.config, engine.audited, x)
    {
      if x.http.path == "/v2" || x.http.path == "/v2/" { return StatusOK; }
      if x.http.verb != "GET" && x.http.verb != "HEAD" { return MethodNotAllowed; }
      var q := ParseProxyRequest(x.http.path);
      if q.Err? { return NotFound; }
      if q.value.kind.Manifest? {
        status := ServeManifest(q.value, x);
      } else {
        status := ServeBlob(q.value, x);
      }
    }

    method ServeManifest(q: ProxyRequest, x: Exchange) returns (status: Status)
      requires engine.store != null
      modifies this, engine, engine.store
      ensures (Now(), status) == HandleManifest(old(Now()), engine.config, engine.audited, q, x)
    {
      var reference := NormalizeManifestReference(q.reference);
      var imageRef := ProxyImageRef(q.registry, q.repository, reference);
      var outcome := engine.Decide(Request(imageRef, "", x.http.verb, x.http.uri), x.answers);
      if outcome.failure.Some? { return InternalError; }
      if !outcome.decision.allowed { return Forbidden; }
      if ParseReference(imageRef).Err? { return InternalError; }
      if x.fetched.NotFetched? { return BadGateway; }
      RememberManifestBlobs(q.registry, q.repository, x.fetched.payload);
      status := StatusOK;
    }

    method ServeBlob(q: ProxyRequest, x: Exchange) returns (status: Status)
      requires engine.store != null
      ensures status == HandleBlob(Now(), q, x)
    {
      if BlobKey(q.registry, q.repository, q.reference) !in allowedBlobs { return Forbidden; }
      if !x.blobFetched { return BadGateway; }
      status := StatusOK;
    }

    method RememberManifestBlobs(registry: string, repository: string, payload: Option<Payload>)
      modifies `allowedBlobs
      ensures allowedBlobs == old(allowedBlobs) + Keys(registry, repository, BlobDigests(payload))
    {
      var digests := CollectDigests(payload);
      for i := 0 to |digests|
        invariant allowedBlobs == old(allowedBlobs) + Keys(registry, repository, digests[..i])
      {
        assert digests[..i + 1] == digests[..i] + [digests[i]];
        allowedBlobs := allowedBlobs + {BlobKey(registry, repository, digests[i])};
      }
      assert digests[..|digests|] == digests;
    }
  }
}
