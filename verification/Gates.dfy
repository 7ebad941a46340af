/** The gate on blobs: what each HTTP request does to it, and what it holds after any run. */
module Gates {
  import opened Prelude
  import opened Text
  import opened Image
  import opened Policy
  import opened Quarantine
  import opened Engines
  import opened ProxyPaths

  /** The fields of a manifest body that matter; a body that is not JSON decodes to `None`. */
  datatype Payload = Payload(config: Option<string>, layers: seq<string>)

  datatype Fetched = NotFetched | Fetched(payload: Option<Payload>)

  datatype HttpRequest = HttpRequest(verb: string, path: string, uri: string)

  datatype Status = StatusOK | Forbidden | NotFound | MethodNotAllowed | BadGateway | InternalError

  function BlobKey(registry: string, repository: string, digest: string): string {
    registry + "\n" + repository + "\n" + digest
  }

  function NonEmpty(layers: seq<string>): seq<string> {
    if layers == [] then []
    else NonEmpty(layers[..|layers| - 1]) + if layers[|layers| - 1] != "" then [layers[|layers| - 1]] else []
  }

  /** `manifestBlobDigests`, after decoding. */
  function BlobDigests(payload: Option<Payload>): seq<string> {
    match payload
    case None => []
    case Some(p) => (if p.config.Some? && p.config.value != "" then [p.config.value] else []) + NonEmpty(p.layers)
  }

  method CollectDigests(payload: Option<Payload>) returns (digests: seq<string>)
    ensures digests == BlobDigests(payload)
  {
    if payload.None? { return []; }
    var p := payload.value;
    digests := [];
    if p.config.Some? && p.config.value != "" { digests := digests + [p.config.value]; }
    ghost var head := digests;
    for i := 0 to |p.layers|
      invariant digests == head + NonEmpty(p.layers[..i])
    {
      assert p.layers[..i + 1][..i] == p.layers[..i];
      if p.layers[i] != "" { digests := digests + [p.layers[i]]; }
    }
    assert p.layers[..|p.layers|] == p.layers;
  }

  function Keys(registry: string, repository: string, digests: seq<string>): set<string> {
    set d | d in digests :: BlobKey(registry, repository, d)
  }

  /** The request that a manifest request puts to the engine. */
  function ManifestRequest(q: ProxyRequest, http: HttpRequest): Request {
    Request(ProxyImageRef(q.registry, q.repository, NormalizeManifestReference(q.reference)), "", http.verb, http.uri)
  }

  /** The tables and logs behind the engine, and the blobs that may be fetched. */
  datatype Gate = Gate(world: World, keys: set<string>)

  /** One HTTP request with what the outside world answers to it. */
  datatype Exchange = Exchange(http: HttpRequest, answers: Answers, fetched: Fetched, blobFetched: bool)

  /** What follows the decision about a manifest. */
  function Serve(g: Gate, w: World, outcome: Outcome, parsed: bool, q: ProxyRequest, x: Exchange): (Gate, Status) {
    if outcome.failure.Some? then (Gate(w, g.keys), InternalError)
    else if !outcome.decision.allowed then (Gate(w, g.keys), Forbidden)
    else if !parsed then (Gate(w, g.keys), InternalError)
    else if x.fetched.NotFetched? then (Gate(w, g.keys), BadGateway)
    else (Gate(w, g.keys + Keys(q.registry, q.repository, BlobDigests(x.fetched.payload))), StatusOK)
  }

  ghost function HandleManifest(g: Gate, config: Config, audited: bool, q: ProxyRequest, x: Exchange): (Gate, Status) {
    var request := ManifestRequest(q, x.http);
    var (w, outcome) := DecideRequest(g.world, config, request, audited, x.answers);
    Serve(g, w, outcome, ParseReference(request.imageRef).Ok?, q, x)
  }

  function HandleBlob(g: Gate, q: ProxyRequest, x: Exchange): Status {
    if BlobKey(q.registry, q.repository, q.reference) !in g.keys then Forbidden
    else if x.blobFetched then StatusOK
    else BadGateway
  }

  /** `handleV2` */
  ghost function Handle(g: Gate, config: Config, audited: bool, x: Exchange): (Gate, Status) {
    if x.http.path == "/v2" || x.http.path == "/v2/" then (g, StatusOK)
    else if x.http.verb != "GET" && x.http.verb != "HEAD" then (g, MethodNotAllowed)
    else
      match ParseProxyRequest(x.http.path)
      case Err(_) => (g, NotFound)
      case Ok(q) => if q.kind.Manifest? then HandleManifest(g, config, audited, q, x) else (g, HandleBlob(g, q, x))
  }

  // ---------------------------------------------------------------- every answer

  /** The manifest body lists the digest, as its configuration or as one of its layers. */
  predicate Lists(payload: Option<Payload>, digest: string) {
    payload.Some? && digest != "" && (payload.value.config == Some(digest) || digest in payload.value.layers)
  }

  lemma {:induction false} NonEmptyLists(layers: seq<string>, digest: string)
    ensures digest in NonEmpty(layers) <==> digest != "" && digest in layers
  {
    if layers != [] {
      var n := |layers| - 1;
      NonEmptyLists(layers[..n], digest);
      assert layers == layers[..n] + [layers[n]];
    }
  }

  lemma {:induction false} DigestsAreListed(payload: Option<Payload>, digest: string)
    ensures digest in BlobDigests(payload) <==> Lists(payload, digest)
  {
    if payload.Some? { NonEmptyLists(payload.value.layers, digest); }
  }

  /** The path asks for a manifest or a blob, by a method that fetches. */
  predicate Fetching(x: Exchange, kind: Kind, q: ProxyRequest) {
    && x.http.path != "/v2" && x.http.path != "/v2/" && (x.http.verb == "GET" || x.http.verb == "HEAD")
    && ParseProxyRequest(x.http.path) == Ok(q) && q.kind == kind
  }

  /** The image that a manifest request is about, in the form that the engine is asked for. */
  function ImageText(q: ProxyRequest): string {
    var reference := NormalizeManifestReference(q.reference);
    q.registry + "/" + q.repository + (if ':' in reference then "@" + reference else ":" + reference)
  }

  /**
   A manifest request: the engine is asked about its image, with its method and URI and no user. The answer is 200 if
   and only if the engine allows without error and the manifest is fetched, 403 if and only if it denies without
   error, and otherwise an error of the engine or of the fetch. The tables and logs are as the engine leaves them,
   and a 200 adds exactly the blobs that the manifest lists, for that registry and repository.
   */
  lemma {:induction false} ManifestAnswered(g: Gate, config: Config, audited: bool, x: Exchange, q: ProxyRequest)
    requires Fetching(x, Manifest, q)
    ensures var request := Request(ImageText(q), "", x.http.verb, x.http.uri);
            var (w, Outcome(d, failure)) := DecideRequest(g.world, config, request, audited, x.answers);
            var (after, status) := Handle(g, config, audited, x);
            && after.world == w
            && (status == StatusOK <==> failure.None? && d.allowed && x.fetched.Fetched?)
            && (status == Forbidden <==> failure.None? && !d.allowed)
            && (status == BadGateway <==> failure.None? && d.allowed && x.fetched.NotFetched?)
            && (status == InternalError <==> failure.Some?)
            && forall key :: key in after.keys <==>
                 || key in g.keys
                 || (status == StatusOK
                     && exists d :: Lists(x.fetched.payload, d) && key == q.registry + "\n" + q.repository + "\n" + d)
  {
    var request := ManifestRequest(q, x.http);
    assert request.imageRef == ImageText(q);
    AllowedMeansParsed(g.world, config, request, audited, x.answers);
    var (after, status) := Handle(g, config, audited, x);
    if status == StatusOK {
      forall key ensures key in after.keys <==>
        key in g.keys || exists d :: Lists(x.fetched.payload, d) && key == q.registry + "\n" + q.repository + "\n" + d
      {
        KeysAreListed(q, x.fetched.payload, key);
      }
    }
  }

  lemma {:induction false} KeysAreListed(q: ProxyRequest, payload: Option<Payload>, key: string)
    ensures key in Keys(q.registry, q.repository, BlobDigests(payload)) <==>
            exists d :: Lists(payload, d) && key == q.registry + "\n" + q.repository + "\n" + d
  {
    forall d ensures d in BlobDigests(payload) <==> Lists(payload, d) { DigestsAreListed(payload, d); }
  }

  /** A blob request: 200 if and only if its key is there and the blob is fetched, 403 if and only if it is not. */
  lemma {:induction false} BlobAnswered(g: Gate, config: Config, audited: bool, x: Exchange, q: ProxyRequest)
    requires Fetching(x, Blob, q)
    ensures var (after, status) := Handle(g, config, audited, x);
            var known := q.registry + "\n" + q.repository + "\n" + q.reference in g.keys;
            && after == g
            && (status == StatusOK <==> known && x.blobFetched) && (status == Forbidden <==> !known)
            && (status == BadGateway <==> known && !x.blobFetched)
  {
  }

  /** All other requests leave everything as it is: the version check, other methods, other paths. */
  lemma {:induction false} OthersAnswered(g: Gate, config: Config, audited: bool, x: Exchange)
    requires forall kind, q :: !Fetching(x, kind, q)
    ensures Handle(g, config, audited, x)
            == (g, if x.http.path == "/v2" || x.http.path == "/v2/" then StatusOK
                   else if x.http.verb == "GET" || x.http.verb == "HEAD" then NotFound
                   else MethodNotAllowed)
  {
    var parsed := ParseProxyRequest(x.http.path);
    if parsed.Ok? { assert !Fetching(x, parsed.value.kind, parsed.value); }
  }

  // ---------------------------------------------------------------- runs of the proxy

  ghost function RunGate(g: Gate, config: Config, audited: bool, xs: seq<Exchange>): Gate
    decreases |xs|
  {
    if xs == [] then g else Handle(RunGate(g, config, audited, xs[..|xs| - 1]), config, audited, xs[|xs| - 1]).0
  }

  datatype BlobName = BlobName(registry: string, repository: string, digest: string)

  function KeyOf(b: BlobName): string {
    BlobKey(b.registry, b.repository, b.digest)
  }

  function KeysOf(blobs: set<BlobName>): set<string> {
    set b | b in blobs :: KeyOf(b)
  }

  /** The blobs of a manifest that was fetched after an allow without error. */
  function Listed(outcome: Outcome, q: ProxyRequest, x: Exchange): set<BlobName> {
    if outcome.failure.None? && outcome.decision.allowed && x.fetched.Fetched? then
      set d | d in BlobDigests(x.fetched.payload) :: BlobName(q.registry, q.repository, d)
    else {}
  }

  ghost function ExposedByManifest(w: World, config: Config, audited: bool, q: ProxyRequest, x: Exchange)
    : set<BlobName>
  {
    Listed(DecideRequest(w, config, ManifestRequest(q, x.http), audited, x.answers).1, q, x)
  }

  /** The blobs that one exchange exposes: those listed by the manifest of an allowed manifest request. */
  ghost function ExposedBy(w: World, config: Config, audited: bool, x: Exchange): set<BlobName> {
    if x.http.path == "/v2/" || (x.http.verb != "GET" && x.http.verb != "HEAD") then {}
    else
      match ParseProxyRequest(x.http.path)
      case Err(_) => {}
      case Ok(q) => if q.kind.Manifest? then ExposedByManifest(w, config, audited, q, x) else {}
  }

  /** The blobs exposed during a run, each exchange finding the store as the earlier ones left it. */
  ghost function Exposed(g: Gate, config: Config, audited: bool, xs: seq<Exchange>): set<BlobName>
    decreases |xs|
  {
    if xs == [] then {}
    else
      var n := |xs| - 1;
      var before := RunGate(g, config, audited, xs[..n]).world;
      Exposed(g, config, audited, xs[..n]) + ExposedBy(before, config, audited, xs[n])
  }

  lemma {:induction false} AllowedMeansParsed(w: World, config: Config, request: Request, audited: bool, a: Answers)
    ensures DecideRequest(w, config, request, audited, a).1.failure.None? ==> ParseReference(request.imageRef).Ok?
  {
  }

  lemma {:induction false} KeysOfListed(registry: string, repository: string, digests: seq<string>)
    ensures KeysOf(set d | d in digests :: BlobName(registry, repository, d)) == Keys(registry, repository, digests)
  {
    var blobs := set d | d in digests :: BlobName(registry, repository, d);
    forall key | key in Keys(registry, repository, digests) ensures key in KeysOf(blobs) {
      var d :| d in digests && BlobKey(registry, repository, d) == key;
      assert BlobName(registry, repository, d) in blobs;
      assert KeyOf(BlobName(registry, repository, d)) == key;
    }
  }

  lemma {:induction false} ServeKeys(g: Gate, w: World, outcome: Outcome, parsed: bool, q: ProxyRequest, x: Exchange)
    requires outcome.failure.None? ==> parsed
    ensures Serve(g, w, outcome, parsed, q, x).0.keys == g.keys + KeysOf(Listed(outcome, q, x))
  {
    if x.fetched.Fetched? {
      KeysOfListed(q.registry, q.repository, BlobDigests(x.fetched.payload));
    }
  }

  lemma {:induction false} ManifestKeys(g: Gate, config: Config, audited: bool, q: ProxyRequest, x: Exchange)
    ensures HandleManifest(g, config, audited, q, x).0.keys
            == g.keys + KeysOf(ExposedByManifest(g.world, config, audited, q, x))
  {
    var request := ManifestRequest(q, x.http);
    var (w, outcome) := DecideRequest(g.world, config, request, audited, x.answers);
    AllowedMeansParsed(g.world, config, request, audited, x.answers);
    ServeKeys(g, w, outcome, ParseReference(request.imageRef).Ok?, q, x);
  }

  lemma {:induction false} HandleKeys(g: Gate, config: Config, audited: bool, x: Exchange)
    ensures Handle(g, config, audited, x).0.keys == g.keys + KeysOf(ExposedBy(g.world, config, audited, x))
  {
    if ParseProxyRequest(x.http.path).Ok? {
      ManifestKeys(g, config, audited, ParseProxyRequest(x.http.path).value, x);
    }
  }

  lemma {:induction false} KeysOfUnion(a: set<BlobName>, b: set<BlobName>)
    ensures KeysOf(a + b) == KeysOf(a) + KeysOf(b)
  {
    forall key | key in KeysOf(a) + KeysOf(b) ensures key in KeysOf(a + b) {
      var blob :| blob in a + b && KeyOf(blob) == key;
    }
  }

  /**
   The gate holds exactly the keys of the blobs exposed so far: each key comes from an earlier manifest
   request that was allowed without error and whose manifest lists that digest for the same registry and
   repository.
   */
  lemma {:induction false} GateHoldsExposedBlobs(g: Gate, config: Config, audited: bool, xs: seq<Exchange>)
    requires g.keys == {}
    ensures RunGate(g, config, audited, xs).keys == KeysOf(Exposed(g, config, audited, xs))
    decreases |xs|
  {
    if xs != [] {
      var n := |xs| - 1;
      var before := RunGate(g, config, audited, xs[..n]);
      GateHoldsExposedBlobs(g, config, audited, xs[..n]);
      HandleKeys(before, config, audited, xs[n]);
      KeysOfUnion(Exposed(g, config, audited, xs[..n]), ExposedBy(before.world, config, audited, xs[n]));
    }
  }

  ghost predicate ExposedAt(g: Gate, config: Config, audited: bool, xs: seq<Exchange>, k: nat, b: BlobName) {
    k < |xs| && b in ExposedBy(RunGate(g, config, audited, xs[..k]).world, config, audited, xs[k])
  }

  lemma {:induction false} ExposedInPrefix(g: Gate, config: Config, audited: bool, xs: seq<Exchange>, n: nat, k: nat,
                                           b: BlobName)
    requires n <= |xs| && ExposedAt(g, config, audited, xs[..n], k, b)
    ensures ExposedAt(g, config, audited, xs, k, b)
  {
    assert xs[..n][..k] == xs[..k];
  }

  /** Every exposed blob was exposed by one particular earlier request. */
  lemma {:induction false} ExposingRequest(g: Gate, config: Config, audited: bool, xs: seq<Exchange>, b: BlobName)
    returns (k: nat)
    requires b in Exposed(g, config, audited, xs)
    ensures ExposedAt(g, config, audited, xs, k, b)
    decreases |xs|
  {
    var n := |xs| - 1;
    if b in Exposed(g, config, audited, xs[..n]) {
      k := ExposingRequest(g, config, audited, xs[..n], b);
      ExposedInPrefix(g, config, audited, xs, n, k, b);
    } else {
      k := n;
    }
  }

  /** The set only grows. */
  lemma {:induction false} GateGrows(g: Gate, config: Config, audited: bool, xs: seq<Exchange>, k: nat)
    requires k <= |xs|
    ensures RunGate(g, config, audited, xs[..k]).keys <= RunGate(g, config, audited, xs).keys
    decreases |xs|
  {
    if k == |xs| {
      assert xs[..k] == xs;
    } else {
      assert xs[..|xs| - 1][..k] == xs[..k];
      GateGrows(g, config, audited, xs[..|xs| - 1], k);
      HandleKeys(RunGate(g, config, audited, xs[..|xs| - 1]), config, audited, xs[|xs| - 1]);
    }
  }

  // ---------------------------------------------------------------- keys as strings

  predicate OneLine(s: string) {
    '\n' !in s
  }

  lemma {:induction false} LinesOfKey(registry: string, repository: string, digest: string)
    ensures var s := BlobKey(registry, repository, digest);
            var i, j := |registry|, |registry| + 1 + |repository|;
            && j < |s| && s[i] == '\n' && s[j] == '\n'
            && s[..i] == registry && s[i + 1..j] == repository && s[j + 1..] == digest
  {
  }

  lemma {:induction false} NewlinesOfKey(registry: string, repository: string, digest: string)
    requires OneLine(registry) && OneLine(repository) && OneLine(digest)
    ensures var s := BlobKey(registry, repository, digest);
            forall k :: 0 <= k < |s| && s[k] == '\n' ==> k == |registry| || k == |registry| + 1 + |repository|
  {
    var s := BlobKey(registry, repository, digest);
    var i, j := |registry|, |registry| + 1 + |repository|;
    forall k | 0 <= k < i ensures s[k] == registry[k] { }
    forall k | i < k < j ensures s[k] == repository[k - i - 1] { }
    forall k | j < k < |s| ensures s[k] == digest[k - j - 1] { }
  }

  /** A key of three lines determines its parts, whatever the other name looks like. */
  lemma {:induction false} KeyDeterminesBlob(b: BlobName, c: BlobName)
    requires OneLine(b.registry) && OneLine(b.repository) && OneLine(b.digest)
    requires KeyOf(b) == KeyOf(c)
    ensures b == c
  {
    LinesOfKey(b.registry, b.repository, b.digest);
    LinesOfKey(c.registry, c.repository, c.digest);
    NewlinesOfKey(b.registry, b.repository, b.digest);
  }

  /** A digest of several lines makes a key that belongs to another blob as well. */
  lemma {:induction false} LongDigestIsAmbiguous(b: BlobName) returns (c: BlobName)
    requires !OneLine(b.digest)
    ensures KeyOf(c) == KeyOf(b) && !OneLine(c.repository)
  {
    var i :| 0 <= i < |b.digest| && b.digest[i] == '\n';
    c := BlobName(b.registry, b.repository + "\n" + b.digest[..i], b.digest[i + 1..]);
    assert c.repository[|b.repository|] == '\n';
    assert b.digest == b.digest[..i] + "\n" + b.digest[i + 1..];
  }

  lemma {:induction false} PartsAreOneLine(registry: string, repository: string, tail: string, s: string)
    requires s == registry + "/" + repository + tail && OneLine(s)
    ensures OneLine(registry) && OneLine(repository)
  {
    forall k | 0 <= k < |registry| ensures registry[k] != '\n' { assert registry[k] == s[k]; }
    forall k | 0 <= k < |repository| ensures repository[k] != '\n' { assert repository[k] == s[|registry| + 1 + k]; }
  }

  lemma {:induction false} ParsedIsOneLine(s: string)
    requires ParseReference(s).Ok?
    ensures OneLine(s)
  {
    ParseStages(s);
  }

  lemma {:induction false} ImageRefIsOneLine(registry: string, repository: string, reference: string, s: string)
    requires s == ProxyImageRef(registry, repository, reference) && OneLine(s)
    ensures OneLine(registry) && OneLine(repository)
  {
    var tail := (if ':' in reference then "@" else ":") + reference;
    assert s == registry + "/" + repository + tail;
    PartsAreOneLine(registry, repository, tail, s);
  }

  lemma {:induction false} OneExchange(w: World, config: Config, audited: bool, x: Exchange, b: BlobName)
    requires b in ExposedBy(w, config, audited, x)
    ensures OneLine(b.registry) && OneLine(b.repository)
  {
    var q := ParseProxyRequest(x.http.path).value;
    var request := ManifestRequest(q, x.http);
    AllowedMeansParsed(w, config, request, audited, x.answers);
    ParsedIsOneLine(request.imageRef);
    ImageRefIsOneLine(q.registry, q.repository, NormalizeManifestReference(q.reference), request.imageRef);
  }

  lemma {:induction false} ExposedNamesAreOneLine(g: Gate, config: Config, audited: bool, xs: seq<Exchange>,
                                                  b: BlobName)
    requires b in Exposed(g, config, audited, xs)
    ensures OneLine(b.registry) && OneLine(b.repository)
    decreases |xs|
  {
    var n := |xs| - 1;
    if b in Exposed(g, config, audited, xs[..n]) {
      ExposedNamesAreOneLine(g, config, audited, xs[..n], b);
    } else {
      OneExchange(RunGate(g, config, audited, xs[..n]).world, config, audited, xs[n], b);
    }
  }

  /** For a set of exposed blobs, looking up the string is the same as looking up the blob ... */
  lemma {:induction false} StringTestIsExact(blobs: set<BlobName>, c: BlobName)
    requires forall b :: b in blobs ==> OneLine(b.registry) && OneLine(b.repository) && OneLine(b.digest)
    ensures KeyOf(c) in KeysOf(blobs) <==> c in blobs
  {
    if KeyOf(c) in KeysOf(blobs) {
      var b :| b in blobs && KeyOf(b) == KeyOf(c);
      KeyDeterminesBlob(b, c);
    }
  }

  /** ... and with a digest of several lines it is not. */
  lemma {:induction false} StringTestIsNotExact(blobs: set<BlobName>, b: BlobName) returns (c: BlobName)
    requires forall b :: b in blobs ==> OneLine(b.registry) && OneLine(b.repository)
    requires b in blobs && !OneLine(b.digest)
    ensures KeyOf(c) in KeysOf(blobs) && c !in blobs
  {
    c := LongDigestIsAmbiguous(b);
  }

  /**
   The string test of the gate admits exactly the exposed blobs, for every lookup, if and only if no exposed
   digest contains a line end.
   */
  lemma {:induction false} GateIsExact(g: Gate, config: Config, audited: bool, xs: seq<Exchange>)
    requires g.keys == {}
    ensures var keys, blobs := RunGate(g, config, audited, xs).keys, Exposed(g, config, audited, xs);
            (forall c :: KeyOf(c) in keys <==> c in blobs) <==> (forall b :: b in blobs ==> OneLine(b.digest))
  {
    var blobs := Exposed(g, config, audited, xs);
    GateHoldsExposedBlobs(g, config, audited, xs);
    forall b | b in blobs ensures OneLine(b.registry) && OneLine(b.repository) {
      ExposedNamesAreOneLine(g, config, audited, xs, b);
    }
    if forall b :: b in blobs ==> OneLine(b.digest) {
      forall c ensures KeyOf(c) in KeysOf(blobs) <==> c in blobs {
        StringTestIsExact(blobs, c);
      }
    } else {
      var b :| b in blobs && !OneLine(b.digest);
      var c := StringTestIsNotExact(blobs, b);
    }
  }

  /** A blob is served only if an earlier manifest request exposed a blob with the same key. */
  lemma {:induction false} ServedBlobsWereExposed(g: Gate, config: Config, audited: bool, xs: seq<Exchange>,
                                                  x: Exchange)
    requires g.keys == {} && x.http.path != "/v2" && x.http.path != "/v2/"
    requires ParseProxyRequest(x.http.path).Ok? && ParseProxyRequest(x.http.path).value.kind.Blob?
    ensures var q := ParseProxyRequest(x.http.path).value;
            Handle(RunGate(g, config, audited, xs), config, audited, x).1 == StatusOK ==>
              exists b :: b in Exposed(g, config, audited, xs)
                          && KeyOf(b) == BlobKey(q.registry, q.repository, q.reference)
  {
    GateHoldsExposedBlobs(g, config, audited, xs);
  }

  /** After any run, a blob is served if and only if one with its key has been exposed and it can be fetched. */
  lemma {:induction false} BlobServedIff(g: Gate, config: Config, audited: bool, xs: seq<Exchange>, x: Exchange,
                                         q: ProxyRequest)
    requires g.keys == {} && Fetching(x, Blob, q)
    ensures var status := Handle(RunGate(g, config, audited, xs), config, audited, x).1;
            var exposed := exists b :: b in Exposed(g, config, audited, xs)
                                       && KeyOf(b) == BlobKey(q.registry, q.repository, q.reference);
            && (status == StatusOK <==> exposed && x.blobFetched)
            && (status == Forbidden <==> !exposed)
  {
    GateHoldsExposedBlobs(g, config, audited, xs);
    BlobAnswered(RunGate(g, config, audited, xs), config, audited, x, q);
  }

  // ---------------------------------------------------------------- the lookups that requests can make

  /** A blob path that asks for that blob. */
  predicate AsksFor(path: string, b: BlobName) {
    ParseProxyRequest(path) == Ok(ProxyRequest(Blob, b.registry, b.repository, b.digest))
  }

  /** A line end, but for one at the very end, which no path can be cut at. */
  predicate InnerLineEnd(digest: string) {
    exists i :: 0 <= i < |digest| - 1 && digest[i] == '\n'
  }

  /** A shared key cuts the digest of the exposed blob at one of its line ends. */
  lemma {:induction false} SharedKeyCutsDigest(b: BlobName, c: BlobName)
    requires OneLine(b.registry) && OneLine(b.repository) && KeyOf(b) == KeyOf(c) && b != c
    ensures |c.digest| < |b.digest| && b.digest[|b.digest| - |c.digest| - 1] == '\n'
  {
    var s := KeyOf(b);
    LinesOfKey(b.registry, b.repository, b.digest);
    LinesOfKey(c.registry, c.repository, c.digest);
    var j := |b.registry| + 1 + |b.repository|;
    var k := |c.registry| + 1 + |c.repository|;
    forall m | 0 <= m < j && m != |b.registry| ensures s[m] != '\n' {
      if m < |b.registry| { assert s[m] == b.registry[m]; } else { assert s[m] == b.repository[m - |b.registry| - 1]; }
    }
    assert |c.registry| < k && s[|c.registry|] == '\n' && s[k] == '\n';
    if k != j {
      assert k > j && s[k] == b.digest[k - j - 1];
    }
  }

  /** A path never asks for an empty digest, so no lookup confuses blobs whose digests have no inner line end. */
  lemma {:induction false} LookupIsExact(blobs: set<BlobName>, path: string, c: BlobName)
    requires forall b :: b in blobs ==> OneLine(b.registry) && OneLine(b.repository) && !InnerLineEnd(b.digest)
    requires AsksFor(path, c)
    ensures KeyOf(c) in KeysOf(blobs) <==> c in blobs
  {
    RequestShape(path);
    if KeyOf(c) in KeysOf(blobs) && c !in blobs {
      var b :| b in blobs && KeyOf(b) == KeyOf(c);
      SharedKeyCutsDigest(b, c);
      assert InnerLineEnd(b.digest);
    }
  }

  /** The repository can stand in a blob path, and the digest is one path component. */
  predicate Nameable(b: BlobName) {
    && HasExplicitRegistry(b.registry) && '/' !in b.registry && '/' !in b.digest
    && !Contains(b.registry + "/" + b.repository, "/manifests/")
    && !Contains(b.registry + "/" + b.repository, "/blobs/")
  }

  /** A word between two slashes, after a name and a line end, is found where it was put or not at all. */
  lemma {:induction false} WordAfterName(name: string, more: string, word: string, sep: string, i: nat)
    requires !Contains(name, sep) && '\n' !in sep && '/' !in more && more != "" && more[0] == '\n'
    requires |sep| > 2 && sep[0] == '/' && sep[|sep| - 1] == '/' && i < |name| + |more|
    requires forall k :: 0 < k < |sep| - 1 ==> sep[k] != '/'
    ensures !HasPrefix((name + more + word)[i..], sep)
  {
    var s := name + more + word;
    assert s[|name|] == '\n';
    if i >= |name| {
      assert s[i] == more[i - |name|];
      assert s[i..][0] == s[i];
    } else if i + |sep| <= |name| {
      assert s[i..][..|sep|] == name[i..][..|sep|];
      assert i <= |name| && !HasPrefix(name[i..], sep);
    } else {
      assert s[i..][|name| - i] == '\n';
      PrefixAt(s[i..], sep, |name| - i);
    }
  }

  lemma {:induction false} PrefixAt(s: string, sep: string, k: nat)
    requires k < |s| && k < |sep| && s[k] == '\n' && '\n' !in sep
    ensures !HasPrefix(s, sep)
  {
    assert |sep| <= |s| ==> s[..|sep|][k] == s[k];
  }

  lemma {:induction false} BlobPath(name: string, more: string, digest: string)
    requires !Contains(name, "/manifests/") && !Contains(name, "/blobs/") && name != "" && name[0] != '/'
    requires '/' !in more && more != "" && more[0] == '\n' && '/' !in digest && digest != ""
    ensures var rest := name + more + "/blobs/" + digest;
            Cut(rest, "/manifests/").None? && Cut(rest, "/blobs/") == Some((name + more, digest))
            && TrimChar(name + more, '/') == name + more && TrimChar(digest, '/') == digest
  {
    var before := name + more;
    var word := "/blobs/" + digest;
    var rest := before + "/blobs/" + digest;
    assert rest == name + more + word;
    forall i | 0 <= i <= |rest| ensures !HasPrefix(rest[i..], "/manifests/") {
      if i < |before| {
        WordAfterName(name, more, word, "/manifests/", i);
      } else {
        NoWordIn(rest[i..], word, i - |before|);
        assert rest[i..] == word[i - |before|..];
      }
    }
    CutNone(rest, "/manifests/");
    forall i | 0 <= i < |before| ensures !HasPrefix(rest[i..], "/blobs/") {
      WordAfterName(name, more, word, "/blobs/", i);
    }
    CutFirst(before, "/blobs/", digest);
    assert before[|before| - 1] == more[|more| - 1];
    NothingToTrim(before, '/');
    NothingToTrim(digest, '/');
  }

  lemma {:induction false} NoWordIn(s: string, word: string, i: nat)
    requires i <= |word| && s == word[i..] && |word| > 7 && word[..7] == "/blobs/" && '/' !in word[7..]
    ensures !HasPrefix(s, "/manifests/")
  {
    if i >= 7 {
      assert s != "" ==> s[0] == word[7..][i - 7];
    } else if i == 6 {
      assert |s| > 10 ==> s[10] == word[7..][9];
      assert |s| > 10 ==> s[..11][10] == s[10];
    } else {
      assert s[0] == word[..7][i] && s[1] == word[..7][i + 1];
      assert |s| > 10 ==> s[..11][0] == s[0] && s[..11][1] == s[1];
    }
  }

  lemma {:induction false} KeyIsShared(b: BlobName, c: BlobName, first: string, rest: string)
    requires b.digest == first + "\n" + rest
    requires c == BlobName(b.registry, b.repository + ("\n" + first), rest)
    ensures KeyOf(b) == KeyOf(c)
  {
  }

  lemma {:induction false} BlobPathAsks(registry: string, repository: string, more: string, digest: string,
                                        path: string)
    requires HasExplicitRegistry(registry) && '/' !in registry
    requires !Contains(registry + "/" + repository, "/manifests/") && !Contains(registry + "/" + repository, "/blobs/")
    requires '/' !in more && more != "" && more[0] == '\n' && '/' !in digest && digest != ""
    requires path == "/v2/" + (registry + "/" + repository + more + "/blobs/" + digest)
    ensures AsksFor(path, BlobName(registry, repository + more, digest))
  {
    var rest := registry + "/" + repository + more + "/blobs/" + digest;
    assert path[..4] == "/v2/" && path[4..] == rest;
    BlobPath(registry + "/" + repository, more, digest);
    ExplicitUpstream(registry, repository + more);
    assert registry + "/" + repository + more == registry + "/" + (repository + more);
  }

  /** A digest with an inner line end makes a path that asks for another blob with the same key. */
  lemma {:induction false} AmbiguousPath(b: BlobName) returns (path: string, c: BlobName)
    requires Nameable(b) && InnerLineEnd(b.digest)
    ensures AsksFor(path, c) && KeyOf(c) == KeyOf(b) && !OneLine(c.repository)
  {
    var i :| 0 <= i < |b.digest| - 1 && b.digest[i] == '\n';
    var more, digest := "\n" + b.digest[..i], b.digest[i + 1..];
    c := BlobName(b.registry, b.repository + more, digest);
    path := "/v2/" + (b.registry + "/" + b.repository + more + "/blobs/" + digest);
    assert b.digest == b.digest[..i] + "\n" + digest;
    assert c.repository[|b.repository|] == '\n';
    KeyIsShared(b, c, b.digest[..i], digest);
    BlobPathAsks(b.registry, b.repository, more, digest, path);
  }

  /**
   Over the lookups that requests can make: the string test admits exactly the exposed blobs, whatever blob path is
   asked for, if and only if no exposed digest has a line end before its last character. (A digest with a slash, or a
   repository with a component `blobs` or `manifests`, has blobs that no path can ask for.)
   */
  lemma {:induction false} LookupsAreExactIff(g: Gate, config: Config, audited: bool, xs: seq<Exchange>)
    requires g.keys == {}
    requires forall b :: b in Exposed(g, config, audited, xs) ==> Nameable(b)
    ensures var keys, blobs := RunGate(g, config, audited, xs).keys, Exposed(g, config, audited, xs);
            (forall path, c :: AsksFor(path, c) ==> (KeyOf(c) in keys <==> c in blobs))
            <==> (forall b :: b in blobs ==> !InnerLineEnd(b.digest))
  {
    var keys, blobs := RunGate(g, config, audited, xs).keys, Exposed(g, config, audited, xs);
    GateHoldsExposedBlobs(g, config, audited, xs);
    forall b | b in blobs ensures OneLine(b.registry) && OneLine(b.repository) {
      ExposedNamesAreOneLine(g, config, audited, xs, b);
    }
    if forall b :: b in blobs ==> !InnerLineEnd(b.digest) {
      forall path, c | AsksFor(path, c) ensures KeyOf(c) in keys <==> c in blobs {
        LookupIsExact(blobs, path, c);
      }
    } else {
      var b :| b in blobs && InnerLineEnd(b.digest);
      var path, c := AmbiguousPath(b);
      assert KeyOf(b) in KeysOf(blobs);
    }
  }
}
