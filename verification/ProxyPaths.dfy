/** The paths of the registry proxy (internal/proxy/server.go), and their agreement with the reference parser. */
module ProxyPaths {
  import opened Prelude
  import opened Text
  import opened Regex
  import opened Image
  import opened Spelling

  datatype Kind = Manifest | Blob

  datatype ProxyRequest = ProxyRequest(kind: Kind, registry: string, repository: string, reference: string)

  datatype PathError = UnsupportedPath | MissingPart | MissingUpstream

  /** `strings.Cut`: the text before and after the first occurrence of `sep`. */
  function Cut(s: string, sep: string): (r: Option<(string, string)>)
    ensures r.Some? ==> s == r.value.0 + sep + r.value.1
  {
    if HasPrefix(s, sep) then Some(("", s[|sep|..]))
    else if s == "" then None
    else
      var rest := Cut(s[1..], sep);
      if rest.None? then None else Some(([s[0]] + rest.value.0, rest.value.1))
  }

  function UpstreamRepository(repoPath: string): Result<(string, string), PathError> {
    var parts := Split(repoPath, '/');
    if HasExplicitRegistry(parts[0]) then
      if |parts| < 2 then Err(MissingUpstream) else Ok((parts[0], Join(parts[1..], '/')))
    else if |parts| == 1 then Ok((DEFAULT_REGISTRY, OFFICIAL_PREFIX + parts[0]))
    else Ok((DEFAULT_REGISTRY, repoPath))
  }

  function ParseRepositoryReference(before: string, after: string, kind: Kind): Result<ProxyRequest, PathError> {
    var repoPath := TrimChar(before, '/');
    var reference := TrimChar(after, '/');
    if repoPath == "" || reference == "" then Err(MissingPart)
    else
      match UpstreamRepository(repoPath)
      case Err(e) => Err(e)
      case Ok((registry, repository)) => Ok(ProxyRequest(kind, registry, repository, reference))
  }

  function ParseProxyRequest(path: string): Result<ProxyRequest, PathError> {
    if !HasPrefix(path, "/v2/") || path == "/v2/" then Err(UnsupportedPath)
    else
      var rest := path[4..];
      var manifest := Cut(rest, "/manifests/");
      if manifest.Some? then ParseRepositoryReference(manifest.value.0, manifest.value.1, Manifest)
      else
        var blob := Cut(rest, "/blobs/");
        if blob.Some? then ParseRepositoryReference(blob.value.0, blob.value.1, Blob)
        else Err(UnsupportedPath)
  }

  predicate HexDigit(c: char) {
    '0' <= c <= '9' || 'a' <= c <= 'f' || 'A' <= c <= 'F'
  }

  /** A digest written with a dash, as some clients do in tags. */
  function NormalizeManifestReference(reference: string): string {
    if |reference| == 71 && HasPrefix(reference, "sha256-") && forall i :: 7 <= i < 71 ==> HexDigit(reference[i])
    then "sha256:" + reference[7..]
    else reference
  }

  /** Sixty-four hexadecimal digits, in either case. */
  predicate Sha256Hex(hex: string) {
    && |hex| == 64
    && forall i :: 0 <= i < 64 ==> '0' <= hex[i] <= '9' || 'a' <= hex[i] <= 'f' || 'A' <= hex[i] <= 'F'
  }

  /** The dash becomes a colon exactly in the 64-digit form; everything else is left alone. */
  lemma {:induction false} NormalizesDigests(reference: string)
    ensures var hex := reference[Min(7, |reference|)..];
            if reference == "sha256-" + hex && Sha256Hex(hex) then
              NormalizeManifestReference(reference) == "sha256:" + hex
            else NormalizeManifestReference(reference) == reference
  {
    var hex := reference[Min(7, |reference|)..];
    if |reference| == 71 {
      forall i | 0 <= i < 64 ensures hex[i] == reference[7 + i] { }
      assert forall i :: 7 <= i < 71 ==> reference[i] == hex[i - 7];
    }
  }

  /** Two spellings of one digest: with a dash, as tags must have it, or with a colon. */
  predicate SpellsDigest(reference: string, hex: string) {
    reference == "sha256-" + hex || reference == "sha256:" + hex
  }

  lemma {:induction false} SpellingIsNormalized(reference: string, hex: string)
    requires Sha256Hex(hex) && SpellsDigest(reference, hex)
    ensures NormalizeManifestReference(reference) == "sha256:" + hex
  {
    NormalizesDigests(reference);
    if reference == "sha256-" + hex {
      assert reference[7..] == hex;
    } else {
      assert reference[6] == ':';
    }
  }

  lemma {:induction false} NormalizedChanges(reference: string) returns (hex: string)
    requires NormalizeManifestReference(reference) != reference
    ensures Sha256Hex(hex) && reference == "sha256-" + hex
  {
    NormalizesDigests(reference);
    hex := reference[Min(7, |reference|)..];
  }

  /**
   Normalizing identifies two references if and only if they are equal or two spellings of one digest, and
   normalizing again changes nothing.
   */
  lemma {:induction false} NormalizesSpellings(a: string, b: string)
    ensures NormalizeManifestReference(a) == NormalizeManifestReference(b) <==>
            a == b || exists hex :: Sha256Hex(hex) && SpellsDigest(a, hex) && SpellsDigest(b, hex)
    ensures NormalizeManifestReference(NormalizeManifestReference(a)) == NormalizeManifestReference(a)
  {
    var na, nb := NormalizeManifestReference(a), NormalizeManifestReference(b);
    if hex :| Sha256Hex(hex) && SpellsDigest(a, hex) && SpellsDigest(b, hex) {
      SpellingIsNormalized(a, hex);
      SpellingIsNormalized(b, hex);
    }
    if na != a {
      var hex := NormalizedChanges(a);
      SpellingIsNormalized(a, hex);
      SpellingIsNormalized(na, hex);
      if na == nb && nb != b { SameHex(a, b, hex); }
    }
    if nb != b {
      var hex := NormalizedChanges(b);
      SpellingIsNormalized(b, hex);
      if na == nb && na == a { assert SpellsDigest(a, hex) && SpellsDigest(b, hex); }
    }
  }

  lemma {:induction false} SameHex(a: string, b: string, hex: string)
    requires Sha256Hex(hex) && a == "sha256-" + hex
    requires NormalizeManifestReference(b) != b && NormalizeManifestReference(b) == NormalizeManifestReference(a)
    ensures a == b
  {
    var other := NormalizedChanges(b);
    SpellingIsNormalized(a, hex);
    SpellingIsNormalized(b, other);
    assert ("sha256:" + hex)[7..] == hex && ("sha256:" + other)[7..] == other;
  }

  function ProxyImageRef(registry: string, repository: string, reference: string): string {
    registry + "/" + repository + (if ':' in reference then "@" else ":") + reference
  }

  // ---------------------------------------------------------------- agreement with the reference parser

  lemma {:induction false} RequestShape(path: string)
    requires ParseProxyRequest(path).Ok?
    ensures var r := ParseProxyRequest(path).value;
            HasExplicitRegistry(r.registry) && '/' !in r.registry && r.reference != ""
  {
    assert DEFAULT_REGISTRY[6] == '.';
  }

  lemma {:induction false} NormalizedReferenceNonEmpty(reference: string)
    ensures reference != "" ==> NormalizeManifestReference(reference) != ""
  {
  }

  /** The reference parser takes the registry and the repository of a request apart again. */
  lemma {:induction false} NameAgrees(registry: string, repository: string)
    requires HasExplicitRegistry(registry) && '/' !in registry
    requires NormalizeName(registry + "/" + repository).Ok?
    ensures NormalizeName(registry + "/" + repository).value == (registry, repository)
  {
    SplitCons(registry, '/', repository);
    JoinSplit(repository, '/');
    assert Split(registry + "/" + repository, '/')[1..] == Split(repository, '/');
  }

  /** A name with a colon after the registry is refused. */
  lemma {:induction false} ColonInNameRefused(registry: string, rest: string)
    requires HasExplicitRegistry(registry) && '/' !in registry && ':' in rest
    ensures NormalizeName(registry + "/" + rest).Err?
  {
    SplitCons(registry, '/', rest);
    JoinSplit(rest, '/');
    assert Split(registry + "/" + rest, '/')[1..] == Split(rest, '/');
  }

  lemma {:induction false} SplitAtLeastTwo(s: string, sep: char)
    requires sep in s
    ensures |Split(s, sep)| >= 2
  {
  }

  /** The digest that was split off follows the last `@` and holds none. */
  lemma {:induction false} SplitDigestParts(s: string)
    requires SplitDigest(s).Ok?
    ensures var (named, digest) := SplitDigest(s).value;
            if digest == "" then named == s && '@' !in s
            else s == named + "@" + digest && '@' !in named
  {
    var i := IndexOf(s, '@');
    if i < |s| {
      var rest := s[i + 1..];
      assert Split(s, '@') == [s[..i]] + Split(rest, '@');
      assert s == s[..i] + "@" + rest;
      if '@' in rest { SplitAtLeastTwo(rest, '@'); } else { SplitNone(rest, '@'); }
    } else {
      SplitNone(s, '@');
    }
  }

  predicate Plain(repository: string) {
    ':' !in repository && '@' !in repository
  }

  lemma {:induction false} AfterSlash(registry: string, rest: string, named: string, digest: string)
    requires registry + "/" + rest == named + "@" + digest && '/' !in digest
    ensures |named| > |registry|
    ensures var at := |named| - |registry| - 1; at < |rest| && rest[at] == '@' && rest[at + 1..] == digest
  {
    var s := registry + "/" + rest;
    assert s[|registry|] == '/' && s[|named|] == '@';
    forall k | |named| < k < |s| ensures s[k] != '/' { assert s[k] == digest[k - |named| - 1]; }
    var at := |named| - |registry| - 1;
    assert rest[at] == s[|named|];
    assert rest[at + 1..] == s[|named| + 1..] == digest;
  }

  lemma {:induction false} InsideReference(repository: string, reference: string, at: nat, digest: string)
    requires var x := repository + ":" + reference; at < |x| && x[at] == '@' && x[at + 1..] == digest
    requires '@' !in repository && ':' !in reference
    ensures ':' !in digest
  {
    var x := repository + ":" + reference;
    forall k | 0 <= k <= |repository| ensures x[k] != '@' {
      if k < |repository| { assert x[k] == repository[k]; }
    }
    forall i | 0 <= i < |digest| ensures digest[i] != ':' {
      assert digest[i] == x[at + 1 + i] == reference[at + i - |repository|];
    }
  }

  /** If the reference of a tag holds an `@`, what follows the `@` has no colon, so it is no digest. */
  lemma {:induction false} NoColonAfterAt(registry: string, repository: string, reference: string, named: string,
                                          digest: string)
    requires registry + "/" + (repository + ":" + reference) == named + "@" + digest && '/' !in digest
    requires '@' !in repository && ':' !in reference
    ensures ':' !in digest
  {
    AfterSlash(registry, repository + ":" + reference, named, digest);
    InsideReference(repository, reference, |named| - |registry| - 1, digest);
  }

  predicate DigestLike(digest: string) {
    digest != "" ==> ':' in digest && '/' !in digest
  }

  lemma {:induction false} ParsedDigestShape(s: string)
    requires ParseReference(s).Ok?
    ensures DigestLike(ParseReference(s).value.digest)
  {
    ParsedIsWellFormed(s);
    DigestOf(ParseReference(s).value);
  }

  lemma {:induction false} NoDigestInTag(registry: string, repository: string, reference: string, s: string,
                                         r: Reference)
    requires '@' !in repository && ':' !in reference
    requires s == registry + "/" + (repository + ":" + reference) && Staged(s, r) && DigestLike(r.digest)
    ensures SplitDigest(s) == Ok((s, ""))
  {
    SplitDigestParts(s);
    var (named, digest) := SplitDigest(s).value;
    assert digest != "" ==> ':' !in digest by {
      if digest != "" { NoColonAfterAt(registry, repository, reference, named, digest); }
    }
  }

  lemma {:induction false} TagSplit(name: string, reference: string, s: string)
    requires s == name + ":" + reference && ':' !in reference && reference != ""
    ensures SplitTag(s) == if '/' in reference then Ok((s, "")) else Ok((name, reference))
  {
    forall k | |name| < k < |s| ensures s[k] == reference[k - |name| - 1] { }
    LastIndexUnique(s, ':', |name|);
    assert s[..|name|] == name && s[|name| + 1..] == reference;
    if '/' in reference {
      var k :| 0 <= k < |reference| && reference[k] == '/';
      assert s[|name| + 1 + k] == '/';
    }
  }

  lemma {:induction false} NoSlashInTag(registry: string, rest: string, reference: string)
    requires HasExplicitRegistry(registry) && '/' !in registry && ':' in rest
    requires '/' in reference ==> NormalizeName(registry + "/" + rest).Ok?
    ensures '/' !in reference
  {
    ColonInNameRefused(registry, rest);
  }

  /** What the stages of a parse without a digest say about the name and the tag. */
  lemma {:induction false} StagesWithoutDigest(s: string, r: Reference, name: string, tag: string)
    requires Staged(s, r) && SplitDigest(s) == Ok((s, "")) && SplitTag(s) == Ok((name, tag))
    ensures NormalizeName(name) == Ok((r.registry, r.repository)) && r.digest == ""
    ensures tag != "" ==> r.tag == tag
  {
  }

  lemma {:induction false} TagIsReference(registry: string, repository: string, reference: string, rest: string,
                                          s: string, r: Reference)
    requires HasExplicitRegistry(registry) && '/' !in registry && ':' in rest && ':' !in reference && reference != ""
    requires s == registry + "/" + rest && s == registry + "/" + repository + ":" + reference
    requires Staged(s, r) && SplitDigest(s) == Ok((s, ""))
    ensures r.registry == registry && r.repository == repository && r.tag == reference && r.digest == ""
  {
    var (named, tag) := SplitTag(s).value;
    TagSplit(registry + "/" + repository, reference, s);
    StagesWithoutDigest(s, r, named, tag);
    NoSlashInTag(registry, rest, reference);
    NameAgrees(registry, repository);
  }

  lemma {:induction false} Regroup(registry: string, repository: string, reference: string)
    ensures var rest := repository + ":" + reference;
            ':' in rest && registry + "/" + repository + ":" + reference == registry + "/" + rest
  {
    var rest := repository + ":" + reference;
    assert rest[|repository|] == ':';
  }

  lemma {:induction false} TagAgrees(registry: string, repository: string, reference: string, s: string, r: Reference)
    requires HasExplicitRegistry(registry) && '/' !in registry && Plain(repository)
    requires ':' !in reference && reference != ""
    requires s == registry + "/" + repository + ":" + reference && Staged(s, r) && DigestLike(r.digest)
    ensures r.registry == registry && r.repository == repository && r.tag == reference && r.digest == ""
  {
    var rest := repository + ":" + reference;
    Regroup(registry, repository, reference);
    NoDigestInTag(registry, repository, reference, s, r);
    TagIsReference(registry, repository, reference, rest, s, r);
  }

  /** The name ends at the only `@`. */
  lemma {:induction false} DigestSplit(registry: string, repository: string, reference: string, named: string,
                                       digest: string)
    requires '@' !in repository && '@' !in named && '/' !in digest
    requires registry + "/" + repository + "@" + reference == named + "@" + digest
    ensures named == registry + "/" + repository && digest == reference
  {
    var name := registry + "/" + repository;
    var s := name + "@" + reference;
    assert s == registry + "/" + (repository + "@" + reference);
    AfterSlash(registry, repository + "@" + reference, named, digest);
    var at := |named| - |registry| - 1;
    forall k | 0 <= k < |repository| ensures (repository + "@" + reference)[k] != '@' {
      assert (repository + "@" + reference)[k] == repository[k];
    }
    forall k | 0 <= k < |named| ensures s[k] != '@' { assert s[k] == named[k]; }
    assert s[|name|] == '@';
    assert |named| == |name|;
    assert named == s[..|named|] && digest == s[|named| + 1..];
  }

  lemma {:induction false} DigestAgrees(registry: string, repository: string, reference: string, s: string,
                                        r: Reference)
    requires HasExplicitRegistry(registry) && '/' !in registry && Plain(repository) && ':' in reference
    requires s == registry + "/" + repository + "@" + reference && Staged(s, r) && DigestLike(r.digest)
    ensures r.registry == registry && r.repository == repository && r.tag == "" && r.digest == reference
  {
    SplitDigestParts(s);
    var name := registry + "/" + repository;
    assert s[|name|] == '@';
    DigestSplit(registry, repository, reference, SplitDigest(s).value.0, r.digest);
    forall k | |registry| < k < |name| ensures name[k] != ':' { assert name[k] == repository[k - |registry| - 1]; }
    SplitTagPrinted(name, |registry|, "");
    assert name + "" == name;
    NameAgrees(registry, repository);
  }

  /** The parser and the proxy agree on what a request is about. */
  predicate Agree(q: ProxyRequest, reference: string, r: Reference) {
    && r.registry == q.registry && r.repository == q.repository
    && (if ':' in reference then r.digest == reference && r.tag == "" else r.tag == reference && r.digest == "")
  }

  lemma {:induction false} PlainAgrees(q: ProxyRequest, reference: string, s: string, r: Reference)
    requires HasExplicitRegistry(q.registry) && '/' !in q.registry && Plain(q.repository) && reference != ""
    requires s == ProxyImageRef(q.registry, q.repository, reference) && Staged(s, r) && DigestLike(r.digest)
    ensures Agree(q, reference, r)
  {
    if ':' in reference {
      DigestAgrees(q.registry, q.repository, reference, s, r);
    } else {
      TagAgrees(q.registry, q.repository, reference, s, r);
    }
  }

  /**
   Path agreement: whenever the reference that the proxy builds from a manifest path parses, the parser and
   the proxy agree on registry, repository and tag or digest exactly when the repository in the path
   contains neither `:` nor `@`.
   */
  lemma {:induction false} PathsAgree(path: string)
    requires ParseProxyRequest(path).Ok?
    ensures var q := ParseProxyRequest(path).value;
            var reference := NormalizeManifestReference(q.reference);
            var parsed := ParseReference(ProxyImageRef(q.registry, q.repository, reference));
            parsed.Ok? ==> (Plain(q.repository) <==> Agree(q, reference, parsed.value))
  {
    var q := ParseProxyRequest(path).value;
    var reference := NormalizeManifestReference(q.reference);
    var s := ProxyImageRef(q.registry, q.repository, reference);
    RequestShape(path);
    NormalizedReferenceNonEmpty(q.reference);
    ImageRefAgrees(q, reference, s);
  }

  lemma {:induction false} ImageRefAgrees(q: ProxyRequest, reference: string, s: string)
    requires HasExplicitRegistry(q.registry) && '/' !in q.registry && reference != ""
    requires s == ProxyImageRef(q.registry, q.repository, reference)
    ensures ParseReference(s).Ok? ==> (Plain(q.repository) <==> Agree(q, reference, ParseReference(s).value))
  {
    if ParseReference(s).Ok? {
      ParseStages(s);
      ParsedDigestShape(s);
      ParsedRepositoryIsPlain(s);
      if Plain(q.repository) {
        PlainAgrees(q, reference, s, ParseReference(s).value);
      }
    }
  }

  lemma {:induction false} ParsedRepositoryIsPlain(s: string)
    requires ParseReference(s).Ok?
    ensures Plain(ParseReference(s).value.repository)
  {
    ParsedIsWellFormed(s);
    RepositoryOf(ParseReference(s).value);
  }

  // ---------------------------------------------------------------- which paths are accepted

  /** `sep` stands after `before` in the text, and nowhere before that. */
  predicate CutAt(s: string, before: string, sep: string, after: string) {
    s == before + sep + after && forall i :: 0 <= i < |before| ==> !HasPrefix(s[i..], sep)
  }

  lemma {:induction false} CutIff(s: string, sep: string, before: string, after: string)
    ensures Cut(s, sep) == Some((before, after)) <==> CutAt(s, before, sep, after)
  {
    if CutAt(s, before, sep, after) { CutFirst(before, sep, after); }
    if Cut(s, sep) == Some((before, after)) { CutIsFirst(s, sep, before, after); }
  }

  lemma {:induction false} CutIsFirst(s: string, sep: string, before: string, after: string)
    requires Cut(s, sep) == Some((before, after))
    ensures CutAt(s, before, sep, after)
  {
    if !HasPrefix(s, sep) {
      var rest := Cut(s[1..], sep).value;
      assert before == [s[0]] + rest.0;
      CutIsFirst(s[1..], sep, rest.0, rest.1);
      forall i | 0 <= i < |before| ensures !HasPrefix(s[i..], sep) {
        if i == 0 { assert s[0..] == s; } else { assert s[1..][i - 1..] == s[i..]; }
      }
    }
  }

  lemma {:induction false} CutNoneMeans(s: string, sep: string, i: nat)
    requires Cut(s, sep).None? && i <= |s|
    ensures !HasPrefix(s[i..], sep)
  {
    assert s[0..] == s;
    if i > 0 {
      CutNoneMeans(s[1..], sep, i - 1);
      assert s[1..][i - 1..] == s[i..];
    }
  }

  lemma {:induction false} CutNoneIff(s: string, sep: string)
    ensures Cut(s, sep).None? <==> !Contains(s, sep)
  {
    if !Contains(s, sep) { CutNone(s, sep); }
    if Cut(s, sep).None? {
      forall i | 0 <= i <= |s| ensures !HasPrefix(s[i..], sep) { CutNoneMeans(s, sep, i); }
    }
  }

  lemma {:induction false} UpstreamIff(name: string, registry: string, repository: string)
    ensures UpstreamRepository(name) == Ok((registry, repository)) <==> Denotes(name, registry, repository)
  {
    FirstIs(name);
    if Explicit(registry) && '/' !in registry && name == registry + "/" + repository {
      ExplicitUpstream(registry, repository);
    }
    assert "library/" + name == OFFICIAL_PREFIX + name;
  }

  /** What stands before and after the word is a name and a reference, but for slashes around them. */
  ghost predicate Named(before: string, after: string, r: ProxyRequest) {
    && r.reference != "" && Trims(after, '/', r.reference)
    && exists name :: name != "" && Trims(before, '/', name) && Denotes(name, r.registry, r.repository)
  }

  lemma {:induction false} NamedIff(before: string, after: string, kind: Kind, r: ProxyRequest)
    ensures ParseRepositoryReference(before, after, kind) == Ok(r) <==> r.kind == kind && Named(before, after, r)
  {
    var name := TrimChar(before, '/');
    TrimCharIff(before, '/', name);
    TrimCharIff(after, '/', r.reference);
    UpstreamIff(name, r.registry, r.repository);
    if Named(before, after, r) {
      var other :| other != "" && Trims(before, '/', other) && Denotes(other, r.registry, r.repository);
      TrimCharIff(before, '/', other);
    }
  }

  /** The two kinds of path. */
  ghost predicate Asks(path: string, r: ProxyRequest) {
    exists rest, before, after ::
      && path == "/v2/" + rest && Named(before, after, r)
      && match r.kind
         case Manifest => CutAt(rest, before, "/manifests/", after)
         case Blob => !Contains(rest, "/manifests/") && CutAt(rest, before, "/blobs/", after)
  }

  lemma {:induction false} RestIff(rest: string, r: ProxyRequest, before: string, after: string)
    requires Named(before, after, r)
    requires match r.kind
             case Manifest => CutAt(rest, before, "/manifests/", after)
             case Blob => !Contains(rest, "/manifests/") && CutAt(rest, before, "/blobs/", after)
    ensures ParseProxyRequest("/v2/" + rest) == Ok(r)
  {
    assert ("/v2/" + rest)[..4] == "/v2/" && ("/v2/" + rest)[4..] == rest;
    assert rest != "";
    NamedIff(before, after, r.kind, r);
    CutIff(rest, "/manifests/", before, after);
    CutIff(rest, "/blobs/", before, after);
    CutNoneIff(rest, "/manifests/");
  }

  lemma {:induction false} AcceptedAsks(path: string, r: ProxyRequest)
    requires ParseProxyRequest(path) == Ok(r)
    ensures Asks(path, r)
  {
    var rest := path[4..];
    assert path == "/v2/" + rest;
    var manifest, blob := Cut(rest, "/manifests/"), Cut(rest, "/blobs/");
    CutNoneIff(rest, "/manifests/");
    var (before, after) := if manifest.Some? then manifest.value else blob.value;
    CutIff(rest, "/manifests/", before, after);
    CutIff(rest, "/blobs/", before, after);
    NamedIff(before, after, if manifest.Some? then Manifest else Blob, r);
  }

  /**
   Exactly the paths that the proxy accepts, and as what: `/v2/`, a name, the first `/manifests/` or, without one, the
   first `/blobs/`, and a reference, with slashes around both; a name denotes the same repository as in a reference.
   */
  lemma {:induction false} AcceptsIff(path: string, r: ProxyRequest)
    ensures ParseProxyRequest(path) == Ok(r) <==> Asks(path, r)
  {
    if ParseProxyRequest(path) == Ok(r) { AcceptedAsks(path, r); }
    if Asks(path, r) {
      var rest, before, after :|
        && path == "/v2/" + rest && Named(before, after, r)
        && match r.kind
           case Manifest => CutAt(rest, before, "/manifests/", after)
           case Blob => !Contains(rest, "/manifests/") && CutAt(rest, before, "/blobs/", after);
      RestIff(rest, r, before, after);
    }
  }

  // ---------------------------------------------------------------- a path on which they differ

  lemma {:induction false} CutNone(s: string, sep: string)
    requires !Contains(s, sep)
    ensures Cut(s, sep).None?
  {
    assert s[0..] == s;
    if s != "" {
      forall i | 0 <= i <= |s[1..]| ensures !HasPrefix(s[1..][i..], sep) {
        assert s[1..][i..] == s[i + 1..];
      }
      CutNone(s[1..], sep);
    }
  }

  /** The text is cut where `sep` occurs first. */
  lemma {:induction false} CutFirst(before: string, sep: string, after: string)
    requires forall i :: 0 <= i < |before| ==> !HasPrefix((before + sep + after)[i..], sep)
    ensures Cut(before + sep + after, sep) == Some((before, after))
  {
    var s := before + sep + after;
    if before == "" {
      assert s[..|sep|] == sep && s[|sep|..] == after;
    } else {
      assert s[0..] == s;
      assert s[1..] == before[1..] + sep + after;
      forall i | 0 <= i < |before[1..]| ensures !HasPrefix((before[1..] + sep + after)[i..], sep) {
        assert s[1..][i..] == s[i + 1..];
      }
      CutFirst(before[1..], sep, after);
      assert [s[0]] + before[1..] == before;
    }
  }

  lemma {:induction false} NothingToTrim(s: string, cut: char)
    requires s != "" && s[0] != cut && s[|s| - 1] != cut
    ensures TrimChar(s, cut) == s
  {
  }

  lemma {:induction false} ExplicitUpstream(registry: string, rest: string)
    requires HasExplicitRegistry(registry) && '/' !in registry
    ensures UpstreamRepository(registry + "/" + rest) == Ok((registry, rest))
  {
    SplitCons(registry, '/', rest);
    JoinSplit(rest, '/');
    assert Split(registry + "/" + rest, '/')[1..] == Split(rest, '/');
  }

  /** A text whose slashes are never followed by an `m` holds no `/manifests/`. */
  predicate NoManifests(s: string) {
    forall i :: 0 <= i < |s| && s[i] == '/' ==> i + 1 < |s| && s[i + 1] != 'm'
  }

  /** A manifest path for that repository and reference, as far as it begins before the first `/manifests/`. */
  lemma {:induction false} ManifestPath(registry: string, repository: string, reference: string)
    requires HasExplicitRegistry(registry) && '/' !in registry && repository != ""
    requires '/' !in reference && reference != ""
    requires NoManifests(registry + "/" + repository)
    ensures ParseProxyRequest("/v2/" + (registry + "/" + repository + "/manifests/" + reference))
            == Ok(ProxyRequest(Manifest, registry, repository, reference))
  {
    var name := registry + "/" + repository;
    var rest := name + "/manifests/" + reference;
    var path := "/v2/" + rest;
    assert path[..4] == "/v2/" && path[4..] == rest;
    forall i | 0 <= i < |name| ensures !HasPrefix(rest[i..], "/manifests/") {
      if name[i] == '/' { assert rest[i..][1] == name[i + 1]; } else { assert rest[i..][0] == name[i]; }
    }
    CutFirst(name, "/manifests/", reference);
    assert name[0] != '/' by { assert registry != ""; }
    assert name[|name| - 1] == repository[|repository| - 1] != '/';
    NothingToTrim(name, '/');
    NothingToTrim(reference, '/');
    ExplicitUpstream(registry, repository);
  }

  lemma {:induction false} PathOfTagged(r: Reference)
    requires WellFormed(r) && r.tag != "" && r.digest != ""
    requires NoManifests(r.registry + "/" + (r.repository + ":" + r.tag))
    ensures var repository := r.repository + ":" + r.tag;
            ParseProxyRequest("/v2/" + (r.registry + "/" + repository + "/manifests/" + r.digest))
            == Ok(ProxyRequest(Manifest, r.registry, repository, r.digest))
  {
    DigestOf(r);
    RegistryShape(r.registry);
    ManifestPath(r.registry, r.repository + ":" + r.tag, r.digest);
  }

  lemma {:induction false} ImageRefOfTagged(r: Reference)
    requires WellFormed(r) && r.tag != "" && r.digest != ""
    ensures ProxyImageRef(r.registry, r.repository + ":" + r.tag, r.digest) == r.canonicalRef
  {
    DigestOf(r);
  }

  /**
   A reference with a tag and a digest, asked for as a path that carries the tag in the repository: the proxy takes
   the tag for a part of the repository, the parser does not, and neither refuses.
   */
  lemma {:induction false} TagInPathDisagrees(r: Reference, path: string, imageRef: string)
    requires WellFormed(r) && r.tag != "" && r.digest != ""
    requires NoManifests(r.registry + "/" + (r.repository + ":" + r.tag))
    requires path == "/v2/" + (r.registry + "/" + (r.repository + ":" + r.tag) + "/manifests/" + r.digest)
    requires imageRef == ProxyImageRef(r.registry, r.repository + ":" + r.tag, r.digest)
    ensures var q := ProxyRequest(Manifest, r.registry, r.repository + ":" + r.tag, r.digest);
            ParseProxyRequest(path) == Ok(q) && ParseReference(imageRef) == Ok(r) && !Agree(q, r.digest, r)
  {
    PathOfTagged(r);
    ImageRefOfTagged(r);
    PrintThenParse(r);
    assert |r.repository + ":" + r.tag| > |r.repository|;
  }

  function Nginx(hex: string): Reference {
    MakeReference("docker.io", "library/nginx", "1", "sha256:" + hex)
  }

  lemma {:induction false} NginxIsWellFormed(hex: string)
    requires Sha256Hex(hex)
    ensures WellFormed(Nginx(hex))
  {
    DockerIo();
    LibraryNginx();
    TagWord("1");
    Sha256Word(hex);
    assert HasExplicitRegistry("docker.io") by { assert "docker.io"[6] == '.'; }
  }

  lemma {:induction false} OptCat(a: Re, b: Re, s: string)
    requires In(a, s)
    ensures In(Cat(a, Opt(b)), s)
  {
    CatIntro(a, Opt(b), s, "");
    assert s + "" == s;
  }

  lemma {:induction false} HostWord(first: string, middle: string, last: string)
    requires |first| == 1 && LowerAlnum(first[0]) && |last| == 1 && LowerAlnum(last[0])
    requires forall i :: 0 <= i < |middle| ==> HostChar(middle[i])
    ensures In(HOST_RE, first + (middle + last))
  {
    StarIntro(HostChar, middle);
    CatIntro(Star(Class(HostChar)), Class(LowerAlnum), middle, last);
    CatIntro(Class(LowerAlnum), Opt(HOST_TAIL_RE), first, middle + last);
  }

  lemma {:induction false} DockerIo()
    ensures In(REGISTRY_RE, "docker.io")
  {
    var d, middle, o := "d", "ocker.i", "o";
    HostWord(d, middle, o);
    OptCat(HOST_RE, PORT_RE, d + (middle + o));
    assert d + (middle + o) == "docker.io";
  }

  lemma {:induction false} ComponentWord(s: string)
    requires s != "" && forall i :: 0 <= i < |s| ==> LowerAlnum(s[i])
    ensures In(COMPONENT_RE, s)
  {
    PlusIntro(LowerAlnum, s);
    CatIntro(Plus(Class(LowerAlnum)), Star(Cat(SEPARATOR_RE, Plus(Class(LowerAlnum)))), s, "");
    assert s + "" == s;
  }

  lemma {:induction false} TwoComponents(a: string, b: string)
    requires a != "" && b != "" && (forall i :: 0 <= i < |a| ==> LowerAlnum(a[i]))
    requires forall i :: 0 <= i < |b| ==> LowerAlnum(b[i])
    ensures RepositoryName(a + "/" + b)
  {
    SplitCons(a, '/', b);
    SplitNone(b, '/');
    ComponentWord(a);
    ComponentWord(b);
    assert a + "/" + b == a + ['/'] + b;
    assert Split(a + "/" + b, '/') == [a, b];
  }

  lemma {:induction false} LibraryNginx()
    ensures RepositoryName("library/nginx")
  {
    TwoComponents("library", "nginx");
    assert "library" + "/" + "nginx" == "library/nginx";
  }

  lemma {:induction false} TagWord(s: string)
    requires |s| == 1 && Word(s[0])
    ensures In(TAG_RE, s)
  {
    CatIntro(Class(Word), Repeat(Class(TagChar), 127), s, "");
    assert s + "" == s;
  }

  lemma {:induction false} AlgorithmWord(first: string, rest: string)
    requires |first| == 1 && Letter(first[0]) && forall i :: 0 <= i < |rest| ==> Alnum(rest[i])
    ensures In(ALGORITHM_RE, first + rest)
  {
    StarIntro(Alnum, rest);
    CatIntro(Class(Letter), Star(Class(Alnum)), first, rest);
    CatIntro(ALGORITHM_PART_RE, Star(Cat(Class(AlgorithmSeparator), ALGORITHM_PART_RE)), first + rest, "");
    assert first + rest + "" == first + rest;
  }

  lemma {:induction false} DigestWord(algorithm: string, hex: string)
    requires In(ALGORITHM_RE, algorithm) && Sha256Hex(hex)
    ensures In(DIGEST_RE, algorithm + (":" + hex))
  {
    PlusIntro(EncodedChar, hex);
    CatIntro(Lit(':'), Plus(Class(EncodedChar)), ":", hex);
    CatIntro(ALGORITHM_RE, ENCODED_RE, algorithm, ":" + hex);
  }

  lemma {:induction false} Sha256Word(hex: string)
    requires Sha256Hex(hex)
    ensures In(DIGEST_RE, "sha256:" + hex)
  {
    var s, ha256 := "s", "ha256";
    AlgorithmWord(s, ha256);
    DigestWord(s + ha256, hex);
    assert s + ha256 + (":" + hex) == "sha256:" + hex;
  }

  lemma {:induction false} NginxPath(digest: string)
    ensures "/v2/docker.io/library/nginx:1/manifests/" + digest
            == "/v2/" + ("docker.io" + "/" + ("library/nginx" + ":" + "1") + "/manifests/" + digest)
  {
    assert "/v2/docker.io/library/nginx:1/manifests/"
           == "/v2/" + ("docker.io" + "/" + ("library/nginx" + ":" + "1") + "/manifests/");
  }

  lemma {:induction false} NginxHasNoManifests()
    ensures NoManifests("docker.io" + "/" + ("library/nginx" + ":" + "1"))
  {
    assert "docker.io" + "/" + ("library/nginx" + ":" + "1") == "docker.io/library/nginx:1";
  }

  /** The path `/v2/docker.io/library/nginx:1/manifests/sha256:...`, with any 64 digits. */
  lemma {:induction false} NginxDisagrees(hex: string, path: string)
    requires Sha256Hex(hex) && path == "/v2/docker.io/library/nginx:1/manifests/" + ("sha256:" + hex)
    ensures ParseProxyRequest(path).Ok?
    ensures var q := ParseProxyRequest(path).value;
            var reference := NormalizeManifestReference(q.reference);
            var parsed := ParseReference(ProxyImageRef(q.registry, q.repository, reference));
            && q.repository == "library/nginx" + ":" + "1"
            && parsed == Ok(Nginx(hex)) && parsed.value.repository == "library/nginx" && parsed.value.tag == "1"
            && !Agree(q, reference, parsed.value)
  {
    var r := Nginx(hex);
    NginxIsWellFormed(hex);
    NginxPath("sha256:" + hex);
    NginxHasNoManifests();
    SpellingIsNormalized("sha256:" + hex, hex);
    TagInPathDisagrees(r, path, ProxyImageRef(r.registry, r.repository + ":" + r.tag, r.digest));
  }
}
