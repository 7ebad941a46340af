/**
 Docker image references (internal/image/reference.go): the parser, its canonical printer, and the
 theorem that they are inverse to each other.
 */
module Image {
  import opened Prelude
  import opened Text
  import opened Regex

  const DEFAULT_REGISTRY := "docker.io"
  const DEFAULT_TAG := "latest"
  const OFFICIAL_PREFIX := "library/"

  datatype Reference = Reference(
    registry: string,
    repository: string,
    tag: string,
    digest: string,
    isMutableTag: bool,
    isDigestPinned: bool,
    canonicalRef: string)

  datatype ReferenceError =
    | EmptyReference
    | Whitespace
    | UrlScheme
    | EmptyDigest
    | MultipleDigests
    | MissingName
    | EmptyTag
    | EmptyComponent
    | MissingRepository
    | MalformedRegistry
    | PortOrTagInRepository
    | MalformedComponent
    | MalformedTag
    | MalformedDigest

  predicate LowerAlnum(c: char) { 'a' <= c <= 'z' || '0' <= c <= '9' }
  predicate Digit(c: char) { '0' <= c <= '9' }
  predicate Letter(c: char) { 'A' <= c <= 'Z' || 'a' <= c <= 'z' }
  predicate Alnum(c: char) { Letter(c) || Digit(c) }
  predicate HostChar(c: char) { LowerAlnum(c) || c == '.' || c == '-' }
  predicate Word(c: char) { Alnum(c) || c == '_' }
  predicate TagChar(c: char) { Word(c) || c == '.' || c == '-' }
  predicate DotOrUnderscore(c: char) { c == '.' || c == '_' }
  predicate AlgorithmSeparator(c: char) { c == '+' || c == '.' || c == '_' || c == '-' }
  predicate EncodedChar(c: char) { Alnum(c) || c == '=' || c == '_' || c == '-' }

  // The four expressions of reference.go:17-20, in the order of the source.
  const PORT_RE := Cat(Lit(':'), Plus(Class(Digit)))
  const HOST_TAIL_RE := Cat(Star(Class(HostChar)), Class(LowerAlnum))
  const HOST_RE := Cat(Class(LowerAlnum), Opt(HOST_TAIL_RE))
  const REGISTRY_RE := Cat(HOST_RE, Opt(PORT_RE))

  const SEPARATOR_RE := Alt(Class(DotOrUnderscore), Alt(Cat(Lit('_'), Lit('_')), Plus(Lit('-'))))
  const COMPONENT_RE := Cat(Plus(Class(LowerAlnum)), Star(Cat(SEPARATOR_RE, Plus(Class(LowerAlnum)))))

  const TAG_RE := Cat(Class(Word), Repeat(Class(TagChar), 127))

  const ALGORITHM_PART_RE := Cat(Class(Letter), Star(Class(Alnum)))
  const ALGORITHM_RE := Cat(ALGORITHM_PART_RE, Star(Cat(Class(AlgorithmSeparator), ALGORITHM_PART_RE)))
  const ENCODED_RE := Cat(Lit(':'), Plus(Class(EncodedChar)))
  const DIGEST_RE := Cat(ALGORITHM_RE, ENCODED_RE)

  function ParseReference(input: string): Result<Reference, ReferenceError> {
    match SplitReference(input)
    case Err(e) => Err(e)
    case Ok((name, explicitTag, digest)) =>
      AssembleReference(name, if digest == "" && explicitTag == "" then DEFAULT_TAG else explicitTag, digest)
  }

  /** reference.go:37-59: the lexical checks, then the name, tag and digest parts. */
  function SplitReference(input: string): Result<(string, string, string), ReferenceError> {
    var raw := TrimSpace(input);
    if raw == "" then Err(EmptyReference)
    else if raw != input || ' ' in raw || '\t' in raw || '\r' in raw || '\n' in raw then Err(Whitespace)
    else if Contains(raw, "://") then Err(UrlScheme)
    else
      match SplitDigest(raw)
      case Err(e) => Err(e)
      case Ok((named, digest)) =>
        if named == "" then Err(MissingName)
        else
          match SplitTag(named)
          case Err(e) => Err(e)
          case Ok((name, tag)) => Ok((name, tag, digest))
  }

  /** reference.go:64-85 */
  function AssembleReference(name: string, tag: string, digest: string): Result<Reference, ReferenceError> {
    match NormalizeName(name)
    case Err(e) => Err(e)
    case Ok((registry, repository)) =>
      if tag != "" && !MatchString(TAG_RE, tag) then Err(MalformedTag)
      else if digest != "" && !MatchString(DIGEST_RE, digest) then Err(MalformedDigest)
      else Ok(MakeReference(registry, repository, tag, digest))
  }

  function MakeReference(registry: string, repository: string, tag: string, digest: string): Reference {
    Reference(registry, repository, tag, digest, digest == "", digest != "",
              Canonical(registry, repository, tag, digest))
  }

  function SplitDigest(ref: string): Result<(string, string), ReferenceError> {
    var parts := Split(ref, '@');
    if |parts| == 1 then Ok((ref, ""))
    else if |parts| == 2 then
      if parts[1] == "" then Err(EmptyDigest) else Ok((parts[0], parts[1]))
    else Err(MultipleDigests)
  }

  function SplitTag(named: string): Result<(string, string), ReferenceError> {
    var lastSlash := LastIndex(named, '/');
    var lastColon := LastIndex(named, ':');
    if lastColon <= lastSlash then Ok((named, ""))
    else if lastColon == |named| - 1 then Err(EmptyTag)
    else Ok((named[..lastColon], named[lastColon + 1..]))
  }

  predicate HasExplicitRegistry(first: string) {
    '.' in first || ':' in first || first == "localhost"
  }

  /** reference.go:120-134: the registry, or the default one, and the repository. */
  function SplitName(name: string): (string, string) {
    var parts := Split(name, '/');
    if HasExplicitRegistry(parts[0]) then (parts[0], Join(parts[1..], '/'))
    else (DEFAULT_REGISTRY, if |parts| == 1 then OFFICIAL_PREFIX + name else name)
  }

  function NormalizeName(name: string): Result<(string, string), ReferenceError> {
    if HasPrefix(name, "/") || HasSuffix(name, "/") || Contains(name, "//") then Err(EmptyComponent)
    else
      var (registry, repository) := SplitName(name);
      if HasExplicitRegistry(Split(name, '/')[0]) && repository == "" then Err(MissingRepository)
      else CheckName(registry, repository)
  }

  function CheckName(registry: string, repository: string): Result<(string, string), ReferenceError> {
    if !MatchString(REGISTRY_RE, registry) then Err(MalformedRegistry)
    else if ':' in repository then Err(PortOrTagInRepository)
    else
      var components := Split(repository, '/');
      if "" in components then Err(EmptyComponent)
      else if exists k :: 0 <= k < |components| && !MatchString(COMPONENT_RE, components[k])
      then Err(MalformedComponent)
      else Ok((registry, repository))
  }

  function Canonical(registry: string, repository: string, tag: string, digest: string): string {
    registry + "/" + repository
    + (if tag != "" then ":" + tag else "")
    + (if digest != "" then "@" + digest else "")
  }

  /** The stages of a parse that ends in `r`. */
  predicate Staged(s: string, r: Reference) {
    && SplitDigest(s).Ok? && '\n' !in s
    && var (named, digest) := SplitDigest(s).value;
       && SplitTag(named).Ok? && r.digest == digest
       && var (name, tag) := SplitTag(named).value;
          && NormalizeName(name) == Ok((r.registry, r.repository))
          && r.tag == if digest == "" && tag == "" then DEFAULT_TAG else tag
  }

  lemma {:induction false} ParseStages(s: string)
    requires ParseReference(s).Ok?
    ensures Staged(s, ParseReference(s).value)
  {
  }

  // ---------------------------------------------------------------- the well-formed references

  ghost predicate RepositoryName(repository: string) {
    ':' !in repository
    && forall k :: 0 <= k < |Split(repository, '/')| ==>
         Split(repository, '/')[k] != "" && In(COMPONENT_RE, Split(repository, '/')[k])
  }

  /** What it means for a reference to be normalized, without mentioning the parser. */
  ghost predicate WellFormed(r: Reference) {
    && HasExplicitRegistry(r.registry) && In(REGISTRY_RE, r.registry)
    && RepositoryName(r.repository)
    && (r.tag != "" ==> In(TAG_RE, r.tag))
    && (r.digest != "" ==> In(DIGEST_RE, r.digest))
    && (r.tag != "" || r.digest != "")
    && r == MakeReference(r.registry, r.repository, r.tag, r.digest)
  }

  lemma {:induction false} CheckNameSound(registry: string, repository: string)
    ensures CheckName(registry, repository) == Ok((registry, repository)) <==>
            In(REGISTRY_RE, registry) && RepositoryName(repository)
  {
    MatchStringDecides(REGISTRY_RE, registry);
    var components := Split(repository, '/');
    forall k | 0 <= k < |components|
      ensures MatchString(COMPONENT_RE, components[k]) <==> In(COMPONENT_RE, components[k])
    {
      MatchStringDecides(COMPONENT_RE, components[k]);
    }
  }

  lemma {:induction false} DefaultIsExplicit()
    ensures HasExplicitRegistry(DEFAULT_REGISTRY)
  {
    assert DEFAULT_REGISTRY[6] == '.';
  }

  lemma {:induction false} SplitNameIsExplicit(name: string)
    ensures HasExplicitRegistry(SplitName(name).0)
  {
    DefaultIsExplicit();
  }

  lemma {:induction false} NormalizedIsChecked(name: string)
    requires NormalizeName(name).Ok?
    ensures var (registry, repository) := SplitName(name);
            NormalizeName(name).value == (registry, repository) && CheckName(registry, repository).Ok?
  {
  }

  lemma {:induction false} NormalizedName(name: string)
    requires NormalizeName(name).Ok?
    ensures var (registry, repository) := NormalizeName(name).value;
            HasExplicitRegistry(registry) && In(REGISTRY_RE, registry) && RepositoryName(repository)
  {
    var (registry, repository) := NormalizeName(name).value;
    NormalizedIsChecked(name);
    SplitNameIsExplicit(name);
    CheckNameSound(registry, repository);
  }

  lemma {:induction false} AssembledIsWellFormed(name: string, tag: string, digest: string)
    requires AssembleReference(name, tag, digest).Ok? && (tag != "" || digest != "")
    ensures WellFormed(AssembleReference(name, tag, digest).value)
  {
    NormalizedName(name);
    MatchStringDecides(TAG_RE, tag);
    MatchStringDecides(DIGEST_RE, digest);
  }

  /** Every reference the parser returns is well formed. */
  lemma {:induction false} ParsedIsWellFormed(input: string)
    requires ParseReference(input).Ok?
    ensures WellFormed(ParseReference(input).value)
  {
    var (name, explicitTag, digest) := SplitReference(input).value;
    var tag := if digest == "" && explicitTag == "" then DEFAULT_TAG else explicitTag;
    AssembledIsWellFormed(name, tag, digest);
  }

  // ---------------------------------------------------------------- alphabets

  predicate RegistryChar(c: char) { HostChar(c) || c == ':' }
  predicate ComponentChar(c: char) { LowerAlnum(c) || c == '.' || c == '_' || c == '-' }
  predicate DigestChar(c: char) { TagChar(c) || c == ':' || c == '+' || c == '=' }

  lemma {:induction false} RegistryShape(registry: string)
    requires In(REGISTRY_RE, registry)
    ensures registry != "" && registry[|registry| - 1] != ':'
    ensures forall k :: 0 <= k < |registry| ==> RegistryChar(registry[k])
  {
    var i := CatWord(HOST_RE, Opt(PORT_RE), registry);
    var host, port := registry[..i], registry[i..];
    HostShape(host);
    OptWord(PORT_RE, port);
    assert registry == host + port;
    if port != "" {
      PortShape(port);
    }
  }

  lemma {:induction false} HostShape(host: string)
    requires In(HOST_RE, host)
    ensures host != "" && forall k :: 0 <= k < |host| ==> HostChar(host[k])
  {
    var i := CatWord(Class(LowerAlnum), Opt(HOST_TAIL_RE), host);
    OptWord(HOST_TAIL_RE, host[i..]);
    assert host == host[..i] + host[i..];
    if host[i..] != "" {
      assert Over(Class(LowerAlnum), HostChar) && Over(Star(Class(HostChar)), HostChar);
      WordsOver(HOST_TAIL_RE, HostChar, host[i..]);
    }
  }

  lemma {:induction false} PortShape(port: string)
    requires In(PORT_RE, port)
    ensures |port| > 1 && port[0] == ':' && forall k :: 1 <= k < |port| ==> Digit(port[k])
  {
    var k := CatWord(Lit(':'), Plus(Class(Digit)), port);
    assert port[..k] == ":";
    PlusWord(Digit, port[k..]);
  }

  lemma {:induction false} ComponentAlphabet()
    ensures Over(COMPONENT_RE, ComponentChar)
  {
    assert Over(Class(LowerAlnum), ComponentChar) && Over(Plus(Class(LowerAlnum)), ComponentChar);
    assert Over(Alt(Cat(Lit('_'), Lit('_')), Plus(Lit('-'))), ComponentChar);
    assert Over(SEPARATOR_RE, ComponentChar);
  }

  lemma {:induction false} RepositoryShape(repository: string)
    requires RepositoryName(repository)
    ensures repository != "" && repository[0] != '/' && repository[|repository| - 1] != '/'
    ensures forall k :: 0 <= k < |repository| ==> ComponentChar(repository[k]) || repository[k] == '/'
    ensures forall k :: 0 <= k < |repository| - 1 && repository[k] == '/' ==> repository[k + 1] != '/'
  {
    var components := Split(repository, '/');
    ComponentAlphabet();
    forall k | 0 <= k < |components|
      ensures forall m :: 0 <= m < |components[k]| ==> ComponentChar(components[k][m])
    {
      WordsOver(COMPONENT_RE, ComponentChar, components[k]);
    }
    NoEmptyComponent(repository, '/');
    JoinSplit(repository, '/');
    JoinChars(components);
  }

  lemma {:induction false} JoinChars(components: seq<string>)
    requires forall k :: 0 <= k < |components| ==>
               forall m :: 0 <= m < |components[k]| ==> ComponentChar(components[k][m])
    ensures forall k :: 0 <= k < |Join(components, '/')| ==>
              ComponentChar(Join(components, '/')[k]) || Join(components, '/')[k] == '/'
    decreases |components|
  {
    if |components| > 1 {
      JoinChars(components[1..]);
    }
  }

  lemma {:induction false} TagShape(tag: string)
    requires In(TAG_RE, tag)
    ensures tag != "" && forall k :: 0 <= k < |tag| ==> TagChar(tag[k])
  {
    var i := CatWord(Class(Word), Repeat(Class(TagChar), 127), tag);
    WordsOver(Repeat(Class(TagChar), 127), TagChar, tag[i..]);
    assert tag == tag[..i] + tag[i..];
  }

  lemma {:induction false} AlgorithmAlphabet()
    ensures Over(ALGORITHM_RE, DigestChar)
  {
    assert Over(Class(Letter), DigestChar) && Over(Star(Class(Alnum)), DigestChar);
    assert Over(ALGORITHM_PART_RE, DigestChar) && Over(Class(AlgorithmSeparator), DigestChar);
  }

  lemma {:induction false} EncodedShape(encoded: string)
    requires In(ENCODED_RE, encoded)
    ensures encoded != "" && encoded[0] == ':' && forall k :: 0 <= k < |encoded| ==> DigestChar(encoded[k])
  {
    var k := CatWord(Lit(':'), Plus(Class(EncodedChar)), encoded);
    assert encoded[..k] == ":";
    PlusWord(EncodedChar, encoded[k..]);
    assert encoded == ":" + encoded[k..];
  }

  lemma {:induction false} DigestShape(digest: string)
    requires In(DIGEST_RE, digest)
    ensures digest != "" && ':' in digest
    ensures forall k :: 0 <= k < |digest| ==> DigestChar(digest[k])
  {
    var i := CatWord(ALGORITHM_RE, ENCODED_RE, digest);
    AlgorithmAlphabet();
    WordsOver(ALGORITHM_RE, DigestChar, digest[..i]);
    EncodedShape(digest[i..]);
    assert digest[i] == ':';
    assert digest == digest[..i] + digest[i..];
  }

  lemma {:induction false} DigestOf(r: Reference)
    requires WellFormed(r)
    ensures r.digest != "" ==> ':' in r.digest && '/' !in r.digest
  {
    if r.digest != "" {
      DigestShape(r.digest);
    }
  }

  lemma {:induction false} RegistryOf(r: Reference)
    requires WellFormed(r)
    ensures '/' !in r.registry
  {
    RegistryShape(r.registry);
  }

  lemma {:induction false} RepositoryOf(r: Reference)
    requires WellFormed(r)
    ensures ':' !in r.repository && '@' !in r.repository
  {
    RepositoryShape(r.repository);
  }

  // ---------------------------------------------------------------- printing, then parsing

  lemma {:induction false} LastIndexUnique(s: string, c: char, i: int)
    requires -1 <= i < |s| && (i >= 0 ==> s[i] == c)
    requires forall k :: i < k < |s| ==> s[k] != c
    ensures LastIndex(s, c) == i
  {
  }

  lemma {:induction false} NotAdjacent(s: string, sub: string)
    requires |sub| >= 2
    requires forall k :: 0 <= k < |s| - 1 ==> s[k] != sub[0] || s[k + 1] != sub[1]
    ensures !Contains(s, sub)
  {
    forall i | 0 <= i <= |s| ensures !HasPrefix(s[i..], sub) {
      if i + |sub| <= |s| {
        assert s[i..][..|sub|][0] == s[i] && s[i..][..|sub|][1] == s[i + 1];
      }
    }
  }

  lemma {:induction false} NoEmptyParts(registry: string, repository: string)
    requires registry != "" && (forall k :: 0 <= k < |registry| ==> RegistryChar(registry[k]))
    requires repository != "" && repository[0] != '/' && repository[|repository| - 1] != '/'
    requires forall k :: 0 <= k < |repository| - 1 && repository[k] == '/' ==> repository[k + 1] != '/'
    ensures var name := registry + "/" + repository;
            !HasPrefix(name, "/") && !HasSuffix(name, "/") && !Contains(name, "//")
  {
    var name := registry + "/" + repository;
    assert name[0] == registry[0] && name[|name| - 1] == repository[|repository| - 1];
    forall k | 0 <= k < |name| - 1 ensures name[k] != '/' || name[k + 1] != '/' {
      if k >= |registry| { assert name[k + 1] == repository[k - |registry|]; }
      if k > |registry| { assert name[k] == repository[k - |registry| - 1]; }
    }
    NotAdjacent(name, "//");
  }

  lemma {:induction false} NormalizePrinted(registry: string, repository: string)
    requires HasExplicitRegistry(registry) && In(REGISTRY_RE, registry) && RepositoryName(repository)
    ensures NormalizeName(registry + "/" + repository) == Ok((registry, repository))
  {
    var name := registry + "/" + repository;
    RegistryShape(registry);
    RepositoryShape(repository);
    NoEmptyParts(registry, repository);
    SplitCons(registry, '/', repository);
    JoinSplit(repository, '/');
    assert Split(name, '/')[1..] == Split(repository, '/');
    CheckNameSound(registry, repository);
  }

  lemma {:induction false} SplitTagPrinted(name: string, slash: nat, tag: string)
    requires slash < |name| && name[slash] == '/'
    requires forall k :: slash < k < |name| ==> name[k] != ':'
    requires ':' !in tag && '/' !in tag
    ensures SplitTag(name + if tag != "" then ":" + tag else "") == Ok((name, tag))
  {
    var s := name + if tag != "" then ":" + tag else "";
    if tag == "" {
      assert s == name;
    } else {
      forall k | |name| < k < |s| ensures s[k] != '/' && s[k] != ':' { assert s[k] == tag[k - |name| - 1]; }
      LastIndexUnique(s, ':', |name|);
      assert s[..|name|] == name && s[|name| + 1..] == tag;
    }
  }

  lemma {:induction false} SplitDigestPrinted(base: string, digest: string)
    requires '@' !in base && '@' !in digest
    ensures SplitDigest(base + if digest != "" then "@" + digest else "") == Ok((base, digest))
  {
    if digest == "" {
      SplitNone(base, '@');
      assert base + "" == base;
    } else {
      assert base + ("@" + digest) == base + ['@'] + digest;
      SplitCons(base, '@', digest);
      SplitNone(digest, '@');
    }
  }

  lemma {:induction false} PrintedIsClean(registry: string, repository: string, suffix: string)
    requires registry != "" && registry[|registry| - 1] != ':'
    requires forall k :: 0 <= k < |registry| ==> RegistryChar(registry[k])
    requires forall k :: 0 <= k < |repository| ==> ComponentChar(repository[k]) || repository[k] == '/'
    requires forall k :: 0 <= k < |suffix| ==> suffix[k] != '/' && !IsSpace(suffix[k])
    ensures var s := registry + "/" + repository + suffix;
            !Contains(s, "://") && forall k :: 0 <= k < |s| ==> !IsSpace(s[k])
  {
    var name := registry + "/" + repository;
    var s := name + suffix;
    forall k | 0 <= k < |s| - 1 ensures s[k] != ':' || s[k + 1] != '/' {
      if k + 1 < |registry| { assert s[k + 1] == registry[k + 1]; }
      if k == |registry| - 1 { assert s[k] == registry[k]; }
      if |registry| <= k < |name| { assert s[k] == name[k]; }
      if k >= |name| { assert s[k + 1] == suffix[k + 1 - |name|]; }
    }
    NotAdjacent(s, "://");
  }

  lemma {:induction false} SplitPrinted(registry: string, repository: string, tag: string, digest: string)
    requires In(REGISTRY_RE, registry) && RepositoryName(repository)
    requires tag != "" ==> In(TAG_RE, tag)
    requires digest != "" ==> In(DIGEST_RE, digest)
    ensures SplitReference(Canonical(registry, repository, tag, digest)) ==
            Ok((registry + "/" + repository, tag, digest))
  {
    RegistryShape(registry);
    RepositoryShape(repository);
    if tag != "" { TagShape(tag); }
    if digest != "" { DigestShape(digest); }
    SplitShaped(registry, repository, tag, digest);
  }

  lemma {:induction false} NoSpaces(s: string)
    requires forall k :: 0 <= k < |s| ==> !IsSpace(s[k])
    ensures TrimSpace(s) == s && ' ' !in s && '\t' !in s && '\r' !in s && '\n' !in s
  {
    TrimSpaceIdentity(s);
  }

  lemma {:induction false} SplitShaped(registry: string, repository: string, tag: string, digest: string)
    requires registry != "" && registry[|registry| - 1] != ':'
    requires forall k :: 0 <= k < |registry| ==> RegistryChar(registry[k])
    requires forall k :: 0 <= k < |repository| ==> ComponentChar(repository[k]) || repository[k] == '/'
    requires forall k :: 0 <= k < |tag| ==> TagChar(tag[k])
    requires forall k :: 0 <= k < |digest| ==> DigestChar(digest[k])
    ensures SplitReference(Canonical(registry, repository, tag, digest)) ==
            Ok((registry + "/" + repository, tag, digest))
  {
    var name := registry + "/" + repository;
    var tagPart := if tag != "" then ":" + tag else "";
    var digestPart := if digest != "" then "@" + digest else "";
    var base := name + tagPart;
    var suffix := tagPart + digestPart;
    assert Canonical(registry, repository, tag, digest) == name + suffix == base + digestPart;
    SuffixChars(tag, digest);
    PrintedIsClean(registry, repository, suffix);
    NoSpaces(name + suffix);
    DigestStage(registry, repository, tag, digest);
    TagStage(registry, repository, tag);
    SplitByStages(name + suffix, base, digest, name, tag);
  }

  lemma {:induction false} TagStage(registry: string, repository: string, tag: string)
    requires forall k :: 0 <= k < |repository| ==> ComponentChar(repository[k]) || repository[k] == '/'
    requires forall k :: 0 <= k < |tag| ==> TagChar(tag[k])
    ensures SplitTag(registry + "/" + repository + if tag != "" then ":" + tag else "") ==
            Ok((registry + "/" + repository, tag))
  {
    var name := registry + "/" + repository;
    forall k | |registry| < k < |name| ensures name[k] != ':' { assert name[k] == repository[k - |registry| - 1]; }
    SplitTagPrinted(name, |registry|, tag);
  }

  lemma {:induction false} DigestStage(registry: string, repository: string, tag: string, digest: string)
    requires forall k :: 0 <= k < |registry| ==> RegistryChar(registry[k])
    requires forall k :: 0 <= k < |repository| ==> ComponentChar(repository[k]) || repository[k] == '/'
    requires forall k :: 0 <= k < |tag| ==> TagChar(tag[k])
    requires forall k :: 0 <= k < |digest| ==> DigestChar(digest[k])
    ensures var base := registry + "/" + repository + if tag != "" then ":" + tag else "";
            SplitDigest(base + if digest != "" then "@" + digest else "") == Ok((base, digest))
  {
    var base := registry + "/" + repository + if tag != "" then ":" + tag else "";
    assert forall k :: 0 <= k < |base| ==> base[k] != '@';
    SplitDigestPrinted(base, digest);
  }

  lemma {:induction false} SuffixChars(tag: string, digest: string)
    requires forall k :: 0 <= k < |tag| ==> TagChar(tag[k])
    requires forall k :: 0 <= k < |digest| ==> DigestChar(digest[k])
    ensures var suffix := (if tag != "" then ":" + tag else "") + (if digest != "" then "@" + digest else "");
            forall k :: 0 <= k < |suffix| ==> suffix[k] != '/' && !IsSpace(suffix[k])
    ensures '/' !in tag && ':' !in tag && '@' !in tag && '@' !in digest
  {
  }

  lemma {:induction false} SplitByStages(s: string, base: string, digest: string, name: string, tag: string)
    requires s != "" && base != "" && TrimSpace(s) == s && !Contains(s, "://")
    requires ' ' !in s && '\t' !in s && '\r' !in s && '\n' !in s
    requires SplitDigest(s) == Ok((base, digest)) && SplitTag(base) == Ok((name, tag))
    ensures SplitReference(s) == Ok((name, tag, digest))
  {
  }

  /** Round trip: a well-formed reference is recovered from its canonical form. */
  lemma {:induction false} PrintThenParse(r: Reference)
    requires WellFormed(r)
    ensures ParseReference(r.canonicalRef) == Ok(r)
  {
    SplitPrinted(r.registry, r.repository, r.tag, r.digest);
    AssemblePrinted(r);
  }

  lemma {:induction false} AssemblePrinted(r: Reference)
    requires WellFormed(r)
    ensures AssembleReference(r.registry + "/" + r.repository, r.tag, r.digest) == Ok(r)
  {
    NormalizePrinted(r.registry, r.repository);
    MatchStringDecides(TAG_RE, r.tag);
    MatchStringDecides(DIGEST_RE, r.digest);
  }

  /** The parser's image is exactly the set of well-formed references. */
  lemma {:induction false} WellFormedIffParsed(r: Reference)
    ensures WellFormed(r) <==> exists s :: ParseReference(s) == Ok(r)
  {
    if WellFormed(r) {
      PrintThenParse(r);
    }
    if exists s :: ParseReference(s) == Ok(r) {
      var s :| ParseReference(s) == Ok(r);
      ParsedIsWellFormed(s);
    }
  }

  /** Parsing is idempotent through the canonical form. */
  lemma {:induction false} CanonicalFixpoint(s: string)
    requires ParseReference(s).Ok?
    ensures ParseReference(ParseReference(s).value.canonicalRef) == ParseReference(s)
  {
    ParsedIsWellFormed(s);
    PrintThenParse(ParseReference(s).value);
  }

  /** Two inputs with the same canonical form denote the same reference. */
  lemma {:induction false} CanonicalIsInjective(s: string, t: string)
    requires ParseReference(s).Ok? && ParseReference(t).Ok?
    requires ParseReference(s).value.canonicalRef == ParseReference(t).value.canonicalRef
    ensures ParseReference(s) == ParseReference(t)
  {
    CanonicalFixpoint(s);
    CanonicalFixpoint(t);
  }
}
