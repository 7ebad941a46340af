/** Which texts are references, and to what: names, tags and digests in the grammar, and nothing else. */
module Spelling {
  import opened Prelude
  import opened Text
  import opened Regex
  import opened Image
  import opened Grammar

  // ---------------------------------------------------------------- what a name denotes

  predicate Explicit(first: string) {
    '.' in first || ':' in first || first == "localhost"
  }

  function First(name: string): string {
    name[..IndexOf(name, '/')]
  }

  /**
   A name with a registry in front of it, or one of docker.io: with its namespace, or without one, and then it is in
   the namespace `library`.
   */
  predicate Denotes(name: string, registry: string, repository: string) {
    || (Explicit(registry) && '/' !in registry && name == registry + "/" + repository)
    || (!Explicit(First(name)) && '/' in name && registry == "docker.io" && repository == name)
    || (!Explicit(First(name)) && '/' !in name && registry == "docker.io" && repository == "library/" + name)
  }

  /** Path components separated by slashes. */
  predicate PathText(repository: string) {
    forall k :: 0 <= k < |Split(repository, '/')| ==> ComponentText(Split(repository, '/')[k])
  }

  lemma {:induction false} PathIff(repository: string)
    ensures RepositoryName(repository) <==> PathText(repository)
  {
    var parts := Split(repository, '/');
    forall k | 0 <= k < |parts| ensures In(COMPONENT_RE, parts[k]) <==> ComponentText(parts[k]) {
      ComponentIff(parts[k]);
    }
    if PathText(repository) { NoColonInPath(repository); }
  }

  lemma {:induction false} NoColonInPath(repository: string)
    requires PathText(repository)
    ensures ':' !in repository
    decreases |repository|
  {
    var i := IndexOf(repository, '/');
    var parts := Split(repository, '/');
    NoColonInComponent(parts[0]);
    if i < |repository| {
      var rest := repository[i + 1..];
      assert parts == [repository[..i]] + Split(rest, '/');
      assert forall k :: 0 <= k < |Split(rest, '/')| ==> Split(rest, '/')[k] == parts[k + 1];
      NoColonInPath(rest);
      assert repository == repository[..i] + "/" + rest;
    } else {
      assert repository[..i] == repository;
    }
  }

  lemma {:induction false} NoColonInComponent(s: string)
    requires ComponentText(s)
    ensures ':' !in s
  {
    forall i | 0 <= i < |s| ensures s[i] != ':' { assert Fits(s, i); }
  }

  lemma {:induction false} FirstIs(name: string)
    ensures Split(name, '/')[0] == First(name)
    ensures '/' !in name ==> Split(name, '/') == [name]
    ensures '/' in name ==> |Split(name, '/')| > 1 && name == First(name) + "/" + Join(Split(name, '/')[1..], '/')
  {
    if '/' in name {
      JoinSplit(name, '/');
    } else {
      SplitNone(name, '/');
      IndexOfUnique(name, '/', |name|);
    }
  }

  lemma {:induction false} NormalizedDenotes(name: string)
    requires NormalizeName(name).Ok?
    ensures var (registry, repository) := NormalizeName(name).value;
            Denotes(name, registry, repository) && In(REGISTRY_RE, registry) && RepositoryName(repository)
  {
    NormalizedName(name);
    NormalizedIsChecked(name);
    FirstIs(name);
  }

  lemma {:induction false} PathHasNoGap(name: string)
    requires name != "" && name[0] != '/' && name[|name| - 1] != '/'
    requires forall k :: 0 <= k < |name| - 1 && name[k] == '/' ==> name[k + 1] != '/'
    ensures !HasPrefix(name, "/") && !HasSuffix(name, "/") && !Contains(name, "//")
  {
    NotAdjacent(name, "//");
  }

  lemma {:induction false} SplitsByDefault(name: string)
    requires !Explicit(First(name))
    ensures SplitName(name) == ("docker.io", if '/' in name then name else "library/" + name)
    ensures !HasExplicitRegistry(Split(name, '/')[0])
  {
    FirstIs(name);
  }

  lemma {:induction false} DefaultNormalizes(name: string, registry: string, repository: string)
    requires !Explicit(First(name)) && SplitName(name) == (registry, repository)
    requires !HasPrefix(name, "/") && !HasSuffix(name, "/") && !Contains(name, "//")
    requires CheckName(registry, repository) == Ok((registry, repository))
    ensures NormalizeName(name) == Ok((registry, repository))
  {
    SplitsByDefault(name);
  }

  lemma {:induction false} DenotedNormalizes(name: string, registry: string, repository: string)
    requires Denotes(name, registry, repository) && In(REGISTRY_RE, registry) && RepositoryName(repository)
    ensures NormalizeName(name) == Ok((registry, repository))
  {
    if Explicit(registry) && '/' !in registry && name == registry + "/" + repository {
      NormalizePrinted(registry, repository);
    } else {
      CheckNameSound(registry, repository);
      SplitsByDefault(name);
      if '/' in name { RepositoryShape(name); PathHasNoGap(name); } else { ShortName(name); }
      DefaultNormalizes(name, registry, repository);
    }
  }

  lemma {:induction false} ShortName(name: string)
    requires '/' !in name && RepositoryName("library/" + name)
    ensures name != "" && !HasPrefix(name, "/") && !HasSuffix(name, "/") && !Contains(name, "//")
  {
    var repository := "library/" + name;
    RepositoryShape(repository);
    assert repository[|repository| - 1] == if name == "" then '/' else name[|name| - 1];
    PathHasNoGap(name);
  }

  // ---------------------------------------------------------------- texts and their parts

  predicate Clean(s: string) {
    forall k :: 0 <= k < |s| ==> !IsSpace(s[k]) && s[k] != '@'
  }

  lemma {:induction false} SplitBehind(front: string, s: string, sep: char)
    requires sep !in front
    ensures Split(front + s, sep) == [front + Split(s, sep)[0]] + Split(s, sep)[1..]
  {
    if sep !in s {
      SplitNone(s, sep);
      SplitNone(front + s, sep);
    } else {
      var i := IndexOf(s, sep);
      var a, b := s[..i], s[i + 1..];
      assert s == a + [sep] + b && front + s == (front + a) + [sep] + b;
      SplitCons(a, sep, b);
      SplitCons(front + a, sep, b);
    }
  }

  /** The digest of a combined reference is what follows the `@` of the tag. */
  lemma {:induction false} DigestBehind(front: string, tag: string)
    requires '@' !in front
    ensures SplitDigest(front + tag).Ok? <==> SplitDigest(tag).Ok?
    ensures SplitDigest(tag).Ok? ==>
              var (t, d) := SplitDigest(tag).value;
              SplitDigest(front + tag) == Ok((front + t, d)) && tag == t + (if d != "" then "@" + d else "")
  {
    var parts := Split(tag, '@');
    SplitBehind(front, tag, '@');
    JoinSplit(tag, '@');
    if |parts| == 2 {
      assert tag == parts[0] + "@" + parts[1];
    }
  }

  lemma {:induction false} ShapedIsClean(registry: string, repository: string)
    requires forall k :: 0 <= k < |registry| ==> RegistryChar(registry[k])
    requires forall k :: 0 <= k < |repository| ==> ComponentChar(repository[k]) || repository[k] == '/'
    ensures Clean(registry + "/" + repository) && Clean(repository)
  {
  }

  /** A name that normalizes is the registry, a slash and the repository, or the end of the repository. */
  lemma {:induction false} NormalizedFrom(name: string)
    requires NormalizeName(name).Ok?
    ensures var (registry, repository) := NormalizeName(name).value;
            name == registry + "/" + repository || HasSuffix(repository, name)
  {
    NormalizedIsChecked(name);
    JoinSplit(name, '/');
  }

  lemma {:induction false} NormalizedIsClean(name: string)
    requires NormalizeName(name).Ok?
    ensures Clean(name)
  {
    var (registry, repository) := NormalizeName(name).value;
    NormalizedName(name);
    RegistryShape(registry);
    RepositoryShape(repository);
    ShapedIsClean(registry, repository);
    NormalizedFrom(name);
    if HasSuffix(repository, name) {
      forall k | 0 <= k < |name| ensures !IsSpace(name[k]) && name[k] != '@' {
        assert name[k] == repository[|repository| - |name| + k];
      }
    }
  }

  lemma {:induction false} NormalizedHasNoGap(name: string)
    requires NormalizeName(name).Ok?
    ensures forall k :: 0 <= k < |name| - 1 && name[k] == '/' ==> name[k + 1] != '/'
  {
    forall k | 0 <= k < |name| - 1 && name[k] == '/' ensures name[k + 1] != '/' {
      assert name[k..][..2] == [name[k], name[k + 1]];
    }
  }

  lemma {:induction false} NoScheme(name: string, rest: string)
    requires forall k :: 0 <= k < |name| - 1 && name[k] == '/' ==> name[k + 1] != '/'
    requires '/' !in rest
    ensures !Contains(name + rest, "://")
  {
    var s := name + rest;
    forall i | 0 <= i <= |s| ensures !HasPrefix(s[i..], "://") {
      if i + 2 < |s| {
        assert s[i + 1] != '/' || s[i + 2] != '/' by {
          if i + 2 >= |name| { assert s[i + 2] == rest[i + 2 - |name|]; }
        }
        assert |s[i..]| >= 3 ==> s[i..][..3][1] == s[i + 1] && s[i..][..3][2] == s[i + 2];
      }
    }
  }

  /** The last component holds a colon. */
  predicate ColonLast(name: string) {
    LastIndex(name, ':') > LastIndex(name, '/')
  }

  lemma {:induction false} ColonInFront(front: string, rest: string, colon: nat)
    requires ':' !in rest && '/' !in front && colon < |front + "/" + rest| && (front + "/" + rest)[colon] == ':'
    ensures colon < |front| && IndexOf(front + "/" + rest, '/') == |front|
  {
    var name := front + "/" + rest;
    IndexOfUnique(name, '/', |front|);
    assert forall k :: |front| < k < |name| ==> name[k] == rest[k - |front| - 1];
  }

  lemma {:induction false} NoColonInEnd(front: string, end: string)
    requires ':' !in front + end
    ensures ':' !in end
  {
    assert forall k :: 0 <= k < |end| ==> end[k] == (front + end)[|front| + k];
  }

  /** A name whose last component has a colon is refused. */
  lemma {:induction false} ColonInLastComponent(name: string)
    requires ColonLast(name)
    ensures NormalizeName(name).Err?
  {
    if NormalizeName(name).Ok? {
      var (registry, repository) := NormalizeName(name).value;
      NormalizedDenotes(name);
      if Explicit(registry) && '/' !in registry && name == registry + "/" + repository {
        ColonInFront(registry, repository, LastIndex(name, ':'));
      } else if repository == "library/" + name {
        NoColonInEnd("library/", name);
      }
    }
  }

  lemma {:induction false} LastColonSplits(name: string, after: string)
    requires '/' !in after && ':' !in after
    ensures var s := name + ":" + after;
            LastIndex(s, ':') == |name| && LastIndex(s, '/') < |name| && s[..|name|] == name && s[|name| + 1..] == after
  {
    var s := name + ":" + after;
    assert s[|name|] == ':';
    forall k | |name| < k < |s| ensures s[k] == after[k - |name| - 1] { }
  }

  function Tagged(name: string, tag: string): string {
    name + if tag != "" then ":" + tag else ""
  }

  function WithDigest(named: string, digest: string): string {
    named + if digest != "" then "@" + digest else ""
  }

  lemma {:induction false} TaggedIsSplit(name: string, tag: string)
    requires !ColonLast(name) && ':' !in tag && '/' !in tag
    ensures SplitTag(Tagged(name, tag)) == Ok((name, tag))
  {
    if tag == "" {
      assert Tagged(name, tag) == name;
    } else {
      LastColonSplits(name, tag);
      assert Tagged(name, tag) == name + ":" + tag;
    }
  }

  /** The text of a name, a tag and a digest falls apart into them again. */
  lemma {:induction false} TextIsSplit(name: string, tag: string, digest: string)
    requires name != "" && Clean(name) && !ColonLast(name)
    requires forall k :: 0 <= k < |name| - 1 && name[k] == '/' ==> name[k + 1] != '/'
    requires forall k :: 0 <= k < |tag| ==> TagChar(tag[k])
    requires forall k :: 0 <= k < |digest| ==> DigestChar(digest[k])
    ensures SplitReference(WithDigest(Tagged(name, tag), digest)) == Ok((name, tag, digest))
  {
    var base, s := Tagged(name, tag), WithDigest(Tagged(name, tag), digest);
    var rest := (if tag != "" then ":" + tag else "") + if digest != "" then "@" + digest else "";
    assert s == name + rest;
    SuffixChars(tag, digest);
    NoScheme(name, rest);
    NoSpaces(s);
    SplitDigestPrinted(base, digest);
    TaggedIsSplit(name, tag);
    SplitByStages(s, base, digest, name, tag);
  }

  lemma {:induction false} DigestSplits(s: string)
    requires SplitDigest(s).Ok?
    ensures var (named, digest) := SplitDigest(s).value;
            |named| <= |s| && named == s[..|named|] && ('/' !in digest ==> '/' !in s[|named|..])
  {
    JoinSplit(s, '@');
    var (named, digest) := SplitDigest(s).value;
    assert digest != "" ==> s[|named|..] == "@" + digest;
  }

  lemma {:induction false} TagSplits(named: string)
    requires SplitTag(named).Ok?
    ensures var (name, tag) := SplitTag(named).value;
            |name| <= |named| && name == named[..|name|] && '/' !in named[|name|..]
  {
  }

  // ---------------------------------------------------------------- which texts parse

  /** The text consists of a name, a tag and a digest, each but the name optional, and `r` is what they denote. */
  ghost predicate Says(s: string, name: string, tag: string, digest: string, r: Reference) {
    && s == name + (if tag == "" then "" else ":" + tag) + (if digest == "" then "" else "@" + digest)
    && Denotes(name, r.registry, r.repository) && RegistryText(r.registry) && PathText(r.repository)
    && (tag != "" ==> TagText(tag)) && (digest != "" ==> DigestText(digest))
    && r.tag == (if tag == "" && digest == "" then "latest" else tag) && r.digest == digest
    && r.isMutableTag == (digest == "") && r.isDigestPinned == (digest != "")
    && r.canonicalRef == r.registry + "/" + r.repository + (if r.tag == "" then "" else ":" + r.tag)
                         + (if digest == "" then "" else "@" + digest)
  }

  lemma {:induction false} StagesSay(s: string, name: string, tag: string, digest: string, r: Reference)
    requires s == WithDigest(Tagged(name, tag), digest) && WellFormed(r) && r.digest == digest
    requires NormalizeName(name) == Ok((r.registry, r.repository))
    requires r.tag == if digest == "" && tag == "" then DEFAULT_TAG else tag
    ensures Says(s, name, tag, digest, r)
  {
    NormalizedDenotes(name);
    RegistryIff(r.registry);
    PathIff(r.repository);
    TagIff(r.tag);
    DigestIff(r.digest);
  }

  lemma {:induction false} SplitTagParts(named: string)
    requires SplitTag(named).Ok?
    ensures var (name, tag) := SplitTag(named).value; named == Tagged(name, tag)
  {
    var i := LastIndex(named, ':');
    if i > LastIndex(named, '/') {
      assert named == named[..i] + ":" + named[i + 1..];
    } else {
      assert named + "" == named;
    }
  }

  lemma {:induction false} SplitDigestText(s: string)
    requires SplitDigest(s).Ok?
    ensures var (named, digest) := SplitDigest(s).value; s == WithDigest(named, digest)
  {
    JoinSplit(s, '@');
  }

  lemma {:induction false} ParsedSays(s: string, r: Reference)
    requires ParseReference(s) == Ok(r)
    ensures exists name, tag, digest :: Says(s, name, tag, digest, r)
  {
    ParseStages(s);
    ParsedIsWellFormed(s);
    var named, digest := SplitDigest(s).value.0, SplitDigest(s).value.1;
    var name, tag := SplitTag(named).value.0, SplitTag(named).value.1;
    SplitDigestText(s);
    SplitTagParts(named);
    StagesSay(s, name, tag, digest, r);
  }

  lemma {:induction false} SaidIsSplit(name: string, tag: string, digest: string)
    requires NormalizeName(name).Ok?
    requires (tag != "" ==> In(TAG_RE, tag)) && (digest != "" ==> In(DIGEST_RE, digest))
    ensures SplitReference(WithDigest(Tagged(name, tag), digest)) == Ok((name, tag, digest))
  {
    NormalizedIsClean(name);
    NormalizedHasNoGap(name);
    NormalizedIsNonEmpty(name);
    if ColonLast(name) { ColonInLastComponent(name); }
    if tag != "" { TagShape(tag); }
    if digest != "" { DigestShape(digest); }
    TextIsSplit(name, tag, digest);
  }

  lemma {:induction false} NormalizedIsNonEmpty(name: string)
    requires NormalizeName(name).Ok?
    ensures name != ""
  {
    NormalizedDenotes(name);
    var (registry, repository) := NormalizeName(name).value;
    if '/' !in name { if name != registry + "/" + repository { ShortName(name); } }
  }

  lemma {:induction false} SaidParses(s: string, name: string, tag: string, digest: string, r: Reference)
    requires Says(s, name, tag, digest, r)
    ensures ParseReference(s) == Ok(r)
  {
    RegistryIff(r.registry);
    PathIff(r.repository);
    DenotedNormalizes(name, r.registry, r.repository);
    TagIff(tag);
    DigestIff(digest);
    SaidIsSplit(name, tag, digest);
    assert s == WithDigest(Tagged(name, tag), digest);
    Assembled(name, tag, digest, r);
  }

  lemma {:induction false} DefaultTag()
    ensures In(TAG_RE, "latest") && DEFAULT_TAG == "latest"
  {
    TagIff("latest");
  }

  lemma {:induction false} Assembled(name: string, tag: string, digest: string, r: Reference)
    requires NormalizeName(name) == Ok((r.registry, r.repository))
    requires (tag != "" ==> In(TAG_RE, tag)) && (digest != "" ==> In(DIGEST_RE, digest))
    requires r == MakeReference(r.registry, r.repository, r.tag, digest)
    requires r.tag == if tag == "" && digest == "" then DEFAULT_TAG else tag
    ensures AssembleReference(name, r.tag, digest) == Ok(r)
  {
    DefaultTag();
    MatchStringDecides(TAG_RE, r.tag);
    MatchStringDecides(DIGEST_RE, digest);
  }

  lemma {:induction false} TaggedParses(name: string, tag: string, digest: string)
    requires NormalizeName(name).Ok? && In(TAG_RE, tag) && (digest != "" ==> In(DIGEST_RE, digest))
    ensures tag != ""
    ensures var (registry, repository) := NormalizeName(name).value;
            ParseReference(WithDigest(Tagged(name, tag), digest))
            == Ok(MakeReference(registry, repository, tag, digest))
  {
    TagShape(tag);
    SaidIsSplit(name, tag, digest);
    Assembled(name, tag, digest,
              MakeReference(NormalizeName(name).value.0, NormalizeName(name).value.1, tag, digest));
  }

  /**
   Exactly the texts that are references, and exactly what each denotes: a name, with a tag, a digest, both or
   neither, all in the grammar; without either, the tag is `latest`.
   */
  lemma {:induction false} ParsesIff(s: string, r: Reference)
    ensures ParseReference(s) == Ok(r) <==> exists name, tag, digest :: Says(s, name, tag, digest, r)
  {
    if ParseReference(s) == Ok(r) { ParsedSays(s, r); }
    if name, tag, digest :| Says(s, name, tag, digest, r) { SaidParses(s, name, tag, digest, r); }
  }

  lemma {:induction false} OfficialPath(library: string, word: string)
    requires ComponentText(library) && ComponentText(word) && '/' !in library && '/' !in word
    ensures PathText(library + "/" + word)
  {
    SplitCons(library, '/', word);
    SplitNone(word, '/');
    assert library + "/" + word == library + ['/'] + word;
    assert Split(library + "/" + word, '/') == [library, word];
  }

  function Official(registry: string, path: string, latest: string): Reference {
    Reference(registry, path, latest, "", true, false, registry + "/" + path + ":" + latest)
  }

  lemma {:induction false} WordSays(word: string, registry: string, path: string, latest: string)
    requires word != "" && '/' !in word && !Explicit(word)
    requires registry == "docker.io" && path == "library/" + word && latest == "latest"
    requires RegistryText(registry) && PathText(path)
    ensures ParseReference(word) == Ok(Official(registry, path, latest))
  {
    var r := Official(registry, path, latest);
    IndexOfUnique(word, '/', |word|);
    assert First(word) == word;
    assert word + "" + "" == word;
    assert r.canonicalRef + "" == r.canonicalRef;
    assert Says(word, word, "", "", r);
    SaidParses(word, word, "", "", r);
  }

  /** A single word is an official image of docker.io, at the tag `latest`. */
  lemma {:induction false} WordDenotes(word: string)
    requires word != "" && (forall i :: 0 <= i < |word| ==> 'a' <= word[i] <= 'z') && word != "localhost"
    ensures ParseReference(word) == Ok(Official("docker.io", "library/" + word, "latest"))
  {
    var registry, library := "docker.io", "library";
    LowerWordIsComponent(word);
    LowerWordIsComponent(library);
    OfficialPath(library, word);
    assert library + "/" + word == "library/" + word;
    DockerHost(registry);
    WordSays(word, registry, "library/" + word, "latest");
  }

  lemma {:induction false} LowerWordIsComponent(word: string)
    requires word != "" && forall i :: 0 <= i < |word| ==> 'a' <= word[i] <= 'z'
    ensures ComponentText(word)
  {
  }

  lemma {:induction false} DockerHost(registry: string)
    requires registry == "docker.io"
    ensures RegistryText(registry)
  {
    assert HostText(registry);
  }

  lemma {:induction false} WordIs(word: string)
    requires word == "nginx"
    ensures word != "" && (forall i :: 0 <= i < |word| ==> 'a' <= word[i] <= 'z') && word != "localhost"
  {
  }

  lemma {:induction false} NginxTexts(word: string)
    requires word == "nginx"
    ensures Official("docker.io", "library/" + word, "latest")
            == Reference("docker.io", "library/nginx", "latest", "", true, false, "docker.io/library/nginx:latest")
  {
    assert "library/" + word == "library/nginx";
    assert "docker.io" + "/" + "library/nginx" + ":" + "latest" == "docker.io/library/nginx:latest";
  }

  /** In particular `nginx`. */
  lemma {:induction false} NginxDenotes(word: string)
    requires word == "nginx"
    ensures ParseReference(word) == Ok(Reference("docker.io", "library/nginx", "latest", "", true, false,
                                                 "docker.io/library/nginx:latest"))
  {
    WordIs(word);
    WordDenotes(word);
    NginxTexts(word);
  }
}
