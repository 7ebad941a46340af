/**
 The Docker authorization plugin (internal/authz/server.go): which requests it decides, and that it
 answers Allow only when every image has been allowed and the decision is on record.
 */
module Requests {
  import opened Prelude
  import opened Text
  import opened Regex
  import opened Image
  import opened Spelling

  /** A request URI after parsing, with the query values that are looked at. */
  datatype Uri = Uri(path: string, fromImage: string, tag: string, pull: string)

  /**
   A decoded plugin request. JSON decoding of the embedded body is not part of this model: the two images
   are the ones it would yield for a container and for a service, if it decodes.
   */
  datatype PluginRequest = PluginRequest(
    user: string,
    verb: string,
    rawUri: string,
    uri: Option<Uri>,
    body: string,
    containerImage: Option<string>,
    serviceImage: Option<string>)

  datatype InspectError = BadUri | MissingFromImage | MissingBody | BadBody | MissingImage

  datatype Action = Pass | DecideImages(imageRefs: seq<string>) | DenyBuild

  function Parts(path: string): seq<string> {
    Split(TrimChar(path, '/'), '/')
  }

  predicate Versioned(parts: seq<string>) {
    parts != [] && parts[0] != "" && parts[0][0] == 'v'
  }

  predicate IsImagesCreate(path: string) {
    var p := Parts(path); Versioned(p) && p[1..] == ["images", "create"]
  }

  predicate IsBuild(path: string) {
    var p := Parts(path); Versioned(p) && p[1..] == ["build"]
  }

  predicate IsContainersCreate(path: string) {
    var p := Parts(path); Versioned(p) && p[1..] == ["containers", "create"]
  }

  predicate IsServicesCreate(path: string) {
    var p := Parts(path); Versioned(p) && p[1..] == ["services", "create"]
  }

  predicate IsServicesUpdate(path: string) {
    var p := Parts(path); Versioned(p) && |p| == 4 && p[1] == "services" && p[2] != "" && p[3] == "update"
  }

  predicate QueryBool(value: string) {
    ToLower(value) in ["1", "true", "t", "yes", "y"]
  }

  predicate HasTag(ref: string) {
    LastIndex(ref, ':') > LastIndex(ref, '/')
  }

  function CombineImageAndTag(fromImage: string, tag: string): string {
    if tag == "" || '@' in fromImage || HasTag(fromImage) then fromImage else fromImage + ":" + tag
  }

  function BodyImage(body: string, image: Option<string>): Result<Action, InspectError> {
    if TrimSpace(body) == "" then Err(MissingBody)
    else if image.None? then Err(BadBody)
    else if image.value == "" then Err(MissingImage)
    else Ok(DecideImages([image.value]))
  }

  function InspectRequest(r: PluginRequest): Result<Action, InspectError> {
    if !EqualFold(r.verb, "POST") then Ok(Pass)
    else if r.uri.None? then Err(BadUri)
    else
      var u := r.uri.value;
      if IsImagesCreate(u.path) then
        if u.fromImage == "" then Err(MissingFromImage) else Ok(DecideImages([CombineImageAndTag(u.fromImage, u.tag)]))
      else if IsBuild(u.path) then Ok(if QueryBool(u.pull) then DenyBuild else Pass)
      else if IsContainersCreate(u.path) then BodyImage(r.body, r.containerImage)
      else if IsServicesCreate(u.path) || IsServicesUpdate(u.path) then BodyImage(r.body, r.serviceImage)
      else Ok(Pass)
  }

  // ---------------------------------------------------------------- which requests pass undecided

  predicate Version(v: string) {
    v != "" && v[0] == 'v' && '/' !in v
  }

  /** The path is a version, a slash and `rest`, but for slashes around it. */
  ghost predicate Under(path: string, rest: string) {
    exists v :: Version(v) && TrimChar(path, '/') == v + "/" + rest
  }

  ghost predicate UpdatesService(path: string) {
    exists id :: id != "" && '/' !in id && Under(path, "services" + "/" + (id + "/" + "update"))
  }

  /** Apart from its version, the path has the components of `rest`. */
  lemma {:induction false} UnderSplits(path: string, rest: string)
    ensures Versioned(Parts(path)) && Parts(path)[1..] == Split(rest, '/') <==> Under(path, rest)
  {
    var s, parts := TrimChar(path, '/'), Parts(path);
    if Versioned(parts) && parts[1..] == Split(rest, '/') {
      JoinSplit(s, '/');
      JoinSplit(rest, '/');
      JoinCons(parts[0], Split(rest, '/'), '/');
      assert parts == [parts[0]] + Split(rest, '/');
      assert Version(parts[0]) && s == parts[0] + "/" + rest;
    }
    if v :| Version(v) && s == v + "/" + rest {
      SplitCons(v, '/', rest);
      assert parts == [v] + Split(rest, '/');
    }
  }

  lemma {:induction false} SplitTwo(a: string, b: string)
    requires '/' !in a && '/' !in b
    ensures Split(a + "/" + b, '/') == [a, b]
  {
    SplitCons(a, '/', b);
    SplitNone(b, '/');
    assert a + "/" + b == a + ['/'] + b;
    assert [a] + [b] == [a, b];
  }

  lemma {:induction false} SplitThree(a: string, b: string, c: string)
    requires '/' !in a && '/' !in b && '/' !in c
    ensures Split(a + "/" + (b + "/" + c), '/') == [a, b, c]
  {
    SplitTwo(b, c);
    SplitCons(a, '/', b + "/" + c);
    assert a + "/" + (b + "/" + c) == a + ['/'] + (b + "/" + c);
    assert [a] + [b, c] == [a, b, c];
  }

  lemma {:induction false} TwoComponents(path: string, a: string, b: string)
    requires '/' !in a && '/' !in b
    ensures Versioned(Parts(path)) && Parts(path)[1..] == [a, b] <==> Under(path, a + "/" + b)
  {
    SplitTwo(a, b);
    UnderSplits(path, a + "/" + b);
  }

  lemma {:induction false} BuildPath(path: string)
    ensures IsBuild(path) <==> Under(path, "build")
  {
    SplitNone("build", '/');
    UnderSplits(path, "build");
  }

  lemma {:induction false} CreatePaths(path: string)
    ensures IsImagesCreate(path) <==> Under(path, "images/create")
    ensures IsContainersCreate(path) <==> Under(path, "containers/create")
    ensures IsServicesCreate(path) <==> Under(path, "services/create")
  {
    TwoComponents(path, "images", "create");
    TwoComponents(path, "containers", "create");
    TwoComponents(path, "services", "create");
    assert "images" + "/" + "create" == "images/create";
    assert "containers" + "/" + "create" == "containers/create";
    assert "services" + "/" + "create" == "services/create";
  }

  lemma {:induction false} ThreeComponents(path: string, a: string, c: string)
    requires '/' !in a && '/' !in c
    ensures Versioned(Parts(path)) && |Parts(path)| == 4 && Parts(path)[1] == a && Parts(path)[2] != ""
            && Parts(path)[3] == c
            <==> exists id :: id != "" && '/' !in id && Under(path, a + "/" + (id + "/" + c))
  {
    var parts := Parts(path);
    if Versioned(parts) && |parts| == 4 && parts[1] == a && parts[2] != "" && parts[3] == c {
      SplitThree(a, parts[2], c);
      UnderSplits(path, a + "/" + (parts[2] + "/" + c));
      assert parts[1..] == [a, parts[2], c];
    }
    if id :| id != "" && '/' !in id && Under(path, a + "/" + (id + "/" + c)) {
      SplitThree(a, id, c);
      UnderSplits(path, a + "/" + (id + "/" + c));
      assert parts[1..][0] == a && parts[1..][1] == id && parts[1..][2] == c;
    }
  }

  lemma {:induction false} UpdatePath(path: string)
    ensures IsServicesUpdate(path) <==> UpdatesService(path)
  {
    ThreeComponents(path, "services", "update");
  }

  /** The method and the path of a request that makes the daemon fetch an image. */
  ghost predicate Fetches(u: Uri) {
    || Under(u.path, "images/create") || Under(u.path, "containers/create") || Under(u.path, "services/create")
    || UpdatesService(u.path)
    || (Under(u.path, "build") && QueryBool(u.pull))
  }

  lemma {:induction false} FetchesIff(u: Uri)
    ensures Fetches(u) <==>
            || IsImagesCreate(u.path) || IsContainersCreate(u.path) || IsServicesCreate(u.path)
            || IsServicesUpdate(u.path) || (IsBuild(u.path) && QueryBool(u.pull))
  {
    CreatePaths(u.path);
    BuildPath(u.path);
    UpdatePath(u.path);
  }

  lemma {:induction false} BodyNeverPasses(body: string, image: Option<string>)
    ensures BodyImage(body, image) != Ok(Pass) && BodyImage(body, image) != Ok(DenyBuild)
  {
  }

  lemma {:induction false} InspectedPasses(r: PluginRequest)
    requires EqualFold(r.verb, "POST") && r.uri.Some?
    ensures var u := r.uri.value;
            InspectRequest(r) == Ok(Pass) <==>
            !(|| IsImagesCreate(u.path) || IsContainersCreate(u.path) || IsServicesCreate(u.path)
              || IsServicesUpdate(u.path) || (IsBuild(u.path) && QueryBool(u.pull)))
  {
    BodyNeverPasses(r.body, r.containerImage);
    BodyNeverPasses(r.body, r.serviceImage);
  }

  /**
   A request passes undecided if and only if it is no POST, or its path, taken as text, is none of a versioned
   image, container or service creation, service update, or build that asks to pull.
   */
  lemma {:induction false} PassesIff(r: PluginRequest)
    ensures InspectRequest(r) == Ok(Pass) <==>
            !EqualFold(r.verb, "POST") || (r.uri.Some? && !Fetches(r.uri.value))
  {
    if EqualFold(r.verb, "POST") && r.uri.Some? {
      InspectedPasses(r);
      FetchesIff(r.uri.value);
    }
  }

  /** A build is denied if and only if it is a versioned POST that asks to pull. */
  lemma {:induction false} BuildsDeniedIff(r: PluginRequest)
    ensures InspectRequest(r) == Ok(DenyBuild) <==>
            EqualFold(r.verb, "POST") && r.uri.Some? && Under(r.uri.value.path, "build") && QueryBool(r.uri.value.pull)
  {
    if r.uri.Some? {
      BuildPath(r.uri.value.path);
    }
  }

  lemma {:induction false} NoVersion(path: string, rest: string)
    requires Under(path, rest)
    ensures HasPrefix(TrimChar(path, '/'), "v")
  {
    var v :| Version(v) && TrimChar(path, '/') == v + "/" + rest;
    assert TrimChar(path, '/')[0] == 'v';
  }

  /** Without a version at the front of its path, a request passes, whatever it would fetch. */
  lemma {:induction false} UnversionedPasses(r: PluginRequest)
    requires r.uri.Some? && !HasPrefix(TrimChar(r.uri.value.path, '/'), "v")
    ensures InspectRequest(r) == Ok(Pass)
  {
    forall rest ensures !Under(r.uri.value.path, rest) {
      if Under(r.uri.value.path, rest) { NoVersion(r.uri.value.path, rest); }
    }
    PassesIff(r);
  }

  /**
   The path of a gated request, character by character: slashes, a component that begins with `v`, a slash, the rest,
   and slashes.
   */
  lemma {:induction false} UnderMeans(path: string, rest: string)
    requires rest != "" && rest[0] != '/' && rest[|rest| - 1] != '/'
    ensures Under(path, rest) <==>
            exists a, v, b :: All(a, '/') && All(b, '/') && Version(v) && path == a + (v + "/" + rest) + b
  {
    if Under(path, rest) {
      var v :| Version(v) && TrimChar(path, '/') == v + "/" + rest;
      TrimCharIff(path, '/', v + "/" + rest);
    }
    if a, v, b :| All(a, '/') && All(b, '/') && Version(v) && path == a + (v + "/" + rest) + b {
      var t := v + "/" + rest;
      assert t[0] == v[0] && t[|t| - 1] == rest[|rest| - 1];
      TrimCharIff(path, '/', t);
    }
  }

  /** In particular a pull through the path `/images/create`. */
  lemma {:induction false} UnversionedPullPasses(r: PluginRequest)
    requires r.uri.Some? && r.uri.value.path == "/images/create"
    ensures InspectRequest(r) == Ok(Pass)
  {
    var bare := "images/create";
    assert r.uri.value.path[1..] == bare;
    assert TrimCharLeft(r.uri.value.path, '/') == bare;
    assert bare[|bare| - 1] != '/' && TrimCharRight(bare, '/') == bare;
    assert bare[..1] == "i";
    UnversionedPasses(r);
  }

  // ---------------------------------------------------------------- which image is decided

  /** A body of nothing but white space. */
  predicate BlankText(s: string) {
    forall i :: 0 <= i < |s| ==> IsSpace(s[i])
  }

  lemma {:induction false} BlankIff(s: string)
    ensures TrimSpace(s) == "" <==> BlankText(s)
  {
    if BlankText(s) {
      TrimLeftSpaces(s, "");
      assert s + "" == s;
    } else {
      var i :| 0 <= i < |s| && !IsSpace(s[i]);
      TrimLeftKeeps(s, i);
      TrimRightKeeps(TrimLeft(s));
    }
  }

  lemma {:induction false} TrimLeftKeeps(s: string, i: nat)
    requires i < |s| && !IsSpace(s[i])
    ensures TrimLeft(s) != "" && !IsSpace(TrimLeft(s)[0])
  {
    if i > 0 && IsSpace(s[0]) { TrimLeftKeeps(s[1..], i - 1); }
  }

  lemma {:induction false} TrimRightKeeps(s: string)
    requires s != "" && !IsSpace(s[0])
    ensures TrimRight(s) != ""
  {
    if IsSpace(s[|s| - 1]) { TrimRightKeeps(s[..|s| - 1]); }
  }

  /** The image of a body, or the error in its place. */
  predicate FromBody(body: string, image: Option<string>, result: Result<Action, InspectError>) {
    if BlankText(body) then result == Err(MissingBody)
    else match image
         case None => result == Err(BadBody)
         case Some(text) => result == if text == "" then Err(MissingImage) else Ok(DecideImages([text]))
  }

  lemma {:induction false} BodyIsRead(body: string, image: Option<string>)
    ensures FromBody(body, image, BodyImage(body, image))
  {
    BlankIff(body);
  }

  /** What becomes of a POST with a URI, by its path. */
  lemma {:induction false} PostIsRead(r: PluginRequest)
    requires EqualFold(r.verb, "POST") && r.uri.Some?
    ensures var u, result := r.uri.value, InspectRequest(r);
            if Under(u.path, "images/create") then
              result == if u.fromImage == "" then Err(MissingFromImage)
                        else Ok(DecideImages([CombineImageAndTag(u.fromImage, u.tag)]))
            else if Under(u.path, "build") then result == Ok(if QueryBool(u.pull) then DenyBuild else Pass)
            else if Under(u.path, "containers/create") then FromBody(r.body, r.containerImage, result)
            else if Under(u.path, "services/create") || UpdatesService(u.path) then
              FromBody(r.body, r.serviceImage, result)
            else result == Ok(Pass)
  {
    var u := r.uri.value;
    CreatePaths(u.path);
    BuildPath(u.path);
    UpdatePath(u.path);
    BodyIsRead(r.body, r.containerImage);
    BodyIsRead(r.body, r.serviceImage);
  }

  /** These paths exclude each other. */
  lemma {:induction false} PathsAreApart(path: string)
    ensures Under(path, "images/create") ==>
              && !Under(path, "build") && !Under(path, "containers/create") && !Under(path, "services/create")
              && !UpdatesService(path)
    ensures Under(path, "build") ==>
              !Under(path, "containers/create") && !Under(path, "services/create") && !UpdatesService(path)
    ensures Under(path, "containers/create") ==> !Under(path, "services/create") && !UpdatesService(path)
    ensures Under(path, "services/create") ==> !UpdatesService(path)
  {
    CreatePaths(path);
    BuildPath(path);
    UpdatePath(path);
  }

  /** The request asks the engine about exactly this image. */
  ghost predicate AsksAbout(r: PluginRequest, u: Uri, image: string) {
    || (Under(u.path, "images/create") && u.fromImage != "" && image == CombineImageAndTag(u.fromImage, u.tag))
    || (Under(u.path, "containers/create") && !BlankText(r.body) && image != "" && r.containerImage == Some(image))
    || ((Under(u.path, "services/create") || UpdatesService(u.path))
        && !BlankText(r.body) && image != "" && r.serviceImage == Some(image))
  }

  lemma {:induction false} OneImage(image: string, refs: seq<string>)
    ensures [image] == refs <==> |refs| == 1 && refs[0] == image
  {
  }

  lemma {:induction false} BodyDecides(body: string, image: Option<string>, result: Result<Action, InspectError>,
                                       refs: seq<string>)
    requires FromBody(body, image, result)
    ensures result == Ok(DecideImages(refs)) <==>
            |refs| == 1 && !BlankText(body) && refs[0] != "" && image == Some(refs[0])
  {
    if image.Some? { OneImage(image.value, refs); }
  }

  lemma {:induction false} PostDecides(r: PluginRequest, refs: seq<string>)
    requires EqualFold(r.verb, "POST") && r.uri.Some?
    ensures InspectRequest(r) == Ok(DecideImages(refs)) <==> |refs| == 1 && AsksAbout(r, r.uri.value, refs[0])
  {
    var u, result := r.uri.value, InspectRequest(r);
    PostIsRead(r);
    PathsAreApart(u.path);
    OneImage(CombineImageAndTag(u.fromImage, u.tag), refs);
    if Under(u.path, "containers/create") {
      BodyDecides(r.body, r.containerImage, result, refs);
    } else if Under(u.path, "services/create") || UpdatesService(u.path) {
      BodyDecides(r.body, r.serviceImage, result, refs);
    }
  }

  /** A request is about one image at most: which one, by method and path. */
  lemma {:induction false} DecidesIff(r: PluginRequest, refs: seq<string>)
    ensures InspectRequest(r) == Ok(DecideImages(refs)) <==>
            EqualFold(r.verb, "POST") && r.uri.Some? && |refs| == 1 && AsksAbout(r, r.uri.value, refs[0])
  {
    if EqualFold(r.verb, "POST") && r.uri.Some? {
      PostDecides(r, refs);
    }
  }

  /** The request names no image where it should, or none that can be read. */
  ghost predicate Lacks(r: PluginRequest, u: Uri, e: InspectError) {
    var container := Under(u.path, "containers/create");
    var service := Under(u.path, "services/create") || UpdatesService(u.path);
    match e
    case BadUri => false
    case MissingFromImage => Under(u.path, "images/create") && u.fromImage == ""
    case MissingBody => (container || service) && BlankText(r.body)
    case BadBody =>
      !BlankText(r.body) && ((container && r.containerImage.None?) || (service && r.serviceImage.None?))
    case MissingImage =>
      !BlankText(r.body) && ((container && r.containerImage == Some("")) || (service && r.serviceImage == Some("")))
  }

  /** Exactly when a request is refused without being decided, and with which error. */
  lemma {:induction false} RefusedIff(r: PluginRequest, e: InspectError)
    ensures InspectRequest(r) == Err(e) <==>
            EqualFold(r.verb, "POST") && if r.uri.None? then e == BadUri else Lacks(r, r.uri.value, e)
  {
    if EqualFold(r.verb, "POST") && r.uri.Some? {
      PostIsRead(r);
      PathsAreApart(r.uri.value.path);
    }
  }

  /** A word whose letters may be in either case. */
  predicate Spelled(s: string, word: string) {
    |s| == |word| && forall i :: 0 <= i < |s| ==> s[i] == word[i] || s[i] as int == word[i] as int + 32
  }

  /** The method is `POST` in any letter case; the long s folds with S as well. */
  lemma {:induction false} PostSpelled(verb: string)
    ensures EqualFold(verb, "POST") <==>
            Spelled(verb, "POST") || (|verb| == 4 && verb[2] == '\U{017F}' && Spelled(verb[2 := 'S'], "POST"))
  {
  }

  predicate AnyCase(s: string, word: string) {
    |s| == |word| && forall i :: 0 <= i < |s| ==> s[i] == word[i] || s[i] as int + 32 == word[i] as int
  }

  lemma {:induction false} LowerIs(s: string, word: string)
    requires forall i :: 0 <= i < |word| ==> 'a' <= word[i] <= 'z' && word[i] != 'i' && word[i] != 'k'
    ensures ToLower(s) == word <==> AnyCase(s, word)
  {
    if ToLower(s) == word {
      forall i | 0 <= i < |s| ensures s[i] == word[i] || s[i] as int + 32 == word[i] as int {
        assert ToLower(s)[i] == word[i];
      }
    }
    if AnyCase(s, word) {
      assert forall i :: 0 <= i < |s| ==> ToLower(s)[i] == word[i];
    }
  }

  /** The values of `pull` that ask for one. */
  lemma {:induction false} PullAsked(value: string)
    ensures QueryBool(value) <==>
            || value == "1" || AnyCase(value, "true") || AnyCase(value, "t") || AnyCase(value, "yes")
            || AnyCase(value, "y")
  {
    LowerIs(value, "true");
    LowerIs(value, "t");
    LowerIs(value, "yes");
    LowerIs(value, "y");
    assert ToLower(value) == "1" ==> |value| == 1 && Lower(value[0]) == '1' by {
      if ToLower(value) == "1" { assert ToLower(value)[0] == '1'; }
    }
    assert value == "1" ==> ToLower(value) == "1";
  }

  // ---------------------------------------------------------------- images and tags

  /** An image has a tag if there is a colon behind its last slash; the colon of a port is none. */
  lemma {:induction false} HasTagIff(ref: string)
    ensures HasTag(ref) <==>
            exists i :: 0 <= i < |ref| && ref[i] == ':' && forall k :: i < k < |ref| ==> ref[k] != '/'
  {
  }

  /**
   The tag of the query is appended, whatever it holds, exactly if there is one and the image has neither tag nor
   digest. Without a slash in it, what it adds is the tag part of the result if and only if it holds no colon.
   */
  lemma {:induction false} CombinedTag(fromImage: string, tag: string)
    ensures var ref := CombineImageAndTag(fromImage, tag);
            if tag == "" || '@' in fromImage || HasTag(fromImage) then ref == fromImage
            else
              && |ref| > |fromImage| && ref[..|fromImage|] == fromImage && ref[|fromImage| + 1..] == tag
              && ('/' !in tag ==> HasTag(ref) && (':' !in tag <==> LastIndex(ref, ':') == |fromImage|))
  {
    if !(tag == "" || '@' in fromImage || HasTag(fromImage)) {
      var ref := fromImage + ":" + tag;
      assert ref[|fromImage|] == ':';
      forall k | |fromImage| < k < |ref| ensures ref[k] == tag[k - |fromImage| - 1] { }
      forall k | 0 <= k < |tag| ensures tag[k] == ref[|fromImage| + 1 + k] { }
      assert '/' !in tag ==> LastIndex(ref, '/') < |fromImage|;
    }
  }

  /** The tag is split at its own last colon, so the name before keeps one in its last component. */
  lemma {:induction false} LastColonOfTag(fromImage: string, tag: string)
    requires ':' in tag && '/' !in tag
    ensures var s := fromImage + ":" + tag; SplitTag(s).Ok? ==> HasTag(SplitTag(s).value.0)
  {
    var i := LastIndex(tag, ':');
    var name, after := fromImage + ":" + tag[..i], tag[i + 1..];
    assert tag == tag[..i] + ":" + after;
    assert fromImage + ":" + tag == name + ":" + after;
    LastColonSplits(name, after);
    assert name[|fromImage|] == ':';
    forall k | |fromImage| < k < |name| ensures name[k] != '/' { assert name[k] == tag[k - |fromImage| - 1]; }
  }

  /** A tag and, behind an `@` if there is one, a digest, each in its grammar. */
  ghost predicate TagAndDigest(s: string, tag: string, digest: string) {
    && s == tag + (if digest != "" then "@" + digest else "")
    && In(TAG_RE, tag) && (digest != "" ==> In(DIGEST_RE, digest))
  }

  /** Whatever parses splits at its last colon, and the name before it has none in its last component. */
  lemma {:induction false} NoColonInTag(fromImage: string, tag: string)
    requires '/' !in tag
    requires var s := fromImage + ":" + tag; SplitTag(s).Ok? && NormalizeName(SplitTag(s).value.0).Ok?
    ensures ':' !in tag
  {
    if ':' in tag {
      LastColonOfTag(fromImage, tag);
      ColonInLastComponent(SplitTag(fromImage + ":" + tag).value.0);
    }
  }

  lemma {:induction false} CombinedSplits(fromImage: string, tag: string)
    requires '/' !in tag
    requires var s := fromImage + ":" + tag; SplitTag(s).Ok? && NormalizeName(SplitTag(s).value.0).Ok?
    ensures ':' !in tag && tag != "" && SplitTag(fromImage + ":" + tag) == Ok((fromImage, tag))
  {
    NoColonInTag(fromImage, tag);
    LastColonSplits(fromImage, tag);
  }

  lemma {:induction false} CombinedIsRead(fromImage: string, tag: string, r: Reference)
    requires '@' !in fromImage && !HasTag(fromImage) && '/' !in tag
    requires ParseReference(fromImage + ":" + tag) == Ok(r)
    ensures NormalizeName(fromImage) == Ok((r.registry, r.repository)) && TagAndDigest(tag, r.tag, r.digest)
  {
    var s := fromImage + ":" + tag;
    var front := fromImage + ":";
    assert '@' !in front;
    ParseStages(s);
    ParsedIsWellFormed(s);
    DigestBehind(front, tag);
    var (t, d) := SplitDigest(tag).value;
    CombinedSplits(fromImage, t);
  }

  lemma {:induction false} CombinedParses(fromImage: string, tag: string, t: string, d: string)
    requires NormalizeName(fromImage).Ok? && TagAndDigest(tag, t, d)
    ensures var (registry, repository) := NormalizeName(fromImage).value;
            ParseReference(fromImage + ":" + tag) == Ok(MakeReference(registry, repository, t, d))
  {
    TaggedParses(fromImage, t, d);
    CombinedText(fromImage, t, d);
  }

  lemma {:induction false} CombinedText(fromImage: string, t: string, d: string)
    requires t != ""
    ensures fromImage + ":" + (t + if d != "" then "@" + d else "") == WithDigest(Tagged(fromImage, t), d)
  {
  }

  /**
   What a combined reference without a slash in its tag denotes: it parses to `r` if and only if the image is a name,
   the tag is a tag of the grammar with or without a digest behind it, and `r` is that name with that tag and digest.
   */
  lemma {:induction false} CombinedMeans(fromImage: string, tag: string, r: Reference)
    requires tag != "" && '@' !in fromImage && !HasTag(fromImage) && '/' !in tag
    ensures ParseReference(CombineImageAndTag(fromImage, tag)) == Ok(r) <==>
            && NormalizeName(fromImage) == Ok((r.registry, r.repository))
            && TagAndDigest(tag, r.tag, r.digest)
            && r == MakeReference(r.registry, r.repository, r.tag, r.digest)
  {
    if ParseReference(fromImage + ":" + tag) == Ok(r) {
      CombinedIsRead(fromImage, tag, r);
      ParsedIsWellFormed(fromImage + ":" + tag);
    }
    if NormalizeName(fromImage) == Ok((r.registry, r.repository)) && TagAndDigest(tag, r.tag, r.digest) {
      CombinedParses(fromImage, tag, r.tag, r.digest);
    }
  }

  lemma {:induction false} ColonNeedsDigest(s: string, tag: string, digest: string)
    requires TagAndDigest(s, tag, digest) && ':' in s
    ensures '@' in s
  {
    TagShape(tag);
    if digest != "" {
      assert s[|tag|] == '@';
    }
  }

  /**
   So a tag that holds a colon but no slash and no `@`, as `sha256:...` does when a client passes a digest as the tag,
   makes a reference that never parses: the pull is refused and not taken for another image.
   */
  lemma {:induction false} DigestAsTagIsRefused(fromImage: string, tag: string)
    requires ':' in tag && '/' !in tag && '@' !in tag && '@' !in fromImage && !HasTag(fromImage)
    ensures ParseReference(CombineImageAndTag(fromImage, tag)).Err?
  {
    var result := ParseReference(CombineImageAndTag(fromImage, tag));
    if result.Ok? {
      CombinedMeans(fromImage, tag, result.value);
      ColonNeedsDigest(tag, result.value.tag, result.value.digest);
    }
  }

  /** What parses is a name that normalizes, with no slash behind it. */
  lemma {:induction false} NameOfParsed(s: string, r: Reference)
    requires ParseReference(s) == Ok(r)
    ensures exists n: nat :: n <= |s| && '/' !in s[n..] && NormalizeName(s[..n]) == Ok((r.registry, r.repository))
  {
    ParseStages(s);
    ParsedIsWellFormed(s);
    DigestOf(r);
    NameOfStaged(s, r);
  }

  lemma {:induction false} NameOfStaged(s: string, r: Reference)
    requires Staged(s, r) && '/' !in r.digest
    ensures exists n: nat :: n <= |s| && '/' !in s[n..] && NormalizeName(s[..n]) == Ok((r.registry, r.repository))
  {
    var named := SplitDigest(s).value.0;
    var name := SplitTag(named).value.0;
    DigestSplits(s);
    TagSplits(named);
    PrefixOfPrefix(s, |named|, |name|);
    assert NormalizeName(s[..|name|]) == Ok((r.registry, r.repository));
  }

  lemma {:induction false} PrefixOfPrefix(s: string, m: nat, n: nat)
    requires n <= m <= |s|
    ensures s[..m][..n] == s[..n] && s[n..] == s[..m][n..] + s[m..]
  {
  }

  /** The first component of a name that normalizes is its registry, if it holds a colon. */
  lemma {:induction false} PortInRegistry(name: string, colon: nat)
    requires NormalizeName(name).Ok? && colon < |name| && name[colon] == ':'
    ensures NormalizeName(name).value.0 == name[..IndexOf(name, '/')] && colon < IndexOf(name, '/')
  {
    var (registry, repository) := NormalizeName(name).value;
    NormalizedDenotes(name);
    if Explicit(registry) && '/' !in registry && name == registry + "/" + repository {
      ColonInFront(registry, repository, colon);
    } else if repository == "library/" + name {
      NoColonInEnd("library/", name);
    }
  }

  /** With a slash in the tag, the image is taken for the host of a registry and the tag begins with its port. */
  lemma {:induction false} SlashInTagIsPort(fromImage: string, tag: string, r: Reference)
    requires '@' !in fromImage && !HasTag(fromImage) && '/' in tag
    requires ParseReference(CombineImageAndTag(fromImage, tag)) == Ok(r)
    ensures '/' !in fromImage && r.registry == fromImage + ":" + tag[..IndexOf(tag, '/')]
  {
    var s := fromImage + ":" + tag;
    NameOfParsed(s, r);
    var n: nat :| n <= |s| && '/' !in s[n..] && NormalizeName(s[..n]) == Ok((r.registry, r.repository));
    SlashBehindColon(fromImage, tag, n);
  }

  lemma {:induction false} FirstSlash(host: string, tag: string, n: nat)
    requires var s := host + ":" + tag; '/' !in host && '/' in tag && n <= |s| && '/' !in s[n..]
    ensures var i := IndexOf(tag, '/');
            var slash, name := |host| + 1 + i, (host + ":" + tag)[..n];
            slash < n && IndexOf(name, '/') == slash && name[..slash] == host + ":" + tag[..i]
  {
    var s := host + ":" + tag;
    var i := IndexOf(tag, '/');
    var slash := |host| + 1 + i;
    assert s[slash] == '/';
    assert forall k :: n <= k < |s| ==> s[k] == s[n..][k - n];
    forall k | 0 <= k < slash ensures s[k] != '/' {
      assert s[k] == if k < |host| then host[k] else if k == |host| then ':' else tag[k - |host| - 1];
    }
    IndexOfUnique(s[..n], '/', slash);
    assert s[..n][..slash] == host + ":" + tag[..i];
  }

  lemma {:induction false} SlashBehindColon(host: string, tag: string, n: nat)
    requires var s := host + ":" + tag; '/' in tag && n <= |s| && '/' !in s[n..] && NormalizeName(s[..n]).Ok?
    ensures '/' !in host
    ensures NormalizeName((host + ":" + tag)[..n]).value.0 == host + ":" + tag[..IndexOf(tag, '/')]
  {
    var s := host + ":" + tag;
    HostEndsBefore(host, tag, n);
    PortInRegistry(s[..n], |host|);
    assert forall k :: 0 <= k < |host| ==> s[..n][k] == host[k];
    FirstSlash(host, tag, n);
  }

  lemma {:induction false} HostEndsBefore(host: string, tag: string, n: nat)
    requires var s := host + ":" + tag; '/' in tag && n <= |s| && '/' !in s[n..]
    ensures |host| < n && (host + ":" + tag)[..n][|host|] == ':'
  {
    var s := host + ":" + tag;
    assert s[|host| + 1 + IndexOf(tag, '/')] == '/';
    assert forall k :: n <= k < |s| ==> s[k] == s[n..][k - n];
  }
}

module Authz {
  import opened Prelude
  import opened Image
  import opened Policy
  import opened Tables
  import opened Quarantine
  import opened Engines
  import opened Logs
  import opened Requests

  /** Why a request is refused; the texts of the answers are not part of this model. */
  datatype Cause =
    | NotDecoded
    | NotInspected(error: InspectError)
    | BuildDenied
    | NotRecorded
    | NotDecided(failure: Failure)
    | Blocked(decision: Decision)

  datatype Response = Allowed(decisions: seq<Decision>) | Refused(cause: Cause)

  const BUILD_REF := "docker build"
  const BUILD_REASON := Text("docker build --pull")

  /** The clock, the failures of the two recorders, and the answers to each image's decision. */
  datatype Outside = Outside(now: Time, decisionsFail: bool, auditFails: bool, answers: nat -> Answers)

  /** Which recorders the server has for requests that it denies without asking the engine. */
  datatype Recorders = Recorders(decisions: bool, audit: bool)

  function RequestFor(r: PluginRequest, imageRef: string): Request {
    Request(imageRef, r.user, r.verb, r.rawUri)
  }

  function BuildEntry(r: PluginRequest): Entry {
    Entry(BUILD_REF, TagKey("", "", ""), "", DECISION_DENY, BUILD_REASON, r.user, r.verb, r.rawUri)
  }

  function RecordSyntheticDeny(w: World, recorders: Recorders, r: PluginRequest, x: Outside): (World, bool) {
    if recorders.decisions && x.decisionsFail then (w, false)
    else
      var logged := if recorders.decisions then
                      w.(db := w.db.(decisions := Insert(w.db.decisions, DecisionRow(Unix(x.now), BuildEntry(r)))))
                    else w;
      if !recorders.audit then (logged, true)
      else if x.auditFails then (logged, false)
      else (logged.(audit := logged.audit + [Event(x.now, BuildEntry(r), "", false, false)]), true)
  }

  /** The loop over the images: stops at the first error and at the first denial. */
  ghost function DecideAll(w: World, config: Config, audited: bool, r: PluginRequest, refs: seq<string>, x: Outside)
    : (World, Response)
    decreases |refs|
  {
    if refs == [] then (w, Allowed([]))
    else
      var n := |refs| - 1;
      var (v, before) := DecideAll(w, config, audited, r, refs[..n], x);
      if before.Refused? then (v, before)
      else
        var (after, outcome) := DecideRequest(v, config, RequestFor(r, refs[n]), audited, x.answers(n));
        (after, Add(before.decisions, outcome))
  }

  function Add(decisions: seq<Decision>, outcome: Outcome): Response {
    if outcome.failure.Some? then Refused(NotDecided(outcome.failure.value))
    else if !outcome.decision.allowed then Refused(Blocked(outcome.decision))
    else Allowed(decisions + [outcome.decision])
  }

  ghost function HandleAuthZReq(w: World, config: Config, audited: bool, recorders: Recorders, r: Option<PluginRequest>,
                                x: Outside): (World, Response)
  {
    if r.None? then (w, Refused(NotDecoded))
    else
      match InspectRequest(r.value)
      case Err(e) => (w, Refused(NotInspected(e)))
      case Ok(Pass) => (w, Allowed([]))
      case Ok(DenyBuild) =>
        var (after, ok) := RecordSyntheticDeny(w, recorders, r.value, x);
        (after, Refused(if ok then BuildDenied else NotRecorded))
      case Ok(DecideImages(refs)) => DecideAll(w, config, audited, r.value, refs, x)
  }

  class Server {
    const engine: Engine
    const recorders: Recorders

    constructor (engine: Engine, recorders: Recorders)
      ensures this.engine == engine && this.recorders == recorders
    {
      this.engine := engine;
      this.recorders := recorders;
    }

    method ServeAuthZReq(r: Option<PluginRequest>, x: Outside) returns (response: Response)
      requires engine.store != null
      modifies engine, engine.store
      ensures (engine.Now(), response)
              == HandleAuthZReq(old(engine.Now()), engine.config, engine.audited, recorders, r, x)
    {
      if r.None? { return Refused(NotDecoded); }
      var action := InspectRequest(r.value);
      if action.Err? { return Refused(NotInspected(action.error)); }
      if action.value.Pass? { return Allowed([]); }
      if action.value.DenyBuild? {
        var ok := RecordBuildDeny(r.value, x);
        return Refused(if ok then BuildDenied else NotRecorded);
      }
      response := DecideImages(r.value, action.value.imageRefs, x);
    }

    method DecideImages(r: PluginRequest, refs: seq<string>, x: Outside) returns (response: Response)
      requires engine.store != null
      modifies engine, engine.store
      ensures (engine.Now(), response) == DecideAll(old(engine.Now()), engine.config, engine.audited, r, refs, x)
    {
      var decisions := [];
      for i := 0 to |refs|
        invariant (engine.Now(), Allowed(decisions))
                  == DecideAll(old(engine.Now()), engine.config, engine.audited, r, refs[..i], x)
      {
        OneMoreImage(old(engine.Now()), engine.config, engine.audited, r, refs, i, x);
        var outcome := engine.Decide(RequestFor(r, refs[i]), x.answers(i));
        if outcome.failure.Some? || !outcome.decision.allowed {
          response := Add(decisions, outcome);
          StopsAt(old(engine.Now()), engine.config, engine.audited, r, refs, i + 1, x);
          return;
        }
        decisions := decisions + [outcome.decision];
      }
      assert refs[..|refs|] == refs;
      response := Allowed(decisions);
    }

    method RecordBuildDeny(r: PluginRequest, x: Outside) returns (ok: bool)
      requires engine.store != null
      modifies engine, engine.store
      ensures (engine.Now(), ok) == RecordSyntheticDeny(old(engine.Now()), recorders, r, x)
    {
      if recorders.decisions {
        if x.decisionsFail { return false; }
        engine.store.RecordDecision(x.now, BuildEntry(r));
      }
      if recorders.audit {
        if x.auditFails { return false; }
        engine.audit := engine.audit + [Event(x.now, BuildEntry(r), "", false, false)];
      }
      ok := true;
    }
  }

  lemma {:induction false} LastImage(w: World, config: Config, audited: bool, r: PluginRequest, refs: seq<string>,
                                     x: Outside)
    requires refs != [] && DecideAll(w, config, audited, r, refs[..|refs| - 1], x).1.Allowed?
    ensures var n := |refs| - 1;
            var (v, before) := DecideAll(w, config, audited, r, refs[..n], x);
            var (after, outcome) := DecideRequest(v, config, RequestFor(r, refs[n]), audited, x.answers(n));
            DecideAll(w, config, audited, r, refs, x) == (after, Add(before.decisions, outcome))
  {
  }

  /** One image more, after images that were all allowed ... */
  lemma {:induction false} OneMoreImage(w: World, config: Config, audited: bool, r: PluginRequest, refs: seq<string>,
                                        i: nat, x: Outside)
    requires i < |refs| && DecideAll(w, config, audited, r, refs[..i], x).1.Allowed?
    ensures var (v, before) := DecideAll(w, config, audited, r, refs[..i], x);
            var (after, outcome) := DecideRequest(v, config, RequestFor(r, refs[i]), audited, x.answers(i));
            DecideAll(w, config, audited, r, refs[..i + 1], x) == (after, Add(before.decisions, outcome))
  {
    var through := refs[..i + 1];
    assert through[..i] == refs[..i] && through[i] == refs[i];
    LastImage(w, config, audited, r, through, x);
  }

  /** ... and after one that was not. */
  lemma {:induction false} RefusedStays(w: World, config: Config, audited: bool, r: PluginRequest, refs: seq<string>,
                                        x: Outside)
    requires refs != [] && DecideAll(w, config, audited, r, refs[..|refs| - 1], x).1.Refused?
    ensures DecideAll(w, config, audited, r, refs, x) == DecideAll(w, config, audited, r, refs[..|refs| - 1], x)
  {
  }

  lemma {:induction false} StopsAt(w: World, config: Config, audited: bool, r: PluginRequest, refs: seq<string>, i: nat,
                                   x: Outside)
    requires i <= |refs| && DecideAll(w, config, audited, r, refs[..i], x).1.Refused?
    ensures DecideAll(w, config, audited, r, refs, x) == DecideAll(w, config, audited, r, refs[..i], x)
    decreases |refs|
  {
    if i < |refs| {
      assert refs[..|refs| - 1][..i] == refs[..i];
      StopsAt(w, config, audited, r, refs[..|refs| - 1], i, x);
      RefusedStays(w, config, audited, r, refs, x);
    } else {
      assert refs[..i] == refs;
    }
  }

  // ---------------------------------------------------------------- fail closed, and on record

  /** An entry of the decision table that allows that image for that request. */
  predicate AllowsImage(e: Entry, r: PluginRequest, d: Decision) {
    && e.decision == DECISION_ALLOW && e.imageRef == d.subject.imageRef && e.image == d.subject.image
    && e.digest == d.subject.digest && e.reason == d.reason
    && e.clientUser == r.user && e.requestMethod == r.verb && e.requestURI == r.rawUri
  }

  /** The image that a text denotes, by its canonical name. */
  function NameOf(imageRef: string): Option<string> {
    match ParseReference(imageRef)
    case Err(_) => None
    case Ok(ref) => Some(ref.canonicalRef)
  }

  function NamesOf(refs: seq<string>): seq<Option<string>> {
    if refs == [] then [] else NamesOf(refs[..|refs| - 1]) + [NameOf(refs[|refs| - 1])]
  }

  /** Such an entry was added after the sequence stood at `from`. */
  ghost predicate OnRecord(t: Table<DecisionRow>, from: int, r: PluginRequest, d: Decision) {
    exists id :: from < id <= t.last && id in t.rows && AllowsImage(t.rows[id].entry, r, d)
  }

  lemma {:induction false} OnRecordStays(t: Table<DecisionRow>, from: int, r: PluginRequest, d: Decision,
                                         row: DecisionRow)
    requires OnRecord(t, from, r, d)
    ensures OnRecord(Insert(t, row), from, r, d)
  {
    var id :| from < id <= t.last && id in t.rows && AllowsImage(t.rows[id].entry, r, d);
    assert Insert(t, row).rows[id] == t.rows[id];
  }

  lemma {:induction false} AddedRow(t: Table<DecisionRow>, from: int, r: PluginRequest, d: Decision, row: DecisionRow)
    requires from <= t.last && AllowsImage(row.entry, r, d)
    ensures OnRecord(Insert(t, row), from, r, d)
  {
    assert Insert(t, row).rows[t.last + 1] == row;
  }

  /** The decisions are about these images, one by one; each allows its image and is on record. */
  ghost predicate AllOnRecord(t: Table<DecisionRow>, from: int, r: PluginRequest, names: seq<Option<string>>,
                              decisions: seq<Decision>)
  {
    && from <= t.last && |decisions| == |names|
    && forall i :: 0 <= i < |names| ==>
         decisions[i].allowed && names[i] == Some(decisions[i].subject.imageRef) && OnRecord(t, from, r, decisions[i])
  }

  lemma {:induction false} OneMoreOnRecord(t: Table<DecisionRow>, from: int, r: PluginRequest,
                                           names: seq<Option<string>>, decisions: seq<Decision>, d: Decision,
                                           row: DecisionRow)
    requires AllOnRecord(t, from, r, names, decisions) && AllowsImage(row.entry, r, d) && d.allowed
    ensures AllOnRecord(Insert(t, row), from, r, names + [Some(d.subject.imageRef)], decisions + [d])
  {
    AddedRow(t, from, r, d, row);
    forall i | 0 <= i < |decisions| ensures OnRecord(Insert(t, row), from, r, decisions[i]) {
      OnRecordStays(t, from, r, decisions[i], row);
    }
  }

  /** The logs of one request, as far as they matter here. */
  ghost predicate Recorded(before: Table<DecisionRow>, after: Table<DecisionRow>, r: PluginRequest,
                           name: Option<string>, outcome: Outcome)
  {
    outcome.failure.None? && outcome.decision.allowed ==>
      && name == Some(outcome.decision.subject.imageRef)
      && exists row: DecisionRow :: AllowsImage(row.entry, r, outcome.decision) && after == Insert(before, row)
  }

  lemma {:induction false} RequestLogs(v: World, config: Config, audited: bool, r: PluginRequest, imageRef: string,
                                       a: Answers)
    ensures var (after, outcome) := DecideRequest(v, config, RequestFor(r, imageRef), audited, a);
            Recorded(v.db.decisions, after.db.decisions, r, NameOf(imageRef), outcome)
  {
    var parsed := ParseReference(imageRef);
    if parsed.Ok? {
      var c := MakeCall(config, parsed.value, RequestFor(r, imageRef), audited, a);
      DecideLogs(v, c);
      var outcome := Decide(v, c).1;
      assert outcome.failure.None? && outcome.decision.allowed ==>
        AllowsImage(DecisionRow(Unix(c.now), EntryOf(c, outcome.decision)).entry, r, outcome.decision);
    }
  }

  lemma {:induction false} LastImageRecords(before: Table<DecisionRow>, after: Table<DecisionRow>, from: int,
                                            r: PluginRequest, names: seq<Option<string>>, decisions: seq<Decision>,
                                            name: Option<string>, outcome: Outcome)
    requires AllOnRecord(before, from, r, names, decisions) && Recorded(before, after, r, name, outcome)
    ensures Add(decisions, outcome).Allowed? ==>
              AllOnRecord(after, from, r, names + [name], Add(decisions, outcome).decisions)
  {
    if outcome.failure.None? && outcome.decision.allowed {
      var row: DecisionRow :| AllowsImage(row.entry, r, outcome.decision) && after == Insert(before, row);
      OneMoreOnRecord(before, from, r, names, decisions, outcome.decision, row);
    }
  }

  lemma {:induction false} DecideAllRecords(w: World, config: Config, audited: bool, r: PluginRequest,
                                            refs: seq<string>, x: Outside)
    ensures var (after, response) := DecideAll(w, config, audited, r, refs, x);
            response.Allowed? ==>
              AllOnRecord(after.db.decisions, w.db.decisions.last, r, NamesOf(refs), response.decisions)
    decreases |refs|
  {
    if refs != [] {
      var n := |refs| - 1;
      DecideAllRecords(w, config, audited, r, refs[..n], x);
      var (v, before) := DecideAll(w, config, audited, r, refs[..n], x);
      if before.Allowed? {
        var (after, outcome) := DecideRequest(v, config, RequestFor(r, refs[n]), audited, x.answers(n));
        RequestLogs(v, config, audited, r, refs[n], x.answers(n));
        LastImageRecords(v.db.decisions, after.db.decisions, w.db.decisions.last, r, NamesOf(refs[..n]),
                         before.decisions, NameOf(refs[n]), outcome);
      }
    }
  }

  /**
   The plugin fails closed: it answers Allow only to a request that it does not gate, or when every image of
   the request was decided without error and allowed, and by then the decision table holds an allow row for
   each of them, added during this request and naming its user, method and URI.
   */
  lemma {:induction false} AllowIsOnRecord(w: World, config: Config, audited: bool, recorders: Recorders,
                                           r: Option<PluginRequest>, x: Outside)
    ensures var (after, response) := HandleAuthZReq(w, config, audited, recorders, r, x);
            response.Allowed? ==>
              && r.Some? && InspectRequest(r.value).Ok?
              && match InspectRequest(r.value).value
                 case Pass => true
                 case DenyBuild => false
                 case DecideImages(refs) =>
                   AllOnRecord(after.db.decisions, w.db.decisions.last, r.value, NamesOf(refs), response.decisions)
  {
    if r.Some? && InspectRequest(r.value).Ok? && InspectRequest(r.value).value.DecideImages? {
      DecideAllRecords(w, config, audited, r.value, InspectRequest(r.value).value.imageRefs, x);
    }
  }

  // ---------------------------------------------------------------- every answer

  /** How the plugin answers when the engine has decided the one image of a request. */
  function Answered(outcome: Outcome): Response {
    match outcome.failure
    case Some(f) => Refused(NotDecided(f))
    case None => if outcome.decision.allowed then Allowed([outcome.decision]) else Refused(Blocked(outcome.decision))
  }

  lemma {:induction false} OneImageDecided(w: World, config: Config, audited: bool, r: PluginRequest, image: string,
                                           x: Outside)
    ensures var (after, outcome) := DecideRequest(w, config, RequestFor(r, image), audited, x.answers(0));
            DecideAll(w, config, audited, r, [image], x) == (after, Add([], outcome))
  {
    var refs := [image];
    assert refs[..0] == [] && refs[0] == image;
    assert DecideAll(w, config, audited, r, refs[..0], x) == (w, Allowed([]));
    LastImage(w, config, audited, r, refs, x);
  }

  lemma {:induction false} AddedToNone(outcome: Outcome)
    ensures Add([], outcome) == Answered(outcome)
  {
    assert [] + [outcome.decision] == [outcome.decision];
  }

  /**
   A request about one image is answered as the engine decides it, asked with the request's user, method and URI:
   allowed if and only if the engine returns no error and allows; and the tables and logs are as the engine leaves
   them.
   */
  lemma {:induction false} OneImageAnswered(w: World, config: Config, audited: bool, recorders: Recorders,
                                            r: PluginRequest, image: string, x: Outside)
    requires InspectRequest(r) == Ok(DecideImages([image]))
    ensures var (after, outcome) := DecideRequest(w, config, Request(image, r.user, r.verb, r.rawUri), audited,
                                                  x.answers(0));
            HandleAuthZReq(w, config, audited, recorders, Some(r), x) == (after, Answered(outcome))
  {
    OneImageDecided(w, config, audited, r, image, x);
    AddedToNone(DecideRequest(w, config, RequestFor(r, image), audited, x.answers(0)).1);
    assert RequestFor(r, image) == Request(image, r.user, r.verb, r.rawUri);
  }

  /** The columns of a build that was denied without asking the engine. */
  predicate TellsBuild(e: Entry, r: PluginRequest) {
    && e.imageRef == "docker build" && e.image == TagKey("", "", "") && e.digest == ""
    && e.decision == "deny" && e.reason == BUILD_REASON
    && e.clientUser == r.user && e.requestMethod == r.verb && e.requestURI == r.rawUri
  }

  /** The row of a denied build, if decisions are recorded ... */
  ghost predicate BuildRow(before: Database, after: Database, r: PluginRequest, x: Outside) {
    exists row: DecisionRow ::
      row.timestamp == x.now / 1_000_000_000 && TellsBuild(row.entry, r)
      && after == before.(decisions := Insert(before.decisions, row))
  }

  /** ... and its event, if there is an audit log. */
  ghost predicate BuildEvent(before: seq<Event>, after: seq<Event>, r: PluginRequest, x: Outside) {
    exists e: Event ::
      e.timestamp == x.now && TellsBuild(e.entry, r) && e.matchedRule == "" && !e.cosignVerified && !e.cosignCached
      && after == before + [e]
  }

  /**
   A build that asks to pull is never allowed. It is on record in both logs, as denied, as far as the server has
   recorders for them; a recorder that fails is reported, and nothing is written after it.
   */
  lemma {:induction false} BuildIsDenied(w: World, config: Config, audited: bool, recorders: Recorders,
                                         r: PluginRequest, x: Outside)
    requires InspectRequest(r) == Ok(DenyBuild)
    ensures var (after, response) := HandleAuthZReq(w, config, audited, recorders, Some(r), x);
            var stored := recorders.decisions && !x.decisionsFail;
            var halted := recorders.decisions && x.decisionsFail;
            var failed := halted || (recorders.audit && x.auditFails);
            && response == Refused(if failed then NotRecorded else BuildDenied)
            && (if stored then BuildRow(w.db, after.db, r, x) else after.db == w.db)
            && (if recorders.audit && !failed then BuildEvent(w.audit, after.audit, r, x) else after.audit == w.audit)
  {
    assert TellsBuild(BuildEntry(r), r);
    assert Unix(x.now) == x.now / 1_000_000_000;
    assert DecisionRow(Unix(x.now), BuildEntry(r)).entry == BuildEntry(r);
    assert Event(x.now, BuildEntry(r), "", false, false).entry == BuildEntry(r);
  }

  /** Requests that cannot be read are refused, requests that pass are allowed; neither leaves a trace. */
  lemma {:induction false} UndecidedLeavesNothing(w: World, config: Config, audited: bool, recorders: Recorders,
                                                  r: Option<PluginRequest>, x: Outside)
    requires r.None? || InspectRequest(r.value).Err? || InspectRequest(r.value).value.Pass?
    ensures HandleAuthZReq(w, config, audited, recorders, r, x)
            == (w, if r.None? then Refused(NotDecoded)
                   else match InspectRequest(r.value)
                        case Err(e) => Refused(NotInspected(e))
                        case Ok(_) => Allowed([]))
  {
  }
}
