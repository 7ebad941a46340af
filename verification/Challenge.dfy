/**
 Bearer challenges (internal/registry/resolver.go): splitting a header into its parameters at commas
 outside quoted strings (sections 5.6.4 and 11.6.1 of RFC 9110), and reading the parameters.
 */
module Challenge {
  import opened Prelude
  import opened Text

  /** Where the scan stands after some text. */
  datatype Scan = Scan(inQuote: bool, escaped: bool)

  const OUTSIDE := Scan(false, false)
  const INSIDE := Scan(true, false)

  function Next(q: Scan, c: char): Scan {
    if q.escaped then q.(escaped := false)
    else if c == '\\' && q.inQuote then q.(escaped := true)
    else if c == '"' then q.(inQuote := !q.inQuote)
    else q
  }

  predicate Separates(q: Scan, c: char) {
    c == ',' && q == OUTSIDE
  }

  /** A backslash in a quoted string that is not escaped itself. */
  predicate Escapes(q: Scan, c: char) {
    c == '\\' && q == INSIDE
  }

  function After(q: Scan, s: string): Scan {
    if s == "" then q else Next(After(q, s[..|s| - 1]), s[|s| - 1])
  }

  /** The number of commas outside quoted strings. */
  function Commas(q: Scan, s: string): nat {
    if s == "" then 0
    else Commas(q, s[..|s| - 1]) + if Separates(After(q, s[..|s| - 1]), s[|s| - 1]) then 1 else 0
  }

  /** The text without the backslashes that escape. */
  function Unescaped(q: Scan, s: string): string {
    if s == "" then ""
    else Unescaped(q, s[..|s| - 1]) + if Escapes(After(q, s[..|s| - 1]), s[|s| - 1]) then "" else [s[|s| - 1]]
  }

  function AddChar(parts: seq<string>, q: Scan, c: char): seq<string>
    requires parts != []
  {
    if Separates(q, c) then parts + [""]
    else if Escapes(q, c) then parts
    else parts[|parts| - 1 := parts[|parts| - 1] + [c]]
  }

  function Params(s: string): (parts: seq<string>)
    ensures parts != []
  {
    if s == "" then [""] else AddChar(Params(s[..|s| - 1]), After(OUTSIDE, s[..|s| - 1]), s[|s| - 1])
  }

  method SplitChallengeParams(input: string) returns (parts: seq<string>)
    ensures parts == Params(input)
  {
    parts := [];
    var current := "";
    var q := OUTSIDE;
    for i := 0 to |input|
      invariant q == After(OUTSIDE, input[..i])
      invariant q.escaped ==> q.inQuote
      invariant parts + [current] == Params(input[..i])
    {
      assert input[..i + 1][..i] == input[..i];
      var r := input[i];
      if q.escaped {
        current := current + [r];
        q := q.(escaped := false);
      } else if r == '\\' && q.inQuote {
        q := q.(escaped := true);
      } else if r == '"' {
        q := q.(inQuote := !q.inQuote);
        current := current + [r];
      } else if r == ',' && !q.inQuote {
        parts := parts + [current];
        current := "";
      } else {
        current := current + [r];
      }
    }
    assert input[..|input|] == input;
    parts := parts + [current];
  }

  // ---------------------------------------------------------------- what splitting does

  lemma {:induction false} AfterConcat(q: Scan, a: string, b: string)
    ensures After(q, a + b) == After(After(q, a), b)
    decreases |b|
  {
    if b == "" { assert a + b == a; }
    else {
      AfterConcat(q, a, b[..|b| - 1]);
      assert (a + b)[..|a + b| - 1] == a + b[..|b| - 1];
    }
  }

  /** There is one part more than there are commas outside quoted strings. */
  lemma {:induction false} PartsAreCounted(s: string)
    ensures |Params(s)| == 1 + Commas(OUTSIDE, s)
  {
    if s != "" { PartsAreCounted(s[..|s| - 1]); }
  }

  lemma {:induction false} JoinExtended(parts: seq<string>, tail: string)
    requires parts != []
    ensures Join(parts[|parts| - 1 := parts[|parts| - 1] + tail], ',') == Join(parts, ',') + tail
    decreases |parts|
  {
    if |parts| > 1 {
      JoinExtended(parts[1..], tail);
      assert parts[|parts| - 1 := parts[|parts| - 1] + tail][1..]
             == parts[1..][|parts| - 2 := parts[1..][|parts| - 2] + tail];
    }
  }

  lemma {:induction false} JoinAppended(parts: seq<string>)
    requires parts != []
    ensures Join(parts + [""], ',') == Join(parts, ',') + ","
    decreases |parts|
  {
    if |parts| > 1 {
      JoinAppended(parts[1..]);
      assert (parts + [""])[1..] == parts[1..] + [""];
    } else {
      assert (parts + [""])[1..] == [""];
      assert parts[0] + [','] + "" == parts[0] + ",";
    }
  }

  /** Joining the parts with commas gives the input back, but for the escaping backslashes. */
  lemma {:induction false} PartsAreJoined(s: string)
    ensures Join(Params(s), ',') == Unescaped(OUTSIDE, s)
  {
    if s != "" {
      var before, q, c := Params(s[..|s| - 1]), After(OUTSIDE, s[..|s| - 1]), s[|s| - 1];
      PartsAreJoined(s[..|s| - 1]);
      JoinAppended(before);
      JoinExtended(before, [c]);
      assert Unescaped(OUTSIDE, s[..|s| - 1]) + "" == Unescaped(OUTSIDE, s[..|s| - 1]);
    }
  }

  /** Text without a comma outside quoted strings is one part. */
  lemma {:induction false} OnePart(s: string)
    requires Commas(OUTSIDE, s) == 0
    ensures Params(s) == [Unescaped(OUTSIDE, s)]
  {
    if s != "" {
      OnePart(s[..|s| - 1]);
      assert Unescaped(OUTSIDE, s[..|s| - 1]) + "" == Unescaped(OUTSIDE, s[..|s| - 1]);
    }
  }

  lemma {:induction false} AddCharAfter(a: seq<string>, b: seq<string>, q: Scan, c: char)
    requires b != []
    ensures AddChar(a + b, q, c) == a + AddChar(b, q, c)
  {
  }

  /** At a comma outside quoted strings, and only there, the list of parts falls apart into two. */
  lemma {:induction false} SplitsAtComma(a: string, b: string)
    requires After(OUTSIDE, a) == OUTSIDE
    ensures Params(a + "," + b) == Params(a) + Params(b)
    decreases |b|
  {
    var s := a + "," + b;
    if b == "" {
      assert s[..|s| - 1] == a;
    } else {
      var b' := b[..|b| - 1];
      assert s[..|s| - 1] == a + "," + b';
      SplitsAtComma(a, b');
      AfterConcat(OUTSIDE, a + ",", b');
      AfterConcat(OUTSIDE, a, ",");
      AfterComma();
      AddCharAfter(Params(a), Params(b'), After(OUTSIDE, b'), b[|b| - 1]);
    }
  }

  lemma {:induction false} AfterComma()
    ensures After(OUTSIDE, ",") == OUTSIDE
  {
    var comma := ",";
    assert comma[..0] == "";
  }

  // ---------------------------------------------------------------- quoted strings

  /** A quoted string: quotes and backslashes escaped. */
  function EscapeChar(c: char): string {
    if c == '"' || c == '\\' then ['\\', c] else [c]
  }

  function Escape(v: string): string {
    if v == "" then "" else Escape(v[..|v| - 1]) + EscapeChar(v[|v| - 1])
  }

  function Quote(v: string): string {
    ['"'] + Escape(v) + ['"']
  }

  lemma {:induction false} ScanConcat(q: Scan, a: string, b: string)
    ensures Commas(q, a + b) == Commas(q, a) + Commas(After(q, a), b)
    ensures Unescaped(q, a + b) == Unescaped(q, a) + Unescaped(After(q, a), b)
    decreases |b|
  {
    if b == "" {
      assert a + b == a;
      assert Unescaped(q, a) + "" == Unescaped(q, a);
    } else {
      var b' := b[..|b| - 1];
      ScanConcat(q, a, b');
      AfterConcat(q, a, b');
      assert (a + b)[..|a + b| - 1] == a + b';
      var last := if Escapes(After(After(q, a), b'), b[|b| - 1]) then "" else [b[|b| - 1]];
      assert Unescaped(q, a) + Unescaped(After(q, a), b') + last
             == Unescaped(q, a) + (Unescaped(After(q, a), b') + last);
    }
  }

  lemma {:induction false} ScanOne(q: Scan, c: char)
    ensures var s := [c];
            && After(q, s) == Next(q, c)
            && Commas(q, s) == (if Separates(q, c) then 1 else 0)
            && Unescaped(q, s) == (if Escapes(q, c) then "" else [c])
  {
    var s := [c];
    assert s[..0] == "";
  }

  /** Text that leaves the scan where it was, separates nothing, and reads as `u`. */
  predicate Clean(q: Scan, s: string, u: string) {
    After(q, s) == q && Commas(q, s) == 0 && Unescaped(q, s) == u
  }

  lemma {:induction false} CleanConcat(q: Scan, a: string, u: string, b: string, v: string)
    requires Clean(q, a, u) && Clean(q, b, v)
    ensures Clean(q, a + b, u + v)
  {
    AfterConcat(q, a, b);
    ScanConcat(q, a, b);
  }

  lemma {:induction false} ScanEscapedChar(c: char)
    ensures Clean(INSIDE, EscapeChar(c), [c])
  {
    if c == '"' || c == '\\' {
      var s := EscapeChar(c);
      assert s == ['\\'] + [c];
      ScanOne(INSIDE, '\\');
      ScanOne(Scan(true, true), c);
      AfterConcat(INSIDE, ['\\'], [c]);
      ScanConcat(INSIDE, ['\\'], [c]);
    } else {
      ScanOne(INSIDE, c);
    }
  }

  lemma {:induction false} ScanEscaped(v: string)
    ensures Clean(INSIDE, Escape(v), v)
  {
    if v != "" {
      var before, c := v[..|v| - 1], v[|v| - 1];
      ScanEscaped(before);
      ScanEscapedChar(c);
      CleanConcat(INSIDE, Escape(before), before, EscapeChar(c), [c]);
      assert before + [c] == v;
    }
  }

  /** Whatever the value, nothing in its quoted form separates, and unescaping gives it back between quotes. */
  lemma {:induction false} ScanQuoted(v: string)
    ensures Clean(OUTSIDE, Quote(v), ['"'] + v + ['"'])
  {
    ScanOne(OUTSIDE, '"');
    ScanOne(INSIDE, '"');
    ScanEscaped(v);
    AfterConcat(OUTSIDE, ['"'], Escape(v));
    ScanConcat(OUTSIDE, ['"'], Escape(v));
    AfterConcat(OUTSIDE, ['"'] + Escape(v), ['"']);
    ScanConcat(OUTSIDE, ['"'] + Escape(v), ['"']);
  }

  predicate Token(key: string) {
    key != "" && forall i :: 0 <= i < |key| ==> 'a' <= key[i] <= 'z'
  }

  lemma {:induction false} ScanToken(key: string)
    requires forall i :: 0 <= i < |key| ==> key[i] != '"' && key[i] != ',' && key[i] != '\\'
    ensures Clean(OUTSIDE, key, key)
  {
    if key != "" {
      ScanToken(key[..|key| - 1]);
      assert key[..|key| - 1] + [key[|key| - 1]] == key;
    }
  }

  function Param(key: string, v: string): string {
    key + "=" + Quote(v)
  }

  lemma {:induction false} ScanParam(key: string, v: string)
    requires Token(key)
    ensures After(OUTSIDE, Param(key, v)) == OUTSIDE
    ensures Params(Param(key, v)) == [key + "=" + (['"'] + v + ['"'])]
  {
    ScanToken(key + "=");
    ScanQuoted(v);
    CleanConcat(OUTSIDE, key + "=", key + "=", Quote(v), ['"'] + v + ['"']);
    OnePart(Param(key, v));
  }

  // ---------------------------------------------------------------- reading a challenge

  datatype BearerChallenge = BearerChallenge(realm: string, service: string, scope: string)

  datatype ChallengeError = MissingHeader | UnsupportedChallenge | MissingRealm

  function ReadParam(values: map<string, string>, part: string): map<string, string> {
    var p := TrimSpace(part);
    var i := IndexOf(p, '=');
    if i == |p| then values else values[ToLower(p[..i]) := TrimChar(TrimSpace(p[i + 1..]), '"')]
  }

  function ReadParams(parts: seq<string>): map<string, string> {
    if parts == [] then map[] else ReadParam(ReadParams(parts[..|parts| - 1]), parts[|parts| - 1])
  }

  /** A missing key of a Go map reads as the empty string. */
  function ValueOf(values: map<string, string>, key: string): string {
    if key in values then values[key] else ""
  }

  function ChallengeOf(values: map<string, string>): Result<BearerChallenge, ChallengeError> {
    if ValueOf(values, "realm") == "" then Err(MissingRealm)
    else Ok(BearerChallenge(ValueOf(values, "realm"), ValueOf(values, "service"), ValueOf(values, "scope")))
  }

  function ParseBearerChallenge(header: string): Result<BearerChallenge, ChallengeError> {
    var i := IndexOf(header, ' ');
    if header == "" then Err(MissingHeader)
    else if i == |header| || !EqualFold(header[..i], "BEARER") then Err(UnsupportedChallenge)
    else ChallengeOf(ReadParams(Params(header[i + 1..])))
  }

  method ReadBearerChallenge(header: string) returns (r: Result<BearerChallenge, ChallengeError>)
    ensures r == ParseBearerChallenge(header)
  {
    if header == "" { return Err(MissingHeader); }
    var i := IndexOf(header, ' ');
    if i == |header| || !EqualFold(header[..i], "BEARER") { return Err(UnsupportedChallenge); }
    var parts := SplitChallengeParams(header[i + 1..]);
    var values: map<string, string> := map[];
    for k := 0 to |parts|
      invariant values == ReadParams(parts[..k])
    {
      assert parts[..k + 1][..k] == parts[..k];
      values := ReadParam(values, parts[k]);
    }
    assert parts[..|parts|] == parts;
    r := ChallengeOf(values);
  }

  function RenderedParams(c: BearerChallenge): string {
    Param("realm", c.realm) + "," + (Param("service", c.service) + "," + Param("scope", c.scope))
  }

  function Rendered(c: BearerChallenge): string {
    "Bearer" + " " + RenderedParams(c)
  }

  lemma {:induction false} TrimLeftThenQuote(v: string, cut: char)
    ensures var t := TrimCharLeft(v, cut);
            TrimCharLeft(v + [cut], cut) == if t == "" then "" else t + [cut]
  {
    if v == "" {
      assert v + [cut] == [cut];
      assert [cut][1..] == "";
    } else if v[0] == cut {
      assert (v + [cut])[1..] == v[1..] + [cut];
      TrimLeftThenQuote(v[1..], cut);
    }
  }

  /** Trimming quotes removes the two of the quoted string, and any that the value begins or ends with. */
  lemma {:induction false} TrimQuoted(v: string, cut: char)
    ensures TrimChar([cut] + v + [cut], cut) == TrimChar(v, cut)
  {
    var s := [cut] + v + [cut];
    assert s[1..] == v + [cut];
    TrimLeftThenQuote(v, cut);
    var t := TrimCharLeft(v, cut);
    assert (t + [cut])[..|t|] == t;
  }

  lemma {:induction false} TrimUnchanged(v: string, cut: char)
    ensures TrimChar(v, cut) == v <==> v == "" || (v[0] != cut && v[|v| - 1] != cut)
  {
    TrimLeftShorter(v, cut);
    TrimRightShorter(TrimCharLeft(v, cut), cut);
  }

  lemma {:induction false} TrimLeftShorter(v: string, cut: char)
    ensures |TrimCharLeft(v, cut)| <= |v|
    ensures v != "" && v[0] == cut ==> |TrimCharLeft(v, cut)| < |v|
  {
    if v != "" { TrimLeftShorter(v[1..], cut); }
  }

  lemma {:induction false} TrimRightShorter(v: string, cut: char)
    ensures |TrimCharRight(v, cut)| <= |v|
    ensures v != "" && v[|v| - 1] == cut ==> |TrimCharRight(v, cut)| < |v|
  {
    if v != "" { TrimRightShorter(v[..|v| - 1], cut); }
  }

  lemma {:induction false} TokenIsPlain(key: string)
    requires Token(key)
    ensures ToLower(key) == key && '=' !in key && !IsSpace(key[0])
  {
  }

  lemma {:induction false} QuotedIsTrimmed(v: string)
    ensures TrimSpace(['"'] + v + ['"']) == ['"'] + v + ['"']
  {
    TrimSpaceIdentity(['"'] + v + ['"']);
  }

  lemma {:induction false} ReadsParam(values: map<string, string>, key: string, v: string)
    requires Token(key)
    ensures ReadParam(values, key + "=" + (['"'] + v + ['"'])) == values[key := TrimChar(v, '"')]
  {
    var quoted := ['"'] + v + ['"'];
    var part := key + "=" + quoted;
    TokenIsPlain(key);
    assert part[0] == key[0] && part[|part| - 1] == '"';
    TrimSpaceIdentity(part);
    IndexOfUnique(part, '=', |key|);
    assert part[..|key|] == key && part[|key| + 1..] == quoted;
    QuotedIsTrimmed(v);
    TrimQuoted(v, '"');
  }

  lemma {:induction false} ThreeParams(k1: string, v1: string, k2: string, v2: string, k3: string, v3: string)
    requires Token(k1) && Token(k2) && Token(k3)
    ensures var s := Param(k1, v1) + "," + (Param(k2, v2) + "," + Param(k3, v3));
            ReadParams(Params(s)) == map[][k1 := TrimChar(v1, '"')][k2 := TrimChar(v2, '"')][k3 := TrimChar(v3, '"')]
  {
    ScanParam(k1, v1);
    ScanParam(k2, v2);
    ScanParam(k3, v3);
    SplitsAtComma(Param(k2, v2), Param(k3, v3));
    SplitsAtComma(Param(k1, v1), Param(k2, v2) + "," + Param(k3, v3));
    ReadThree(k1, v1, k2, v2, k3, v3);
  }

  lemma {:induction false} ReadThree(k1: string, v1: string, k2: string, v2: string, k3: string, v3: string)
    requires Token(k1) && Token(k2) && Token(k3)
    ensures var p1, p2 := k1 + "=" + (['"'] + v1 + ['"']), k2 + "=" + (['"'] + v2 + ['"']);
            var p3 := k3 + "=" + (['"'] + v3 + ['"']);
            ReadParams([p1] + ([p2] + [p3]))
            == map[][k1 := TrimChar(v1, '"')][k2 := TrimChar(v2, '"')][k3 := TrimChar(v3, '"')]
  {
    var p1, p2, p3 := k1 + "=" + (['"'] + v1 + ['"']), k2 + "=" + (['"'] + v2 + ['"']), k3 + "=" + (['"'] + v3 + ['"']);
    var m1 := map[][k1 := TrimChar(v1, '"')];
    var m2 := m1[k2 := TrimChar(v2, '"')];
    ReadsParam(map[], k1, v1);
    ReadsParam(m1, k2, v2);
    ReadsParam(m2, k3, v3);
    ReadInOrder(p1, p2, p3);
  }

  lemma {:induction false} ReadInOrder(p1: string, p2: string, p3: string)
    ensures ReadParams([p1] + ([p2] + [p3])) == ReadParam(ReadParam(ReadParam(map[], p1), p2), p3)
  {
    var three, two, one := [p1] + ([p2] + [p3]), [p1, p2], [p1];
    assert three[..2] == two && two[..1] == one && one[..0] == [];
    assert ReadParams(one) == ReadParam(map[], p1);
    assert ReadParams(two) == ReadParam(ReadParams(one), p2);
  }

  lemma {:induction false} ReadsParams(c: BearerChallenge, k1: string, k2: string, k3: string)
    requires k1 == "realm" && k2 == "service" && k3 == "scope"
    ensures var params := Param(k1, c.realm) + "," + (Param(k2, c.service) + "," + Param(k3, c.scope));
            ChallengeOf(ReadParams(Params(params))) ==
            if TrimChar(c.realm, '"') == "" then Err(MissingRealm)
            else Ok(BearerChallenge(TrimChar(c.realm, '"'), TrimChar(c.service, '"'), TrimChar(c.scope, '"')))
  {
    ThreeParams(k1, c.realm, k2, c.service, k3, c.scope);
    ReadsValues(map[], TrimChar(c.realm, '"'), TrimChar(c.service, '"'), TrimChar(c.scope, '"'));
  }

  /**
   A challenge rendered with quoted strings is read back, whatever its values contain, except for the quotes
   that a value begins or ends with.
   */
  lemma {:induction false} ReadsRendered(c: BearerChallenge)
    ensures ParseBearerChallenge(Rendered(c)) ==
            if TrimChar(c.realm, '"') == "" then Err(MissingRealm)
            else Ok(BearerChallenge(TrimChar(c.realm, '"'), TrimChar(c.service, '"'), TrimChar(c.scope, '"')))
  {
    ReadsParams(c, "realm", "service", "scope");
    SchemeIsRead("Bearer", RenderedParams(c), Rendered(c));
  }

  lemma {:induction false} ReadsValues(values: map<string, string>, realm: string, service: string, scope: string)
    ensures ChallengeOf(values["realm" := realm]["service" := service]["scope" := scope])
            == if realm == "" then Err(MissingRealm) else Ok(BearerChallenge(realm, service, scope))
  {
  }

  lemma {:induction false} SchemeIsRead(scheme: string, params: string, header: string)
    requires scheme == "Bearer" && header == scheme + " " + params
    ensures ParseBearerChallenge(header) == ChallengeOf(ReadParams(Params(params)))
  {
    assert ' ' !in scheme;
    IndexOfUnique(header, ' ', |scheme|);
    assert header[..|scheme|] == scheme && header[|scheme| + 1..] == params;
  }

  lemma {:induction false} TrimIsUnquoted(v: string)
    ensures TrimChar(v, '"') == v <==> Unquoted(v)
  {
    TrimUnchanged(v, '"');
  }

  /** A challenge is recovered exactly when it has a realm and no value begins or ends with a quote. */
  lemma {:induction false} ChallengeRoundTrip(c: BearerChallenge)
    ensures ParseBearerChallenge(Rendered(c)) == Ok(c) <==>
            c.realm != "" && Unquoted(c.realm) && Unquoted(c.service) && Unquoted(c.scope)
  {
    var read := ParseBearerChallenge(Rendered(c));
    ReadsRendered(c);
    TrimIsUnquoted(c.realm);
    TrimIsUnquoted(c.service);
    TrimIsUnquoted(c.scope);
    assert read == Ok(c) <==>
      c.realm != "" && TrimChar(c.realm, '"') == c.realm && TrimChar(c.service, '"') == c.service
      && TrimChar(c.scope, '"') == c.scope;
  }

  predicate Unquoted(v: string) {
    v != "" ==> v[0] != '"' && v[|v| - 1] != '"'
  }

  // ---------------------------------------------------------------- any challenge

  /** The letters of a lower-case word, each in either case. */
  predicate Spells(s: string, word: string) {
    |s| == |word| && forall i :: 0 <= i < |s| ==> s[i] == word[i] || s[i] as int + 32 == word[i] as int
  }

  predicate LowerWord(word: string) {
    word != "" && forall i :: 0 <= i < |word| ==> 'a' <= word[i] <= 'z'
  }

  predicate Letters(s: string) {
    s != "" && forall i :: 0 <= i < |s| ==> 'a' <= s[i] <= 'z' || 'A' <= s[i] <= 'Z'
  }

  /** One parameter as it is written: white space, a name, and a value, in quotes or bare. */
  datatype Given = Given(pad: string, name: string, value: string, quoted: bool)

  /** Names are letters, and a bare value holds none of the characters that would need quotes. */
  predicate GivenOk(g: Given) {
    && (forall i :: 0 <= i < |g.pad| ==> IsSpace(g.pad[i]))
    && Letters(g.name)
    && (!g.quoted ==>
          && '"' !in g.value && ',' !in g.value && '\\' !in g.value
          && (g.value == "" || (!IsSpace(g.value[0]) && !IsSpace(g.value[|g.value| - 1]))))
  }

  function ValueText(g: Given): string {
    if g.quoted then Quote(g.value) else g.value
  }

  function WriteGiven(g: Given): string {
    g.pad + (g.name + "=" + ValueText(g))
  }

  function WriteAll(gs: seq<Given>): string
    requires gs != []
  {
    if |gs| == 1 then WriteGiven(gs[0]) else WriteAll(gs[..|gs| - 1]) + "," + WriteGiven(gs[|gs| - 1])
  }

  /** The value given last under that name, in any letter case; empty if there is none. */
  function Told(gs: seq<Given>, word: string): string {
    if gs == [] then ""
    else if Spells(gs[|gs| - 1].name, word) then gs[|gs| - 1].value
    else Told(gs[..|gs| - 1], word)
  }

  function ValueRead(g: Given): string {
    if g.quoted then ['"'] + g.value + ['"'] else g.value
  }

  function PartOf(g: Given): string {
    g.pad + (g.name + "=" + ValueRead(g))
  }

  function PartsOf(gs: seq<Given>): seq<string> {
    if gs == [] then [] else PartsOf(gs[..|gs| - 1]) + [PartOf(gs[|gs| - 1])]
  }

  lemma {:induction false} ScanHead(g: Given)
    requires GivenOk(g)
    ensures Clean(OUTSIDE, g.pad + (g.name + "="), g.pad + (g.name + "="))
  {
    var head := g.pad + (g.name + "=");
    forall i | 0 <= i < |head| ensures head[i] != '"' && head[i] != ',' && head[i] != '\\' {
      assert head[i] == if i < |g.pad| then g.pad[i] else if i < |g.pad| + |g.name| then g.name[i - |g.pad|] else '=';
    }
    ScanToken(head);
  }

  lemma {:induction false} ScanValue(g: Given)
    requires GivenOk(g)
    ensures Clean(OUTSIDE, ValueText(g), ValueRead(g))
  {
    if g.quoted { ScanQuoted(g.value); } else { ScanToken(g.value); }
  }

  lemma {:induction false} CleanIsOnePart(s: string, u: string)
    requires Clean(OUTSIDE, s, u)
    ensures After(OUTSIDE, s) == OUTSIDE && Params(s) == [u]
  {
    OnePart(s);
  }

  lemma {:induction false} Regroup(a: string, b: string, c: string)
    ensures a + (b + c) == (a + b) + c
  {
  }

  lemma {:induction false} ScanGiven(g: Given)
    requires GivenOk(g)
    ensures After(OUTSIDE, WriteGiven(g)) == OUTSIDE && Params(WriteGiven(g)) == [PartOf(g)]
  {
    var name := g.name + "=";
    ScanHead(g);
    ScanValue(g);
    CleanConcat(OUTSIDE, g.pad + name, g.pad + name, ValueText(g), ValueRead(g));
    Regroup(g.pad, name, ValueText(g));
    Regroup(g.pad, name, ValueRead(g));
    CleanIsOnePart(WriteGiven(g), PartOf(g));
  }

  lemma {:induction false} ScanAll(gs: seq<Given>)
    requires gs != [] && forall i :: 0 <= i < |gs| ==> GivenOk(gs[i])
    ensures After(OUTSIDE, WriteAll(gs)) == OUTSIDE && Params(WriteAll(gs)) == PartsOf(gs)
    decreases |gs|
  {
    var n := |gs| - 1;
    ScanGiven(gs[n]);
    if n == 0 {
      assert PartsOf(gs[..0]) == [];
    } else {
      var before, last := WriteAll(gs[..n]), WriteGiven(gs[n]);
      ScanAll(gs[..n]);
      SplitsAtComma(before, last);
      AfterConcat(OUTSIDE, before + ",", last);
      AfterConcat(OUTSIDE, before, ",");
      AfterComma();
    }
  }

  lemma {:induction false} PaddedIsTrimmed(pad: string, s: string)
    requires forall i :: 0 <= i < |pad| ==> IsSpace(pad[i])
    requires s != "" && !IsSpace(s[0]) && !IsSpace(s[|s| - 1])
    ensures TrimSpace(pad + s) == s
  {
    TrimLeftSpaces(pad, s);
    TrimSpaceIdentity(s);
  }

  lemma {:induction false} ReadsPadded(values: map<string, string>, pad: string, name: string, value: string)
    requires forall i :: 0 <= i < |pad| ==> IsSpace(pad[i])
    requires Letters(name) && (value == "" || (!IsSpace(value[0]) && !IsSpace(value[|value| - 1])))
    ensures ReadParam(values, pad + (name + "=" + value)) == values[ToLower(name) := TrimChar(value, '"')]
  {
    var part := name + "=" + value;
    assert part[0] == name[0];
    assert part[|part| - 1] == if value == "" then '=' else value[|value| - 1];
    PaddedIsTrimmed(pad, part);
    IndexOfUnique(part, '=', |name|);
    assert part[..|name|] == name && part[|name| + 1..] == value;
    TrimSpaceIdentity(value);
  }

  lemma {:induction false} ReadsGiven(values: map<string, string>, g: Given)
    requires GivenOk(g)
    ensures ReadParam(values, PartOf(g)) == values[ToLower(g.name) := TrimChar(g.value, '"')]
  {
    ReadsPadded(values, g.pad, g.name, ValueRead(g));
    if g.quoted { TrimQuoted(g.value, '"'); }
  }

  lemma {:induction false} LowerSpells(s: string, word: string)
    requires Letters(s) && LowerWord(word)
    ensures ToLower(s) == word <==> Spells(s, word)
  {
    if Spells(s, word) {
      assert forall i :: 0 <= i < |s| ==> ToLower(s)[i] == word[i];
    }
    if ToLower(s) == word {
      forall i | 0 <= i < |s| ensures s[i] == word[i] || s[i] as int + 32 == word[i] as int {
        assert ToLower(s)[i] == word[i];
      }
    }
  }

  lemma {:induction false} ValueAfter(values: map<string, string>, name: string, value: string, word: string)
    ensures ValueOf(values[name := value], word) == if name == word then value else ValueOf(values, word)
  {
  }

  lemma {:induction false} PartsOfLast(gs: seq<Given>)
    requires gs != []
    ensures ReadParams(PartsOf(gs)) == ReadParam(ReadParams(PartsOf(gs[..|gs| - 1])), PartOf(gs[|gs| - 1]))
  {
    assert PartsOf(gs)[..|PartsOf(gs)| - 1] == PartsOf(gs[..|gs| - 1]);
  }

  lemma {:induction false} ReadsAll(gs: seq<Given>, word: string)
    requires LowerWord(word) && forall i :: 0 <= i < |gs| ==> GivenOk(gs[i])
    ensures ValueOf(ReadParams(PartsOf(gs)), word) == TrimChar(Told(gs, word), '"')
    decreases |gs|
  {
    if gs != [] {
      var init, last := gs[..|gs| - 1], gs[|gs| - 1];
      ReadsAll(init, word);
      PartsOfLast(gs);
      ReadsGiven(ReadParams(PartsOf(init)), last);
      ValueAfter(ReadParams(PartsOf(init)), ToLower(last.name), TrimChar(last.value, '"'), word);
      LowerSpells(last.name, word);
    }
  }

  /** `EqualFold`, letter by letter: no letter of the word folds with a character outside ASCII. */
  lemma {:induction false} SchemeSpelled(scheme: string)
    ensures EqualFold(scheme, "BEARER") <==> Spells(scheme, "bearer")
  {
  }

  lemma {:induction false} FirstSpace(header: string, scheme: string, params: string)
    requires header == scheme + " " + params && ' ' !in scheme
    ensures IndexOf(header, ' ') == |scheme| && header[..|scheme|] == scheme && header[|scheme| + 1..] == params
  {
    IndexOfUnique(header, ' ', |scheme|);
  }

  /** A header is refused as unsupported if and only if it does not begin with the scheme, in any case, and a space. */
  lemma {:induction false} OtherSchemesRefused(header: string)
    ensures ParseBearerChallenge(header) == Err(MissingHeader) <==> header == ""
    ensures ParseBearerChallenge(header) == Err(UnsupportedChallenge) <==>
            header != "" && !exists scheme, params :: header == scheme + " " + params && Spells(scheme, "bearer")
  {
    var i := IndexOf(header, ' ');
    if i < |header| {
      SchemeSpelled(header[..i]);
      assert header == header[..i] + " " + header[i + 1..];
    }
    if scheme, params :| header == scheme + " " + params && Spells(scheme, "bearer") {
      FirstSpace(header, scheme, params);
      SchemeSpelled(scheme);
    }
  }

  lemma {:induction false} SpelledIsRead(scheme: string, params: string)
    requires Spells(scheme, "bearer")
    ensures ParseBearerChallenge(scheme + " " + params) == ChallengeOf(ReadParams(Params(params)))
  {
    FirstSpace(scheme + " " + params, scheme, params);
    SchemeSpelled(scheme);
  }

  function Answer(realm: string, service: string, scope: string): Result<BearerChallenge, ChallengeError> {
    if realm == "" then Err(MissingRealm) else Ok(BearerChallenge(realm, service, scope))
  }

  /** The three parameters that matter; the names stand for themselves. */
  lemma {:induction false} ReadsThem(gs: seq<Given>, k1: string, k2: string, k3: string)
    requires k1 == "realm" && k2 == "service" && k3 == "scope"
    requires LowerWord(k1) && LowerWord(k2) && LowerWord(k3) && forall i :: 0 <= i < |gs| ==> GivenOk(gs[i])
    ensures ChallengeOf(ReadParams(PartsOf(gs)))
            == Answer(TrimChar(Told(gs, k1), '"'), TrimChar(Told(gs, k2), '"'), TrimChar(Told(gs, k3), '"'))
  {
    ReadsAll(gs, k1);
    ReadsAll(gs, k2);
    ReadsAll(gs, k3);
  }

  lemma {:induction false} LowerWords(k1: string, k2: string, k3: string)
    requires k1 == "realm" && k2 == "service" && k3 == "scope"
    ensures LowerWord(k1) && LowerWord(k2) && LowerWord(k3)
  {
  }

  lemma {:induction false} WrittenIsRead(gs: seq<Given>, k1: string, k2: string, k3: string)
    requires gs != [] && forall i :: 0 <= i < |gs| ==> GivenOk(gs[i])
    requires k1 == "realm" && k2 == "service" && k3 == "scope"
    ensures ChallengeOf(ReadParams(Params(WriteAll(gs))))
            == Answer(TrimChar(Told(gs, k1), '"'), TrimChar(Told(gs, k2), '"'), TrimChar(Told(gs, k3), '"'))
  {
    LowerWords(k1, k2, k3);
    ScanAll(gs);
    ReadsThem(gs, k1, k2, k3);
  }

  /**
   Any challenge: with parameters in any number and order, with names in any letter case, with values in quotes or
   bare, with white space before them and others between them, the three that matter are read, of equal names the
   last.
   */
  lemma {:induction false} ChallengeIsRead(scheme: string, gs: seq<Given>)
    requires Spells(scheme, "bearer") && gs != [] && forall i :: 0 <= i < |gs| ==> GivenOk(gs[i])
    ensures ParseBearerChallenge(scheme + " " + WriteAll(gs))
            == Answer(TrimChar(Told(gs, "realm"), '"'), TrimChar(Told(gs, "service"), '"'),
                      TrimChar(Told(gs, "scope"), '"'))
  {
    SpelledIsRead(scheme, WriteAll(gs));
    WrittenIsRead(gs, "realm", "service", "scope");
  }
}
