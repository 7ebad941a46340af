/** Cosign command lines and cache keys (internal/verify/cosign.go). */
module Verify {
  import opened Prelude
  import opened Text
  import opened Image
  import opened Policy

  datatype ArgsError = MissingDigest | MissingKey | UnsupportedMode

  datatype CosignResult = CosignResult(success: bool, reason: string)

  /** The cosign executable: whatever it answers depends on its arguments only. */
  type CosignCommand = seq<string> -> CosignResult

  function DigestReference(registry: string, repository: string, digest: string): string {
    registry + "/" + repository + "@" + digest
  }

  function Mode(cfg: CosignPolicy): string {
    if cfg.mode != "" then cfg.mode else if cfg.key != "" then "key" else "keyless"
  }

  function Flag(name: string, value: string): seq<string> {
    if value != "" then [name, value] else []
  }

  function CosignVerifyArgs(registry: string, repository: string, digest: string, cfg: CosignPolicy)
    : Result<seq<string>, ArgsError>
  {
    if digest == "" then Err(MissingDigest)
    else if Mode(cfg) == "key" then
      if cfg.key == "" then Err(MissingKey)
      else Ok(["verify"] + ["--key", cfg.key] + [DigestReference(registry, repository, digest)])
    else if Mode(cfg) == "keyless" then
      Ok(["verify"]
         + Flag("--certificate-oidc-issuer", cfg.issuer)
         + Flag("--certificate-identity", cfg.identity)
         + Flag("--certificate-identity-regexp", cfg.identityRegex)
         + [DigestReference(registry, repository, digest)])
    else Err(UnsupportedMode)
  }

  /** cosign.go:54-88, with its reassignments and appends. */
  method BuildCosignArgs(registry: string, repository: string, digest: string, cfg: CosignPolicy)
    returns (result: Result<seq<string>, ArgsError>)
    ensures result == CosignVerifyArgs(registry, repository, digest, cfg)
  {
    if digest == "" { return Err(MissingDigest); }
    var mode := cfg.mode;
    if mode == "" && cfg.key != "" { mode := "key"; }
    if mode == "" { mode := "keyless"; }
    var args := ["verify"];
    if mode == "key" {
      if cfg.key == "" { return Err(MissingKey); }
      args := args + ["--key", cfg.key];
    } else if mode == "keyless" {
      if cfg.issuer != "" { args := args + ["--certificate-oidc-issuer", cfg.issuer]; }
      assert args == ["verify"] + Flag("--certificate-oidc-issuer", cfg.issuer);
      if cfg.identity != "" { args := args + ["--certificate-identity", cfg.identity]; }
      assert args == ["verify"] + Flag("--certificate-oidc-issuer", cfg.issuer)
                     + Flag("--certificate-identity", cfg.identity);
      if cfg.identityRegex != "" { args := args + ["--certificate-identity-regexp", cfg.identityRegex]; }
      assert args == ["verify"] + Flag("--certificate-oidc-issuer", cfg.issuer)
                     + Flag("--certificate-identity", cfg.identity)
                     + Flag("--certificate-identity-regexp", cfg.identityRegex);
    } else {
      return Err(UnsupportedMode);
    }
    result := Ok(args + [DigestReference(registry, repository, digest)]);
  }

  /** The digest of a text; SHA-256 taken to be free of collisions. */
  datatype Sha256 = Sha256(preimage: string)

  function KeyFields(cfg: CosignPolicy): seq<string> {
    [cfg.mode, cfg.key, cfg.issuer, cfg.identity, cfg.identityRegex]
  }

  function CosignPolicyKey(cfg: CosignPolicy): Sha256 {
    Sha256(Join(KeyFields(cfg), '\0'))
  }

  function ArgsErrorText(e: ArgsError): string {
    match e
    case MissingDigest => "digest is required for cosign verification"
    case MissingKey => "cosign key is required when mode is key"
    case UnsupportedMode => "unsupported cosign mode"
  }

  /** The `CosignVerifier` interface: registry, repository, digest and policy to a result or an error text. */
  type Verifier = (string, string, string, CosignPolicy) -> Result<CosignResult, string>

  /** The verifier that builds the arguments and runs the command. */
  function CommandVerifier(command: CosignCommand): Verifier {
    (registry, repository, digest, cfg) =>
      match CosignVerifyArgs(registry, repository, digest, cfg)
      case Err(e) => Err(ArgsErrorText(e))
      case Ok(args) => Ok(command(args))
  }

  /** A policy that validation accepts and that requires Cosign always has a command line. */
  lemma {:induction false} ValidPolicyHasArgs(registry: string, repository: string, digest: string, cfg: CosignPolicy)
    requires ValidateCosign(cfg).None? && cfg.required
    ensures CosignVerifyArgs(registry, repository, digest, cfg).Ok? <==> digest != ""
  {
  }

  // ---------------------------------------------------------------- the command line, word by word

  function IfSet(name: string, value: string): seq<string> {
    if value == "" then [] else [name, value]
  }

  /** Which command runs for a policy and a digest, or which error takes its place. */
  lemma {:induction false} CommandLineIs(registry: string, repository: string, digest: string, cfg: CosignPolicy)
    ensures var image := registry + "/" + repository + "@" + digest;
            CosignVerifyArgs(registry, repository, digest, cfg) ==
            if digest == "" then Err(MissingDigest)
            else if cfg.mode != "" && cfg.mode != "key" && cfg.mode != "keyless" then Err(UnsupportedMode)
            else if cfg.mode == "key" && cfg.key == "" then Err(MissingKey)
            else if cfg.mode == "key" || (cfg.mode == "" && cfg.key != "") then Ok(["verify", "--key", cfg.key, image])
            else Ok(["verify"] + IfSet("--certificate-oidc-issuer", cfg.issuer)
                    + IfSet("--certificate-identity", cfg.identity)
                    + IfSet("--certificate-identity-regexp", cfg.identityRegex) + [image])
  {
    var image := registry + "/" + repository + "@" + digest;
    assert ["verify"] + ["--key", cfg.key] + [image] == ["verify", "--key", cfg.key, image];
  }

  /** The verifier accepts exactly what the command accepts, and nothing without a command line. */
  lemma {:induction false} CommandAcceptsIff(command: CosignCommand, registry: string, repository: string,
                                             digest: string, cfg: CosignPolicy)
    ensures var r := CommandVerifier(command)(registry, repository, digest, cfg);
            var args := CosignVerifyArgs(registry, repository, digest, cfg);
            && (r.Ok? <==> args.Ok?)
            && (r.Ok? ==>
                  && r.value.success == command(args.value).success
                  && r.value.reason == command(args.value).reason)
  {
  }

  lemma {:induction false} ArgsEndWithImage(registry: string, repository: string, digest: string, cfg: CosignPolicy)
    requires CosignVerifyArgs(registry, repository, digest, cfg).Ok?
    ensures var args := CosignVerifyArgs(registry, repository, digest, cfg).value;
            |args| >= 2 && args[0] == "verify" && args[|args| - 1] == registry + "/" + repository + "@" + digest
  {
    CommandLineIs(registry, repository, digest, cfg);
  }

  lemma {:induction false} CutAtFirst(front: string, sep: char, back: string, front': string, back': string)
    requires front + [sep] + back == front' + [sep] + back' && sep !in front && sep !in front'
    ensures front == front' && back == back'
  {
    var s := front + [sep] + back;
    IndexOfUnique(s, sep, |front|);
    IndexOfUnique(s, sep, |front'|);
    assert s[..|front|] == front && s[|front| + 1..] == back;
  }

  /** The text of an image determines its parts. */
  lemma {:induction false} ImageTextIsUnique(registry: string, repository: string, digest: string, registry': string,
                                             repository': string, digest': string)
    requires '/' !in registry && '/' !in registry' && '@' !in repository && '@' !in repository'
    requires registry + "/" + repository + "@" + digest == registry' + "/" + repository' + "@" + digest'
    ensures registry == registry' && repository == repository' && digest == digest'
  {
    var x, y := repository + "@" + digest, repository' + "@" + digest';
    assert registry + "/" + repository + "@" + digest == registry + ['/'] + x;
    assert registry' + "/" + repository' + "@" + digest' == registry' + ['/'] + y;
    CutAtFirst(registry, '/', x, registry', y);
    CutAtFirst(repository, '@', digest, repository', digest');
  }

  /**
   A command line names one image and one digest: for well-formed references, whatever the policies, a command that
   has accepted one digest of one repository has not been asked about any other.
   */
  lemma {:induction false} CommandsNameTheirDigest(a: Reference, digest: string, p: CosignPolicy, b: Reference,
                                                   other: string, q: CosignPolicy)
    requires WellFormed(a) && WellFormed(b)
    requires CosignVerifyArgs(a.registry, a.repository, digest, p).Ok?
    requires CosignVerifyArgs(a.registry, a.repository, digest, p)
             == CosignVerifyArgs(b.registry, b.repository, other, q)
    ensures a.registry == b.registry && a.repository == b.repository && digest == other
  {
    ArgsEndWithImage(a.registry, a.repository, digest, p);
    ArgsEndWithImage(b.registry, b.repository, other, q);
    RegistryOf(a);
    RegistryOf(b);
    RepositoryOf(a);
    RepositoryOf(b);
    ImageTextIsUnique(a.registry, a.repository, digest, b.registry, b.repository, other);
  }

  // ---------------------------------------------------------------- what a command line demands

  lemma {:induction false} FlagsRegrouped(a: seq<string>, b: seq<string>, c: seq<string>, d: seq<string>)
    ensures a + b + c + d == a + (b + (c + d))
  {
  }

  /** The words from a flag on: an odd number of them, the flag's name not first unless the flag is there. */
  predicate Rest(n: string, words: seq<string>) {
    |words| % 2 == 1 && (|words| > 1 ==> words[0] != n)
  }

  lemma {:induction false} FirstFlag(n: string, x: string, y: string, a: seq<string>, b: seq<string>)
    requires Flag(n, x) + a == Flag(n, y) + b && Rest(n, a) && Rest(n, b)
    ensures x == y && a == b
  {
    var s := Flag(n, x) + a;
    assert x == "" ==> s == a;
    assert y == "" ==> s == b;
    assert x != "" ==> |s| > 1 && s[0] == n && s[1] == x && s[2..] == a;
    assert y != "" ==> |s| > 1 && s[0] == n && s[1] == y && s[2..] == b;
  }

  lemma {:induction false} RestAfter(n: string, m: string, x: string, words: seq<string>)
    requires n != m && Rest(n, words)
    ensures Rest(n, Flag(m, x) + words)
  {
    assert x == "" ==> Flag(m, x) + words == words;
  }

  /** Two lists of flags with the same names, each followed by the same image, agree only if their values do. */
  lemma {:induction false} FlagsAreReadable(n1: string, n2: string, n3: string, a1: string, a2: string, a3: string,
                                            b1: string, b2: string, b3: string, image: string)
    requires n1 != n2 && n1 != n3 && n2 != n3
    requires Flag(n1, a1) + Flag(n2, a2) + Flag(n3, a3) + [image]
             == Flag(n1, b1) + Flag(n2, b2) + Flag(n3, b3) + [image]
    ensures a1 == b1 && a2 == b2 && a3 == b3
  {
    var c, d := Flag(n3, a3) + [image], Flag(n3, b3) + [image];
    FlagsRegrouped(Flag(n1, a1), Flag(n2, a2), Flag(n3, a3), [image]);
    FlagsRegrouped(Flag(n1, b1), Flag(n2, b2), Flag(n3, b3), [image]);
    RestAfter(n1, n3, a3, [image]);
    RestAfter(n1, n3, b3, [image]);
    RestAfter(n1, n2, a2, c);
    RestAfter(n1, n2, b2, d);
    FirstFlag(n1, a1, b1, Flag(n2, a2) + c, Flag(n2, b2) + d);
    RestAfter(n2, n3, a3, [image]);
    RestAfter(n2, n3, b3, [image]);
    FirstFlag(n2, a2, b2, c, d);
    FirstFlag(n3, a3, b3, [image], [image]);
  }

  /** Policies with the same command line ask for the same key, or for the same issuer and identity. */
  lemma {:induction false} ArgsDetermineSigner(registry: string, repository: string, digest: string, a: CosignPolicy,
                                               b: CosignPolicy)
    requires CosignVerifyArgs(registry, repository, digest, a).Ok?
    requires CosignVerifyArgs(registry, repository, digest, a) == CosignVerifyArgs(registry, repository, digest, b)
    ensures Mode(a) == Mode(b)
    ensures if Mode(a) == "key" then a.key == b.key
            else a.issuer == b.issuer && a.identity == b.identity && a.identityRegex == b.identityRegex
  {
    var args := CosignVerifyArgs(registry, repository, digest, a).value;
    KeyArgs(registry, repository, digest, a);
    KeyArgs(registry, repository, digest, b);
    if Mode(a) != "key" && Mode(b) != "key" {
      KeylessArgs(registry, repository, digest, a);
      KeylessArgs(registry, repository, digest, b);
      FlagsAreReadable("--certificate-oidc-issuer", "--certificate-identity", "--certificate-identity-regexp",
                       a.issuer, a.identity, a.identityRegex, b.issuer, b.identity, b.identityRegex,
                       DigestReference(registry, repository, digest));
    }
  }

  lemma {:induction false} KeyArgs(registry: string, repository: string, digest: string, cfg: CosignPolicy)
    requires CosignVerifyArgs(registry, repository, digest, cfg).Ok?
    ensures var args := CosignVerifyArgs(registry, repository, digest, cfg).value;
            Mode(cfg) == "key" <==> |args| == 4 && args[1] == "--key"
    ensures Mode(cfg) == "key" ==> CosignVerifyArgs(registry, repository, digest, cfg).value[2] == cfg.key
  {
  }

  lemma {:induction false} KeylessArgs(registry: string, repository: string, digest: string, cfg: CosignPolicy)
    requires CosignVerifyArgs(registry, repository, digest, cfg).Ok? && Mode(cfg) != "key"
    ensures CosignVerifyArgs(registry, repository, digest, cfg).value[1..]
            == Flag("--certificate-oidc-issuer", cfg.issuer) + Flag("--certificate-identity", cfg.identity)
               + Flag("--certificate-identity-regexp", cfg.identityRegex)
               + [DigestReference(registry, repository, digest)]
  {
  }

  // ---------------------------------------------------------------- the cache key

  ghost predicate NulFree(cfg: CosignPolicy) {
    forall f :: f in KeyFields(cfg) ==> '\0' !in f
  }

  ghost predicate SameFields(a: CosignPolicy, b: CosignPolicy) {
    KeyFields(a) == KeyFields(b)
  }

  lemma {:induction false} SeparatedAssociates(a: string, sep: char, b: string, c: string)
    ensures (a + [sep] + b) + [sep] + c == a + [sep] + (b + [sep] + c)
  {
  }

  lemma {:induction false} SplitAppend(a: string, sep: char, b: string)
    ensures Split(a + [sep] + b, sep) == Split(a, sep) + Split(b, sep)
    decreases |a|
  {
    var i := IndexOf(a, sep);
    if i == |a| {
      SplitCons(a, sep, b);
      SplitNone(a, sep);
    } else {
      var head, rest := a[..i], a[i + 1..];
      assert a == head + [sep] + rest;
      SplitAppend(rest, sep, b);
      SeparatedAssociates(head, sep, rest, b);
      SplitCons(head, sep, rest + [sep] + b);
      SplitCons(head, sep, rest);
      ConsAppend(head, Split(rest, sep), Split(b, sep));
    }
  }

  lemma {:induction false} ConsAppend<T>(a: T, b: seq<T>, c: seq<T>)
    ensures [a] + (b + c) == ([a] + b) + c
  {
  }

  /** Splitting five joined fields gives at least five parts, and exactly them when none has a NUL. */
  lemma {:induction false} SplitKey(cfg: CosignPolicy)
    ensures Split(Join(KeyFields(cfg), '\0'), '\0') ==
            Split(cfg.mode, '\0') + (Split(cfg.key, '\0') + (Split(cfg.issuer, '\0')
            + (Split(cfg.identity, '\0') + Split(cfg.identityRegex, '\0'))))
  {
    var f := KeyFields(cfg);
    JoinFive(f);
    var tail3 := f[3] + "\0" + f[4];
    var tail2 := f[2] + "\0" + tail3;
    var tail1 := f[1] + "\0" + tail2;
    SplitAppend(f[3], '\0', f[4]);
    SplitAppend(f[2], '\0', tail3);
    SplitAppend(f[1], '\0', tail2);
    SplitAppend(f[0], '\0', tail1);
  }

  lemma {:induction false} JoinFive(f: seq<string>)
    requires |f| == 5
    ensures Join(f, '\0') == f[0] + "\0" + (f[1] + "\0" + (f[2] + "\0" + (f[3] + "\0" + f[4])))
  {
    JoinFour(f, f[4..]);
  }

  lemma {:induction false} JoinFour(f: seq<string>, rest: seq<string>)
    requires |f| >= 5 && rest == f[4..]
    ensures Join(f, '\0') == f[0] + "\0" + (f[1] + "\0" + (f[2] + "\0" + (f[3] + "\0" + Join(rest, '\0'))))
  {
    var g1, g2, g3 := f[1..], f[2..], f[3..];
    assert g1[1..] == g2 && g2[1..] == g3 && g3[1..] == rest;
    assert Join(g3, '\0') == f[3] + "\0" + Join(rest, '\0');
    assert Join(g2, '\0') == f[2] + "\0" + Join(g3, '\0');
    assert Join(g1, '\0') == f[1] + "\0" + Join(g2, '\0');
  }

  /** What the key is the digest of, field by field. */
  lemma {:induction false} KeyIsDigestOf(cfg: CosignPolicy)
    ensures CosignPolicyKey(cfg)
            == Sha256(cfg.mode + "\0"
                      + (cfg.key + "\0" + (cfg.issuer + "\0" + (cfg.identity + "\0" + cfg.identityRegex))))
  {
    JoinFive(KeyFields(cfg));
  }

  lemma {:induction false} SplitSingle(s: string, sep: char)
    ensures |Split(s, sep)| == 1 <==> sep !in s
    ensures |Split(s, sep)| == 1 ==> Split(s, sep) == [s]
  {
    if sep !in s {
      SplitNone(s, sep);
    }
  }

  lemma {:induction false} NulFreeSplit(cfg: CosignPolicy)
    ensures NulFree(cfg) <==> |Split(Join(KeyFields(cfg), '\0'), '\0')| == 5
    ensures NulFree(cfg) ==> Split(Join(KeyFields(cfg), '\0'), '\0') == KeyFields(cfg)
  {
    SplitKey(cfg);
    SplitSingle(cfg.mode, '\0');
    SplitSingle(cfg.key, '\0');
    SplitSingle(cfg.issuer, '\0');
    SplitSingle(cfg.identity, '\0');
    SplitSingle(cfg.identityRegex, '\0');
    assert NulFree(cfg) ==> cfg.mode in KeyFields(cfg) && cfg.key in KeyFields(cfg) && cfg.issuer in KeyFields(cfg)
                            && cfg.identity in KeyFields(cfg) && cfg.identityRegex in KeyFields(cfg);
  }

  /** A cache hit can only come from the same identity constraints, so from the same command line. */
  lemma {:induction false} SameKeySameArgs(registry: string, repository: string, digest: string, a: CosignPolicy,
                                           b: CosignPolicy)
    requires NulFree(a) && CosignPolicyKey(a) == CosignPolicyKey(b)
    ensures SameFields(a, b)
    ensures CosignVerifyArgs(registry, repository, digest, a) == CosignVerifyArgs(registry, repository, digest, b)
  {
    NulFreeSplit(a);
    NulFreeSplit(b);
    assert KeyFields(a)[0] == KeyFields(b)[0] && KeyFields(a)[1] == KeyFields(b)[1]
           && KeyFields(a)[2] == KeyFields(b)[2] && KeyFields(a)[3] == KeyFields(b)[3]
           && KeyFields(a)[4] == KeyFields(b)[4];
  }

  /** Another configuration with the same cache key, for a configuration with a NUL in some field. */
  function Regroup(parts: seq<string>, firstAlone: bool): CosignPolicy
    requires |parts| > 5
  {
    if firstAlone then CosignPolicy(false, parts[0], parts[1], parts[2], parts[3], Join(parts[4..], '\0'))
    else CosignPolicy(false, parts[0] + "\0" + parts[1], parts[2], parts[3], parts[4], Join(parts[5..], '\0'))
  }

  lemma {:induction false} RegroupKeepsKey(parts: seq<string>, firstAlone: bool)
    requires |parts| > 5
    ensures Join(KeyFields(Regroup(parts, firstAlone)), '\0') == Join(parts, '\0')
  {
    var f := KeyFields(Regroup(parts, firstAlone));
    JoinFive(f);
    JoinFour(parts, parts[4..]);
    assert parts[4..][1..] == parts[5..];
    var last := Join(parts[5..], '\0');
    assert Join(parts[4..], '\0') == parts[4] + "\0" + last;
    if !firstAlone {
      Regrouped(parts[0], parts[1], parts[2] + "\0" + (parts[3] + "\0" + (parts[4] + "\0" + last)));
    }
  }

  lemma {:induction false} Regrouped(a: string, b: string, c: string)
    ensures (a + "\0" + b) + "\0" + c == a + "\0" + (b + "\0" + c)
  {
  }

  /** The cache key identifies the fields of a configuration exactly when none of them has a NUL. */
  lemma {:induction false} KeyIdentifiesFieldsIff(cfg: CosignPolicy)
    ensures NulFree(cfg) <==>
            forall other :: CosignPolicyKey(other) == CosignPolicyKey(cfg) ==> SameFields(other, cfg)
  {
    if NulFree(cfg) {
      forall other | CosignPolicyKey(other) == CosignPolicyKey(cfg) ensures SameFields(other, cfg) {
        SameKeySameArgs("", "", "", cfg, other);
      }
    } else {
      var joined := Join(KeyFields(cfg), '\0');
      var parts := Split(joined, '\0');
      NulFreeSplit(cfg);
      SplitKey(cfg);
      JoinSplit(joined, '\0');
      RegroupKeepsKey(parts, true);
      RegroupKeepsKey(parts, false);
      var a, b := Regroup(parts, true), Regroup(parts, false);
      assert a.mode != b.mode by { assert '\0' !in parts[0] && (parts[0] + "\0")[|parts[0]|] == '\0'; }
      assert KeyFields(a)[0] != KeyFields(b)[0];
      assert !SameFields(a, cfg) || !SameFields(b, cfg);
      assert CosignPolicyKey(a) == CosignPolicyKey(cfg) && CosignPolicyKey(b) == CosignPolicyKey(cfg);
    }
  }
}
