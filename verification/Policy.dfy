/** Policy configuration (internal/policy/config.go): its values and its validation. */
module Policy {
  import opened Prelude

  const ACTION_ALLOW := "allow"
  const ACTION_DENY := "deny"
  const ACTION_QUARANTINE := "quarantine"

  const MAX_INT64 := 0x7FFF_FFFF_FFFF_FFFF

  /** Nanoseconds, as accepted by `ParseDuration`: never negative, and an `int64`. */
  type Duration = d: int | 0 <= d <= MAX_INT64

  datatype CosignPolicy = CosignPolicy(
    required: bool,
    mode: string,
    key: string,
    issuer: string,
    identity: string,
    identityRegex: string)

  datatype MutableTagPolicy = MutableTagPolicy(action: string, minDigestAge: Duration, allowFirstSeenPull: bool)

  datatype EffectivePolicy = EffectivePolicy(
    mutableTags: MutableTagPolicy,
    digestPinnedImages: string,
    failedRegistryResolution: string,
    failedSignatureCheck: string,
    cosign: CosignPolicy)

  datatype RuleMutableTagPolicy = RuleMutableTagPolicy(
    action: Option<string>,
    minDigestAge: Option<Duration>,
    allowFirstSeenPull: Option<bool>)

  datatype RuleCosignPolicy = RuleCosignPolicy(
    required: Option<bool>,
    mode: Option<string>,
    key: Option<string>,
    issuer: Option<string>,
    identity: Option<string>,
    identityRegex: Option<string>)

  datatype Rule = Rule(pattern: string, mutableTags: RuleMutableTagPolicy, cosign: RuleCosignPolicy)

  datatype Config = Config(
    version: int,
    defaultPolicy: EffectivePolicy,
    rules: seq<Rule>,
    auditPath: string,
    stateBackend: string,
    statePath: string)

  datatype ConfigError =
    | WrongVersion
    | BadAction(path: string)
    | MissingMinDigestAge
    | MissingMatch(rule: nat)
    | BadCosignMode
    | MissingCosignKey
    | MissingIdentity
    | TwoIdentities

  function ValidateAction(path: string, got: string, allowed: set<string>): Option<ConfigError> {
    if got in allowed then None else Some(BadAction(path))
  }

  function ValidateCosign(p: CosignPolicy): Option<ConfigError> {
    if p.mode != "" && p.mode != "keyless" && p.mode != "key" then Some(BadCosignMode)
    else if !p.required then None
    else
      var mode := if p.mode == "" && p.key != "" then "key" else p.mode;
      if mode == "key" && p.key == "" then Some(MissingCosignKey)
      else if (mode == "keyless" || mode == "") && p.identity == "" && p.identityRegex == "" then
        Some(MissingIdentity)
      else if (mode == "keyless" || mode == "") && p.identity != "" && p.identityRegex != "" then
        Some(TwoIdentities)
      else None
  }

  function OrElse<T>(o: Option<T>, base: T): T {
    if o.Some? then o.value else base
  }

  /** The load-time overlay of config.go:181. */
  function EffectiveCosign(rule: RuleCosignPolicy, base: CosignPolicy): CosignPolicy {
    CosignPolicy(
      OrElse(rule.required, base.required),
      OrElse(rule.mode, base.mode),
      OrElse(rule.key, base.key),
      OrElse(rule.issuer, base.issuer),
      OrElse(rule.identity, base.identity),
      OrElse(rule.identityRegex, base.identityRegex))
  }

  function ValidateRule(i: nat, rule: Rule, base: CosignPolicy): Option<ConfigError> {
    if rule.pattern == "" then Some(MissingMatch(i))
    else
      var action :=
        if rule.mutableTags.action.None? then None
        else ValidateAction("mutable_tags.action", rule.mutableTags.action.value,
                            {ACTION_QUARANTINE, ACTION_ALLOW, ACTION_DENY});
      if action.Some? then action else ValidateCosign(EffectiveCosign(rule.cosign, base))
  }

  function ValidateRules(rules: seq<Rule>, base: CosignPolicy): Option<ConfigError> {
    if rules == [] then None
    else
      var earlier := ValidateRules(rules[..|rules| - 1], base);
      if earlier.Some? then earlier else ValidateRule(|rules| - 1, rules[|rules| - 1], base)
  }

  function Validate(c: Config): Option<ConfigError> {
    var p := c.defaultPolicy;
    var mutableAction := ValidateAction("mutable_tags.action", p.mutableTags.action,
                                        {ACTION_QUARANTINE, ACTION_ALLOW, ACTION_DENY});
    var pinned := ValidateAction("digest_pinned_images.action", p.digestPinnedImages, {ACTION_ALLOW, ACTION_DENY});
    var resolution := ValidateAction("failed_registry_resolution.action", p.failedRegistryResolution,
                                     {ACTION_ALLOW, ACTION_DENY});
    var signature := ValidateAction("failed_signature_check.action", p.failedSignatureCheck,
                                    {ACTION_ALLOW, ACTION_DENY});
    if c.version != 1 then Some(WrongVersion)
    else if mutableAction.Some? then mutableAction
    else if p.mutableTags.minDigestAge == 0 && p.mutableTags.action == ACTION_QUARANTINE then
      Some(MissingMinDigestAge)
    else if pinned.Some? then pinned
    else if resolution.Some? then resolution
    else if signature.Some? then signature
    else
      var rules := ValidateRules(c.rules, p.cosign);
      if rules.Some? then rules else ValidateCosign(p.cosign)
  }

  lemma {:induction false} ValidRule(rules: seq<Rule>, base: CosignPolicy, k: nat)
    requires ValidateRules(rules, base).None? && k < |rules|
    ensures ValidateRule(k, rules[k], base).None?
  {
    if k < |rules| - 1 {
      ValidRule(rules[..|rules| - 1], base, k);
    }
  }

  // ---------------------------------------------------------------- what is accepted

  /** The value is the optional one if there is one, and the other otherwise. */
  predicate Takes<T(==)>(v: T, o: Option<T>, base: T) {
    match o
    case Some(own) => v == own
    case None => v == base
  }

  /** Field by field, the rule's value or the one below it. */
  predicate CosignTakes(p: CosignPolicy, rule: RuleCosignPolicy, base: CosignPolicy) {
    && Takes(p.required, rule.required, base.required) && Takes(p.mode, rule.mode, base.mode)
    && Takes(p.key, rule.key, base.key) && Takes(p.issuer, rule.issuer, base.issuer)
    && Takes(p.identity, rule.identity, base.identity) && Takes(p.identityRegex, rule.identityRegex, base.identityRegex)
  }

  predicate MutableAction(action: string) {
    action == "quarantine" || action == "allow" || action == "deny"
  }

  predicate PlainAction(action: string) {
    action == "allow" || action == "deny"
  }

  /** A known mode; and, if a signature is required, a key where the mode needs one, or else exactly one identity. */
  predicate SoundCosign(p: CosignPolicy) {
    && (p.mode == "" || p.mode == "key" || p.mode == "keyless")
    && (p.required ==>
          if p.mode == "key" || (p.mode == "" && p.key != "") then p.key != ""
          else p.identity == "" <==> p.identityRegex != "")
  }

  ghost predicate SoundRule(rule: Rule, base: CosignPolicy) {
    && rule.pattern != ""
    && (rule.mutableTags.action.Some? ==> MutableAction(rule.mutableTags.action.value))
    && forall p :: CosignTakes(p, rule.cosign, base) ==> SoundCosign(p)
  }

  lemma {:induction false} CosignAcceptedIff(p: CosignPolicy)
    ensures ValidateCosign(p).None? <==> SoundCosign(p)
  {
  }

  lemma {:induction false} OverlayTakes(rule: RuleCosignPolicy, base: CosignPolicy, p: CosignPolicy)
    ensures CosignTakes(p, rule, base) <==> p == EffectiveCosign(rule, base)
  {
  }

  lemma {:induction false} RuleAcceptedIff(i: nat, rule: Rule, base: CosignPolicy)
    ensures ValidateRule(i, rule, base).None? <==> SoundRule(rule, base)
  {
    var effective := EffectiveCosign(rule.cosign, base);
    CosignAcceptedIff(effective);
    forall p ensures CosignTakes(p, rule.cosign, base) <==> p == effective {
      OverlayTakes(rule.cosign, base, p);
    }
  }

  lemma {:induction false} RulesAcceptedIff(rules: seq<Rule>, base: CosignPolicy)
    ensures ValidateRules(rules, base).None? <==> forall k :: 0 <= k < |rules| ==> SoundRule(rules[k], base)
  {
    if rules != [] {
      var n := |rules| - 1;
      RulesAcceptedIff(rules[..n], base);
      RuleAcceptedIff(n, rules[n], base);
      assert forall k :: 0 <= k < n ==> rules[..n][k] == rules[k];
    }
  }

  /** A configuration is accepted if and only if all of this holds of its fields. */
  lemma {:induction false} AcceptedIff(c: Config)
    ensures var p := c.defaultPolicy;
            Validate(c).None? <==>
            && c.version == 1
            && MutableAction(p.mutableTags.action)
            && (p.mutableTags.action == "quarantine" ==> p.mutableTags.minDigestAge > 0)
            && PlainAction(p.digestPinnedImages) && PlainAction(p.failedRegistryResolution)
            && PlainAction(p.failedSignatureCheck)
            && SoundCosign(p.cosign)
            && forall k :: 0 <= k < |c.rules| ==> SoundRule(c.rules[k], p.cosign)
  {
    RulesAcceptedIff(c.rules, c.defaultPolicy.cosign);
    CosignAcceptedIff(c.defaultPolicy.cosign);
  }

  /** What a refusal names is what is wrong, and nothing that is checked before it is. */
  lemma {:induction false} RefusalsAreTrue(c: Config)
    ensures var p := c.defaultPolicy;
            && (Validate(c) == Some(WrongVersion) <==> c.version != 1)
            && (Validate(c) == Some(MissingMinDigestAge) <==>
                  c.version == 1 && p.mutableTags.action == "quarantine" && p.mutableTags.minDigestAge == 0)
            && forall k: nat :: Validate(c) == Some(MissingMatch(k)) ==>
                 k < |c.rules| && c.rules[k].pattern == ""
                 && forall j :: 0 <= j < k ==> SoundRule(c.rules[j], p.cosign)
  {
    RulesRefusedAt(c.rules, c.defaultPolicy.cosign);
  }

  lemma {:induction false} RulesRefusedAt(rules: seq<Rule>, base: CosignPolicy)
    ensures var e := ValidateRules(rules, base);
            && (e.Some? ==> !e.value.WrongVersion? && !e.value.MissingMinDigestAge?)
            && forall k: nat :: e == Some(MissingMatch(k)) ==>
                 k < |rules| && rules[k].pattern == "" && forall j :: 0 <= j < k ==> SoundRule(rules[j], base)
  {
    if rules != [] {
      var n := |rules| - 1;
      RulesRefusedAt(rules[..n], base);
      RulesAcceptedIff(rules[..n], base);
      assert forall k :: 0 <= k < n ==> rules[..n][k] == rules[k];
    }
  }
}
