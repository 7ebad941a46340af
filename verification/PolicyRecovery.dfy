/** Every configuration can be written down, and loading what was written gives it back. */
module PolicyRecovery {
  import opened Prelude
  import opened Policy
  import opened PolicyLines
  import opened PolicyParser
  import opened PolicyLayout
  import opened PolicyFile

  /** How a duration is written; `FormatDuration` and `ParseDuration` are inverse for it. */
  type DurationPrinter = Duration -> string

  ghost predicate Inverse(show: DurationPrinter, durations: DurationParser) {
    forall d: Duration :: durations(show(d)) == Some(d) && ScalarOk(Plain(show(d)))
  }

  // ---------------------------------------------------------------- numbers

  function Decimal(n: nat): string {
    if n < 10 then ['0' + n as char] else Decimal(n / 10) + ['0' + (n % 10) as char]
  }

  function ShowInt(n: int): string {
    if n < 0 then ['-'] + Decimal(-n) else Decimal(n)
  }

  lemma {:induction false} DigitsOfDecimal(n: nat)
    ensures var s := Decimal(n); s != "" && Digits(s) == Some(n) && forall i :: 0 <= i < |s| ==> '0' <= s[i] <= '9'
  {
    var s := Decimal(n);
    if n < 10 {
      assert s[..0] == "";
    } else {
      DigitsOfDecimal(n / 10);
      assert s[..|s| - 1] == Decimal(n / 10);
    }
  }

  lemma {:induction false} DigitsAreOrdinary(s: string)
    requires forall i :: 0 <= i < |s| ==> '0' <= s[i] <= '9' || s[i] == '-'
    ensures AllOrdinary(s)
  {
  }

  lemma {:induction false} AtoiOfShowInt(n: int)
    requires -MAX_INT64 - 1 <= n <= MAX_INT64
    ensures Atoi(ShowInt(n)) == Some(n)
  {
    if n < 0 {
      DigitsOfDecimal(-n);
      assert ShowInt(n)[1..] == Decimal(-n);
    } else {
      DigitsOfDecimal(n);
    }
  }

  lemma {:induction false} ShowIntIsScalar(n: int)
    ensures ScalarOk(Plain(ShowInt(n)))
  {
    DigitsOfDecimal(if n < 0 then -n else n);
    DigitsAreOrdinary(ShowInt(n));
  }

  // ---------------------------------------------------------------- writing a configuration

  /** A field that is written if there is a value for it. */
  function Opt(key: string, value: Option<Scalar>): seq<Field> {
    if value.Some? then [Field(key, value.value)] else []
  }

  /** Double quotes, or single ones around a text that holds double quotes. */
  function InQuotes(text: string): (s: Scalar)
    ensures s.text == text
  {
    if '"' in text then SingleQuoted(text) else DoubleQuoted(text)
  }

  function Quote(text: Option<string>): Option<Scalar> {
    if text.Some? then Some(InQuotes(text.value)) else None
  }

  function ShowBool(b: Option<bool>): Option<Scalar> {
    if b.Some? then Some(Plain(if b.value then "true" else "false")) else None
  }

  function ShowDuration(d: Option<Duration>, show: DurationPrinter): Option<Scalar> {
    if d.Some? then Some(Plain(show(d.value))) else None
  }

  function MutableTagFields(t: RuleMutableTagPolicy, show: DurationPrinter): seq<Field> {
    Opt("action", Quote(t.action)) + Opt("min_digest_age", ShowDuration(t.minDigestAge, show))
    + Opt("allow_first_seen_pull", ShowBool(t.allowFirstSeenPull))
  }

  function CosignModeFields(t: RuleCosignPolicy): seq<Field> {
    Opt("required", ShowBool(t.required)) + Opt("mode", Quote(t.mode)) + Opt("key", Quote(t.key))
  }

  function CosignSignerFields(t: RuleCosignPolicy): seq<Field> {
    Opt("issuer", Quote(t.issuer)) + Opt("identity", Quote(t.identity)) + Opt("identity_regex", Quote(t.identityRegex))
  }

  function CosignFields(t: RuleCosignPolicy): seq<Field> {
    CosignModeFields(t) + CosignSignerFields(t)
  }

  function ActionFields(action: string): seq<Field> {
    Opt("action", Quote(Some(action)))
  }

  function RuleDocFor(rule: Rule, show: DurationPrinter): RuleDoc {
    RuleDoc(InQuotes(rule.pattern),
            [TagsSection(MutableTagFields(rule.mutableTags, show)), CosignSection(CosignFields(rule.cosign))])
  }

  function RuleDocsFor(rules: seq<Rule>, show: DurationPrinter): seq<RuleDoc> {
    if rules == [] then []
    else RuleDocsFor(rules[..|rules| - 1], show) + [RuleDocFor(rules[|rules| - 1], show)]
  }

  /** A default policy in the form of a rule that sets every field. */
  function AllMutableTags(t: MutableTagPolicy): RuleMutableTagPolicy {
    RuleMutableTagPolicy(Some(t.action), Some(t.minDigestAge), Some(t.allowFirstSeenPull))
  }

  function AllCosign(t: CosignPolicy): RuleCosignPolicy {
    RuleCosignPolicy(Some(t.required), Some(t.mode), Some(t.key), Some(t.issuer), Some(t.identity),
                     Some(t.identityRegex))
  }

  function SectionsFor(p: EffectivePolicy, show: DurationPrinter): seq<PolicySection> {
    [TagsSection(MutableTagFields(AllMutableTags(p.mutableTags), show)),
     ActionSection(Pinned, ActionFields(p.digestPinnedImages)),
     ActionSection(Resolution, ActionFields(p.failedRegistryResolution)),
     ActionSection(Signature, ActionFields(p.failedSignatureCheck)),
     CosignSection(CosignFields(AllCosign(p.cosign)))]
  }

  function StateFields(c: Config): seq<Field> {
    Opt("backend", Quote(Some(c.stateBackend))) + Opt("path", Quote(Some(c.statePath)))
  }

  /** The parts in the documented order. */
  function DocFor(c: Config, show: DurationPrinter): seq<Part> {
    [TopPart(Field("version", Plain(ShowInt(c.version)))),
     DefaultPart(SectionsFor(c.defaultPolicy, show)),
     RulesPart(RuleDocsFor(c.rules, show)),
     AuditPart(Opt("path", Quote(Some(c.auditPath)))),
     StatePart(StateFields(c))]
  }

  // ---------------------------------------------------------------- looking it up again

  lemma {:induction false} LookupAppend(a: seq<Field>, key: string, value: Option<Scalar>)
    ensures forall k :: Lookup(a + Opt(key, value), k) ==
                        if value.Some? && key == k then Some(value.value.text) else Lookup(a, k)
  {
    if value.Some? {
      assert (a + Opt(key, value))[..|a|] == a;
    } else {
      assert a + Opt(key, value) == a;
    }
  }

  lemma {:induction false} LookupFirst(key: string, value: Option<Scalar>)
    ensures forall k :: Lookup(Opt(key, value), k) == if value.Some? && key == k then Some(value.value.text) else None
  {
    LookupAppend([], key, value);
    assert [] + Opt(key, value) == Opt(key, value);
  }

  lemma {:induction false} LookupThree(k1: string, v1: Option<Scalar>, k2: string, v2: Option<Scalar>,
                                       k3: string, v3: Option<Scalar>, k: string)
    requires k1 != k2 && k1 != k3 && k2 != k3
    ensures var fields := Opt(k1, v1) + Opt(k2, v2) + Opt(k3, v3);
            Lookup(fields, k) == TextOf(if k == k1 then v1 else if k == k2 then v2 else if k == k3 then v3 else None)
  {
    LookupFirst(k1, v1);
    LookupAppend(Opt(k1, v1), k2, v2);
    LookupAppend(Opt(k1, v1) + Opt(k2, v2), k3, v3);
  }

  function TextOf(value: Option<Scalar>): Option<string> {
    if value.Some? then Some(value.value.text) else None
  }

  lemma {:induction false} MutableTagsRecovered(t: RuleMutableTagPolicy, show: DurationPrinter,
                                                durations: DurationParser)
    requires Inverse(show, durations)
    ensures RuleMutableTagsOf(MutableTagFields(t, show), durations) == t
  {
    var v1, v2, v3 := Quote(t.action), ShowDuration(t.minDigestAge, show), ShowBool(t.allowFirstSeenPull);
    LookupThree("action", v1, "min_digest_age", v2, "allow_first_seen_pull", v3, "action");
    LookupThree("action", v1, "min_digest_age", v2, "allow_first_seen_pull", v3, "min_digest_age");
    LookupThree("action", v1, "min_digest_age", v2, "allow_first_seen_pull", v3, "allow_first_seen_pull");
  }

  lemma {:induction false} ModeLookup(t: RuleCosignPolicy, k: string)
    ensures Lookup(CosignModeFields(t), k)
            == TextOf(if k == "required" then ShowBool(t.required) else if k == "mode" then Quote(t.mode)
                      else if k == "key" then Quote(t.key) else None)
  {
    LookupThree("required", ShowBool(t.required), "mode", Quote(t.mode), "key", Quote(t.key), k);
  }

  lemma {:induction false} SignerLookup(t: RuleCosignPolicy, k: string)
    ensures Lookup(CosignSignerFields(t), k)
            == TextOf(if k == "issuer" then Quote(t.issuer) else if k == "identity" then Quote(t.identity)
                      else if k == "identity_regex" then Quote(t.identityRegex) else None)
  {
    LookupThree("issuer", Quote(t.issuer), "identity", Quote(t.identity), "identity_regex", Quote(t.identityRegex), k);
  }

  lemma {:induction false} CosignLookup(t: RuleCosignPolicy, k: string)
    ensures Lookup(CosignFields(t), k)
            == if Lookup(CosignSignerFields(t), k).Some? then Lookup(CosignSignerFields(t), k)
               else Lookup(CosignModeFields(t), k)
  {
    LookupConcat(CosignModeFields(t), CosignSignerFields(t), k);
  }

  lemma {:induction false} ModeRecovered(t: RuleCosignPolicy, k: string)
    requires k == "required" || k == "mode" || k == "key"
    ensures Lookup(CosignFields(t), k) == Lookup(CosignModeFields(t), k)
  {
    CosignLookup(t, k);
    SignerLookup(t, k);
  }

  lemma {:induction false} SignerRecovered(t: RuleCosignPolicy, k: string)
    requires k == "issuer" || k == "identity" || k == "identity_regex"
    ensures Lookup(CosignFields(t), k) == Lookup(CosignSignerFields(t), k)
  {
    CosignLookup(t, k);
    ModeLookup(t, k);
  }

  lemma {:induction false} QuotedBack(text: Option<string>)
    ensures TextOf(Quote(text)) == text
  {
  }

  lemma {:induction false} ModeTexts(t: RuleCosignPolicy)
    ensures var fields := CosignFields(t);
            && LookupBool(fields, "required") == t.required
            && Lookup(fields, "mode") == t.mode && Lookup(fields, "key") == t.key
  {
    ModeRecovered(t, "required");
    ModeRecovered(t, "mode");
    ModeRecovered(t, "key");
    ModeLookup(t, "required");
    ModeLookup(t, "mode");
    ModeLookup(t, "key");
    QuotedBack(t.mode);
    QuotedBack(t.key);
  }

  lemma {:induction false} SignerTexts(t: RuleCosignPolicy)
    ensures var fields := CosignFields(t);
            && Lookup(fields, "issuer") == t.issuer && Lookup(fields, "identity") == t.identity
            && Lookup(fields, "identity_regex") == t.identityRegex
  {
    SignerRecovered(t, "issuer");
    SignerRecovered(t, "identity");
    SignerRecovered(t, "identity_regex");
    SignerLookup(t, "issuer");
    SignerLookup(t, "identity");
    SignerLookup(t, "identity_regex");
    QuotedBack(t.issuer);
    QuotedBack(t.identity);
    QuotedBack(t.identityRegex);
  }

  lemma {:induction false} CosignRecovered(t: RuleCosignPolicy)
    ensures RuleCosignOf(CosignFields(t)) == t
  {
    ModeTexts(t);
    SignerTexts(t);
  }

  lemma {:induction false} OneFieldRecovered(key: string, text: string)
    ensures OrElse(Lookup(Opt(key, Quote(Some(text))), key), "") == text
  {
    LookupFirst(key, Quote(Some(text)));
  }

  lemma {:induction false} StateRecovered(backend: string, path: string)
    ensures var fields := Opt("backend", Quote(Some(backend))) + Opt("path", Quote(Some(path)));
            Lookup(fields, "backend") == Some(backend) && Lookup(fields, "path") == Some(path)
  {
    LookupFirst("backend", Quote(Some(backend)));
    LookupAppend(Opt("backend", Quote(Some(backend))), "path", Quote(Some(path)));
  }

  /** No field is a `match`, so the rule keeps its pattern. */
  lemma {:induction false} NothingRenames(rule: Rule, show: DurationPrinter)
    ensures Lookup(MutableTagFields(rule.mutableTags, show), "match").None?
    ensures Lookup(CosignFields(rule.cosign), "match").None?
  {
    var t := rule.mutableTags;
    LookupThree("action", Quote(t.action), "min_digest_age", ShowDuration(t.minDigestAge, show),
                "allow_first_seen_pull", ShowBool(t.allowFirstSeenPull), "match");
    CosignLookup(rule.cosign, "match");
    ModeLookup(rule.cosign, "match");
    SignerLookup(rule.cosign, "match");
  }

  lemma {:induction false} TwoOverRule(rule: Rule, a: PolicySection, b: PolicySection, durations: DurationParser)
    ensures RuleOverAll(rule, [a, b], durations) == RuleOver(RuleOver(rule, a, durations), b, durations)
  {
    assert [a, b][..1] == [a] && [a][..0] == [];
    assert RuleOverAll(rule, [a], durations) == RuleOver(rule, a, durations);
  }

  lemma {:induction false} RuleRecovered(rule: Rule, show: DurationPrinter, durations: DurationParser)
    requires Inverse(show, durations)
    ensures RuleOf(RuleDocFor(rule, show), durations) == rule
  {
    var tags := TagsSection(MutableTagFields(rule.mutableTags, show));
    var cosign := CosignSection(CosignFields(rule.cosign));
    var named := NO_RULE.(pattern := rule.pattern);
    MutableTagsRecovered(rule.mutableTags, show, durations);
    CosignRecovered(rule.cosign);
    NothingRenames(rule, show);
    TwoOverRule(named, tags, cosign, durations);
    TagsOverNothing(rule.mutableTags, MutableTagFields(rule.mutableTags, show), durations);
    CosignOverNothing(rule.cosign, CosignFields(rule.cosign));
    assert RuleOver(named, tags, durations) == named.(mutableTags := rule.mutableTags);
  }

  lemma {:induction false} TagsOverNothing(t: RuleMutableTagPolicy, fields: seq<Field>, durations: DurationParser)
    requires RuleMutableTagsOf(fields, durations) == t
    ensures TagsOver(NO_RULE.mutableTags, fields, durations) == t
  {
  }

  lemma {:induction false} CosignOverNothing(t: RuleCosignPolicy, fields: seq<Field>)
    requires RuleCosignOf(fields) == t
    ensures CosignOver(NO_RULE.cosign, fields) == t
  {
  }

  lemma {:induction false} RulesOfAppend(docs: seq<RuleDoc>, doc: RuleDoc, durations: DurationParser)
    ensures RulesOf(docs + [doc], durations) == RulesOf(docs, durations) + [RuleOf(doc, durations)]
  {
    assert (docs + [doc])[..|docs|] == docs;
  }

  lemma {:induction false} OneMoreRecovered(docs: seq<RuleDoc>, doc: RuleDoc, rules: seq<Rule>,
                                            durations: DurationParser)
    requires rules != [] && RulesOf(docs, durations) == rules[..|rules| - 1]
    requires RuleOf(doc, durations) == rules[|rules| - 1]
    ensures RulesOf(docs + [doc], durations) == rules
  {
    RulesOfAppend(docs, doc, durations);
  }

  lemma {:induction false} RulesRecovered(rules: seq<Rule>, show: DurationPrinter, durations: DurationParser)
    requires Inverse(show, durations)
    ensures RulesOf(RuleDocsFor(rules, show), durations) == rules
  {
    if rules != [] {
      var n := |rules| - 1;
      RulesRecovered(rules[..n], show, durations);
      RuleRecovered(rules[n], show, durations);
      OneMoreRecovered(RuleDocsFor(rules[..n], show), RuleDocFor(rules[n], show), rules, durations);
    }
  }

  lemma {:induction false} FiveOverPolicy(e: EffectivePolicy, a: PolicySection, b: PolicySection, c: PolicySection,
                                          d: PolicySection, f: PolicySection, durations: DurationParser)
    ensures PolicyOverAll(e, [a, b, c, d, f], durations)
            == PolicyOver(PolicyOver(PolicyOver(PolicyOver(PolicyOver(e, a, durations), b, durations), c, durations), d,
                                     durations), f, durations)
  {
    OneMoreOverPolicy(e, [], a, durations);
    OneMoreOverPolicy(e, [a], b, durations);
    OneMoreOverPolicy(e, [a, b], c, durations);
    OneMoreOverPolicy(e, [a, b, c], d, durations);
    OneMoreOverPolicy(e, [a, b, c, d], f, durations);
    assert [] + [a] == [a] && [a] + [b] == [a, b] && [a, b] + [c] == [a, b, c] && [a, b, c] + [d] == [a, b, c, d];
    assert [a, b, c, d] + [f] == [a, b, c, d, f];
  }

  lemma {:induction false} ActionRecovered(e: EffectivePolicy, kind: ActionKind, action: string,
                                           durations: DurationParser)
    ensures PolicyOver(e, ActionSection(kind, ActionFields(action)), durations) == WithAction(e, kind, action)
  {
    OneFieldRecovered("action", action);
    LookupFirst("action", Quote(Some(action)));
  }

  lemma {:induction false} PolicyRecovered(p: EffectivePolicy, show: DurationPrinter, durations: DurationParser)
    requires Inverse(show, durations)
    ensures PolicyOverAll(NO_POLICY, SectionsFor(p, show), durations) == p
  {
    var s := SectionsFor(p, show);
    FiveOverPolicy(NO_POLICY, s[0], s[1], s[2], s[3], s[4], durations);
    MutableTagsRecovered(AllMutableTags(p.mutableTags), show, durations);
    CosignRecovered(AllCosign(p.cosign));
    var e := NO_POLICY.(mutableTags := p.mutableTags);
    assert PolicyOver(NO_POLICY, s[0], durations) == e;
    ActionRecovered(e, Pinned, p.digestPinnedImages, durations);
    var e1 := WithAction(e, Pinned, p.digestPinnedImages);
    ActionRecovered(e1, Resolution, p.failedRegistryResolution, durations);
    var e2 := WithAction(e1, Resolution, p.failedRegistryResolution);
    ActionRecovered(e2, Signature, p.failedSignatureCheck, durations);
  }

  lemma {:induction false} OneMoreWritten(doc: seq<Part>, part: Part)
    ensures AsWritten(doc + [part]) == Add(AsWritten(doc), false, part)
    ensures OpenAfter(doc + [part]) <==> OpenWith(OpenAfter(doc), part)
    ensures InOrder(doc) && !(part.DefaultPart? && OpenAfter(doc)) ==> InOrder(doc + [part])
  {
    assert (doc + [part])[..|doc|] == doc;
  }

  /** What a document of five parts in the documented order says. */
  lemma {:induction false} FiveParts(field: Field, sections: seq<PolicySection>, rules: seq<RuleDoc>, audit: seq<Field>,
                                     state: seq<Field>)
    ensures var doc := [TopPart(field), DefaultPart(sections), RulesPart(rules), AuditPart(audit), StatePart(state)];
            InOrder(doc) && AsWritten(doc) == Said([field], sections, rules, audit, state)
  {
    var d1 := [TopPart(field)];
    var d2 := d1 + [DefaultPart(sections)];
    var d3 := d2 + [RulesPart(rules)];
    var d4 := d3 + [AuditPart(audit)];
    OneMoreWritten([], TopPart(field));
    OneMoreWritten(d1, DefaultPart(sections));
    OneMoreWritten(d2, RulesPart(rules));
    OneMoreWritten(d3, AuditPart(audit));
    OneMoreWritten(d4, StatePart(state));
    assert [] + [TopPart(field)] == d1;
    assert d4 + [StatePart(state)]
           == [TopPart(field), DefaultPart(sections), RulesPart(rules), AuditPart(audit), StatePart(state)];
  }

  lemma {:induction false} VersionRecovered(version: int)
    requires -MAX_INT64 - 1 <= version <= MAX_INT64
    ensures Lookup([Field("version", Plain(ShowInt(version)))], "version") == Some(ShowInt(version))
    ensures Atoi(ShowInt(version)) == Some(version)
  {
    AtoiOfShowInt(version);
  }

  lemma {:induction false} ConfigRecovered(c: Config, show: DurationPrinter, durations: DurationParser)
    requires Inverse(show, durations) && -MAX_INT64 - 1 <= c.version <= MAX_INT64
    ensures InOrder(DocFor(c, show)) && ConfigOf(AsWritten(DocFor(c, show)), durations) == c
  {
    FiveParts(Field("version", Plain(ShowInt(c.version))), SectionsFor(c.defaultPolicy, show),
              RuleDocsFor(c.rules, show), Opt("path", Quote(Some(c.auditPath))), StateFields(c));
    VersionRecovered(c.version);
    PolicyRecovered(c.defaultPolicy, show, durations);
    RulesRecovered(c.rules, show, durations);
    OneFieldRecovered("path", c.auditPath);
    StateRecovered(c.stateBackend, c.statePath);
  }

  // ---------------------------------------------------------------- what is written is a document

  predicate QuotableText(text: string) {
    ScalarOk(InQuotes(text))
  }

  predicate QuotableOption(text: Option<string>) {
    text.Some? ==> QuotableText(text.value)
  }

  predicate QuotableCosign(t: RuleCosignPolicy) {
    QuotableOption(t.mode) && QuotableOption(t.key) && QuotableOption(t.issuer) && QuotableOption(t.identity)
    && QuotableOption(t.identityRegex)
  }

  predicate QuotableRules(rules: seq<Rule>) {
    rules != [] ==>
      && QuotableRules(rules[..|rules| - 1])
      && var rule := rules[|rules| - 1];
         QuotableText(rule.pattern) && QuotableOption(rule.mutableTags.action) && QuotableCosign(rule.cosign)
  }

  predicate QuotablePolicy(p: EffectivePolicy) {
    && QuotableText(p.mutableTags.action)
    && QuotableText(p.digestPinnedImages)
    && QuotableText(p.failedRegistryResolution)
    && QuotableText(p.failedSignatureCheck)
    && QuotableCosign(AllCosign(p.cosign))
  }

  /** No text in the configuration contains a line end, or quotes of both kinds. */
  predicate Quotable(c: Config) {
    && -MAX_INT64 - 1 <= c.version <= MAX_INT64
    && QuotablePolicy(c.defaultPolicy)
    && QuotableRules(c.rules)
    && QuotableText(c.auditPath) && QuotableText(c.stateBackend) && QuotableText(c.statePath)
  }

  predicate OptOk(key: string, value: Option<Scalar>) {
    Word(key) && (value.Some? ==> ScalarOk(value.value))
  }

  lemma {:induction false} OneFieldOk(key: string, value: Option<Scalar>)
    requires OptOk(key, value)
    ensures FieldsOk(Opt(key, value))
  {
    WordOk(key);
  }

  lemma {:induction false} FieldsOkConcat(a: seq<Field>, b: seq<Field>)
    requires FieldsOk(a) && FieldsOk(b)
    ensures FieldsOk(a + b)
  {
  }

  lemma {:induction false} ThreeFieldsOk(k1: string, v1: Option<Scalar>, k2: string, v2: Option<Scalar>,
                                         k3: string, v3: Option<Scalar>)
    requires OptOk(k1, v1) && OptOk(k2, v2) && OptOk(k3, v3)
    ensures FieldsOk(Opt(k1, v1) + Opt(k2, v2) + Opt(k3, v3))
  {
    OneFieldOk(k1, v1);
    OneFieldOk(k2, v2);
    OneFieldOk(k3, v3);
    FieldsOkConcat(Opt(k1, v1), Opt(k2, v2));
    FieldsOkConcat(Opt(k1, v1) + Opt(k2, v2), Opt(k3, v3));
  }

  lemma {:induction false} BoolIsScalar(b: Option<bool>)
    ensures ShowBool(b).Some? ==> ScalarOk(ShowBool(b).value)
  {
  }

  lemma {:induction false} MutableTagFieldsOk(t: RuleMutableTagPolicy, show: DurationPrinter,
                                              durations: DurationParser)
    requires Inverse(show, durations) && QuotableOption(t.action)
    ensures FieldsOk(MutableTagFields(t, show))
  {
    BoolIsScalar(t.allowFirstSeenPull);
    ThreeFieldsOk("action", Quote(t.action), "min_digest_age", ShowDuration(t.minDigestAge, show),
                  "allow_first_seen_pull", ShowBool(t.allowFirstSeenPull));
  }

  lemma {:induction false} CosignFieldsOk(t: RuleCosignPolicy)
    requires QuotableCosign(t)
    ensures FieldsOk(CosignFields(t))
  {
    BoolIsScalar(t.required);
    ThreeFieldsOk("required", ShowBool(t.required), "mode", Quote(t.mode), "key", Quote(t.key));
    ThreeFieldsOk("issuer", Quote(t.issuer), "identity", Quote(t.identity), "identity_regex", Quote(t.identityRegex));
    FieldsOkConcat(CosignModeFields(t), CosignSignerFields(t));
  }

  lemma {:induction false} MutableTagFieldsTyped(t: RuleMutableTagPolicy, show: DurationPrinter,
                                                 durations: DurationParser)
    requires Inverse(show, durations)
    ensures MutableTagsTyped(MutableTagFields(t, show), durations)
  {
  }

  lemma {:induction false} CosignTypedConcat(a: seq<Field>, b: seq<Field>)
    requires CosignTyped(a) && CosignTyped(b)
    ensures CosignTyped(a + b)
  {
  }

  lemma {:induction false} OptTyped(key: string, value: Option<Scalar>)
    requires key == "required" && value.Some? ==> IsBool(value.value.text)
    ensures CosignTyped(Opt(key, value))
  {
  }

  lemma {:induction false} ModeFieldsTyped(t: RuleCosignPolicy)
    ensures CosignTyped(CosignModeFields(t))
  {
    OptTyped("required", ShowBool(t.required));
    OptTyped("mode", Quote(t.mode));
    OptTyped("key", Quote(t.key));
    CosignTypedConcat(Opt("required", ShowBool(t.required)), Opt("mode", Quote(t.mode)));
    CosignTypedConcat(Opt("required", ShowBool(t.required)) + Opt("mode", Quote(t.mode)), Opt("key", Quote(t.key)));
  }

  lemma {:induction false} SignerFieldsTyped(t: RuleCosignPolicy)
    ensures CosignTyped(CosignSignerFields(t))
  {
    OptTyped("issuer", Quote(t.issuer));
    OptTyped("identity", Quote(t.identity));
    OptTyped("identity_regex", Quote(t.identityRegex));
    CosignTypedConcat(Opt("issuer", Quote(t.issuer)), Opt("identity", Quote(t.identity)));
    CosignTypedConcat(Opt("issuer", Quote(t.issuer)) + Opt("identity", Quote(t.identity)),
                      Opt("identity_regex", Quote(t.identityRegex)));
  }

  lemma {:induction false} CosignFieldsTyped(t: RuleCosignPolicy)
    ensures CosignTyped(CosignFields(t))
  {
    ModeFieldsTyped(t);
    SignerFieldsTyped(t);
    CosignTypedConcat(CosignModeFields(t), CosignSignerFields(t));
  }

  lemma {:induction false} RuleDocOk(rule: Rule, show: DurationPrinter, durations: DurationParser)
    requires Inverse(show, durations) && QuotableText(rule.pattern) && QuotableOption(rule.mutableTags.action)
    requires QuotableCosign(rule.cosign)
    ensures RuleOk(RuleDocFor(rule, show)) && SectionsTyped(RuleDocFor(rule, show).sections, durations)
  {
    MutableTagFieldsOk(rule.mutableTags, show, durations);
    CosignFieldsOk(rule.cosign);
    MutableTagFieldsTyped(rule.mutableTags, show, durations);
    CosignFieldsTyped(rule.cosign);
    AllSectionsTyped(RuleDocFor(rule, show).sections, durations);
  }

  lemma {:induction false} AllSectionsTyped(sections: seq<PolicySection>, durations: DurationParser)
    requires forall i :: 0 <= i < |sections| ==> SectionTyped(sections[i], durations)
    ensures SectionsTyped(sections, durations)
  {
    if sections != [] {
      AllSectionsTyped(sections[..|sections| - 1], durations);
    }
  }

  lemma {:induction false} RuleDocsOk(rules: seq<Rule>, show: DurationPrinter, durations: DurationParser)
    requires Inverse(show, durations) && QuotableRules(rules)
    ensures var docs := RuleDocsFor(rules, show); RulesOk(docs) && RulesTyped(docs, durations)
  {
    if rules != [] {
      var n := |rules| - 1;
      var before, last := RuleDocsFor(rules[..n], show), RuleDocFor(rules[n], show);
      RuleDocsOk(rules[..n], show, durations);
      RuleDocOk(rules[n], show, durations);
      assert (before + [last])[..|before|] == before;
    }
  }

  lemma {:induction false} ActionFieldsOk(action: string)
    requires QuotableText(action)
    ensures FieldsOk(ActionFields(action))
  {
    OneFieldOk("action", Quote(Some(action)));
  }

  lemma {:induction false} SectionsForOk(p: EffectivePolicy, show: DurationPrinter, durations: DurationParser)
    requires Inverse(show, durations) && QuotablePolicy(p)
    ensures SectionsOk(SectionsFor(p, show)) && SectionsTyped(SectionsFor(p, show), durations)
  {
    MutableTagFieldsOk(AllMutableTags(p.mutableTags), show, durations);
    MutableTagFieldsTyped(AllMutableTags(p.mutableTags), show, durations);
    CosignFieldsOk(AllCosign(p.cosign));
    CosignFieldsTyped(AllCosign(p.cosign));
    ActionFieldsOk(p.digestPinnedImages);
    ActionFieldsOk(p.failedRegistryResolution);
    ActionFieldsOk(p.failedSignatureCheck);
    AllSectionsTyped(SectionsFor(p, show), durations);
  }

  lemma {:induction false} PathFieldsOk(c: Config)
    requires QuotableText(c.auditPath) && QuotableText(c.stateBackend) && QuotableText(c.statePath)
    ensures FieldsOk(Opt("path", Quote(Some(c.auditPath)))) && FieldsOk(StateFields(c))
  {
    OneFieldOk("path", Quote(Some(c.auditPath)));
    OneFieldOk("path", Quote(Some(c.statePath)));
    OneFieldOk("backend", Quote(Some(c.stateBackend)));
    FieldsOkConcat(Opt("backend", Quote(Some(c.stateBackend))), Opt("path", Quote(Some(c.statePath))));
  }

  lemma {:induction false} AllPartsTyped(doc: seq<Part>, durations: DurationParser)
    requires forall i :: 0 <= i < |doc| ==> PartTyped(doc[i], durations)
    ensures DocTyped(doc, durations)
  {
    if doc != [] {
      AllPartsTyped(doc[..|doc| - 1], durations);
    }
  }

  lemma {:induction false} VersionPartOk(version: int, durations: DurationParser)
    requires -MAX_INT64 - 1 <= version <= MAX_INT64
    ensures var part := TopPart(Field("version", Plain(ShowInt(version)))); PartOk(part) && PartTyped(part, durations)
  {
    WordOk("version");
    ShowIntIsScalar(version);
    AtoiOfShowInt(version);
  }

  lemma {:induction false} DocForIsWritable(c: Config, show: DurationPrinter, durations: DurationParser)
    requires Inverse(show, durations) && Quotable(c)
    ensures var doc := DocFor(c, show); Writable(doc) && DocTyped(doc, durations)
  {
    var doc := DocFor(c, show);
    VersionPartOk(c.version, durations);
    SectionsForOk(c.defaultPolicy, show, durations);
    RuleDocsOk(c.rules, show, durations);
    PathFieldsOk(c);
    forall i | 0 <= i < |doc| ensures PartOk(doc[i]) && PartTyped(doc[i], durations) {
      assert i == 0 || i == 1 || i == 2 || i == 3 || i == 4;
    }
    AllPartsTyped(doc, durations);
  }

  /**
   Config recovery: any configuration whose texts are free of line ends and do not mix both kinds of quotes, written
   in the documented order with blank lines and comments anywhere, loads as exactly that configuration, or is
   rejected by validation if it is not valid.
   */
  lemma {:induction false} LoadRecoversConfig(lines: seq<string>, c: Config, show: DurationPrinter,
                                              durations: DurationParser)
    requires Inverse(show, durations) && Quotable(c)
    requires Spelled(Significant(lines), DocLines(DocFor(c, show)))
    ensures LoadLines(lines, durations) == if Validate(c).None? then Ok(c) else Err(Invalid(Validate(c).value))
  {
    DocForIsWritable(c, show, durations);
    ConfigRecovered(c, show, durations);
    OrderedFileIsRead(lines, DocFor(c, show), durations);
  }
}
