/** Policy files section by section, and the proof that the parser reads each of them as it says. */
module PolicyLayout {
  import opened Prelude
  import opened Policy
  import opened PolicyLexer
  import opened PolicyLines
  import opened PolicyParser

  // ---------------------------------------------------------------- documents

  datatype Field = Field(key: string, value: Scalar)

  /** The three kinds of section that hold nothing but an action. */
  datatype ActionKind = Pinned | Resolution | Signature

  datatype PolicySection =
    | TagsSection(fields: seq<Field>)
    | ActionSection(kind: ActionKind, fields: seq<Field>)
    | CosignSection(fields: seq<Field>)

  datatype RuleDoc = RuleDoc(pattern: Scalar, sections: seq<PolicySection>)

  /** One top-level part of a policy file: a `key: value` line, or a section with what belongs to it. */
  datatype Part =
    | TopPart(field: Field)
    | DefaultPart(sections: seq<PolicySection>)
    | RulesPart(rules: seq<RuleDoc>)
    | AuditPart(fields: seq<Field>)
    | StatePart(fields: seq<Field>)

  function Pairs(indent: nat, fields: seq<Field>): seq<Line> {
    if fields == [] then []
    else
      var n := |fields| - 1;
      Pairs(indent, fields[..n]) + [PairLine(indent, fields[n].key, fields[n].value)]
  }

  function Block(indent: nat, header: string, fields: seq<Field>): seq<Line> {
    [HeaderLine(indent, header)] + Pairs(indent + 2, fields)
  }

  function HeaderOf(kind: ActionKind): string {
    match kind
    case Pinned => "digest_pinned_images"
    case Resolution => "failed_registry_resolution"
    case Signature => "failed_signature_check"
  }

  function SectionLines(indent: nat, s: PolicySection): seq<Line> {
    match s
    case TagsSection(fields) => Block(indent, "mutable_tags", fields)
    case ActionSection(kind, fields) => Block(indent, HeaderOf(kind), fields)
    case CosignSection(fields) => [HeaderLine(indent, "signatures")] + Block(indent + 2, "cosign", fields)
  }

  function SectionsLines(indent: nat, sections: seq<PolicySection>): seq<Line> {
    if sections == [] then []
    else
      var n := |sections| - 1;
      SectionsLines(indent, sections[..n]) + SectionLines(indent, sections[n])
  }

  function RuleLines(rule: RuleDoc): seq<Line> {
    [ItemLine(2, "match", rule.pattern)] + SectionsLines(4, rule.sections)
  }

  function RulesLines(rules: seq<RuleDoc>): seq<Line> {
    if rules == [] then [] else RulesLines(rules[..|rules| - 1]) + RuleLines(rules[|rules| - 1])
  }

  function PartLines(part: Part): seq<Line> {
    match part
    case TopPart(field) => [PairLine(0, field.key, field.value)]
    case DefaultPart(sections) => [HeaderLine(0, "default_policy")] + SectionsLines(2, sections)
    case RulesPart(rules) => [HeaderLine(0, "rules")] + RulesLines(rules)
    case AuditPart(fields) => Block(0, "audit", fields)
    case StatePart(fields) => Block(0, "state", fields)
  }

  function DocLines(doc: seq<Part>): seq<Line> {
    if doc == [] then [] else DocLines(doc[..|doc| - 1]) + PartLines(doc[|doc| - 1])
  }

  // ---------------------------------------------------------------- what sections and rules say

  /** The value of the last field with that key. */
  function Lookup(fields: seq<Field>, key: string): Option<string> {
    if fields == [] then None
    else if fields[|fields| - 1].key == key then Some(fields[|fields| - 1].value.text)
    else Lookup(fields[..|fields| - 1], key)
  }

  function BoolOf(text: string): bool {
    text == "true"
  }

  function LookupBool(fields: seq<Field>, key: string): Option<bool> {
    var text := Lookup(fields, key);
    if text.Some? then Some(BoolOf(text.value)) else None
  }

  function LookupDuration(fields: seq<Field>, key: string, durations: DurationParser): Option<Duration> {
    var text := Lookup(fields, key);
    if text.Some? then durations(text.value) else None
  }

  function RuleMutableTagsOf(fields: seq<Field>, durations: DurationParser): RuleMutableTagPolicy {
    RuleMutableTagPolicy(Lookup(fields, "action"), LookupDuration(fields, "min_digest_age", durations),
                         LookupBool(fields, "allow_first_seen_pull"))
  }

  function RuleCosignOf(fields: seq<Field>): RuleCosignPolicy {
    RuleCosignPolicy(LookupBool(fields, "required"), Lookup(fields, "mode"), Lookup(fields, "key"),
                     Lookup(fields, "issuer"), Lookup(fields, "identity"), Lookup(fields, "identity_regex"))
  }

  function Newer<T>(a: Option<T>, b: Option<T>): Option<T> {
    if a.Some? then a else b
  }

  function TagsOver(t: RuleMutableTagPolicy, fields: seq<Field>, durations: DurationParser): RuleMutableTagPolicy {
    var f := RuleMutableTagsOf(fields, durations);
    RuleMutableTagPolicy(Newer(f.action, t.action), Newer(f.minDigestAge, t.minDigestAge),
                         Newer(f.allowFirstSeenPull, t.allowFirstSeenPull))
  }

  function CosignOver(t: RuleCosignPolicy, fields: seq<Field>): RuleCosignPolicy {
    var f := RuleCosignOf(fields);
    RuleCosignPolicy(Newer(f.required, t.required), Newer(f.mode, t.mode), Newer(f.key, t.key),
                     Newer(f.issuer, t.issuer), Newer(f.identity, t.identity), Newer(f.identityRegex, t.identityRegex))
  }

  /**
   A rule with what a section says on top of it. A `match` in a section renames the rule; the actions of the
   three other kinds of section mean nothing to a rule.
   */
  function RuleOver(rule: Rule, s: PolicySection, durations: DurationParser): Rule {
    var named := rule.(pattern := OrElse(Lookup(s.fields, "match"), rule.pattern));
    match s
    case TagsSection(fields) => named.(mutableTags := TagsOver(rule.mutableTags, fields, durations))
    case ActionSection(_, _) => named
    case CosignSection(fields) => named.(cosign := CosignOver(rule.cosign, fields))
  }

  function RuleOverAll(rule: Rule, sections: seq<PolicySection>, durations: DurationParser): Rule {
    if sections == [] then rule
    else
      var n := |sections| - 1;
      RuleOver(RuleOverAll(rule, sections[..n], durations), sections[n], durations)
  }

  function RuleOf(rule: RuleDoc, durations: DurationParser): Rule {
    RuleOverAll(NO_RULE.(pattern := rule.pattern.text), rule.sections, durations)
  }

  function RulesOf(rules: seq<RuleDoc>, durations: DurationParser): seq<Rule> {
    if rules == [] then []
    else RulesOf(rules[..|rules| - 1], durations) + [RuleOf(rules[|rules| - 1], durations)]
  }

  function WithAction(e: EffectivePolicy, kind: ActionKind, action: string): EffectivePolicy {
    match kind
    case Pinned => e.(digestPinnedImages := action)
    case Resolution => e.(failedRegistryResolution := action)
    case Signature => e.(failedSignatureCheck := action)
  }

  function ActionIn(e: EffectivePolicy, kind: ActionKind): string {
    match kind
    case Pinned => e.digestPinnedImages
    case Resolution => e.failedRegistryResolution
    case Signature => e.failedSignatureCheck
  }

  function DefaultTagsOver(t: MutableTagPolicy, fields: seq<Field>, durations: DurationParser): MutableTagPolicy {
    var f := RuleMutableTagsOf(fields, durations);
    MutableTagPolicy(OrElse(f.action, t.action), OrElse(f.minDigestAge, t.minDigestAge),
                     OrElse(f.allowFirstSeenPull, t.allowFirstSeenPull))
  }

  /** The default policy with what a section says on top of it. */
  function PolicyOver(e: EffectivePolicy, s: PolicySection, durations: DurationParser): EffectivePolicy {
    match s
    case TagsSection(fields) => e.(mutableTags := DefaultTagsOver(e.mutableTags, fields, durations))
    case ActionSection(kind, fields) => WithAction(e, kind, OrElse(Lookup(fields, "action"), ActionIn(e, kind)))
    case CosignSection(fields) => e.(cosign := EffectiveCosign(RuleCosignOf(fields), e.cosign))
  }

  function PolicyOverAll(e: EffectivePolicy, sections: seq<PolicySection>, durations: DurationParser): EffectivePolicy {
    if sections == [] then e
    else
      var n := |sections| - 1;
      PolicyOver(PolicyOverAll(e, sections[..n], durations), sections[n], durations)
  }

  // ---------------------------------------------------------------- what documents say

  /** What a document says, part by part, whatever their order in the file. */
  datatype Said = Said(
    top: seq<Field>,
    policy: seq<PolicySection>,
    rules: seq<RuleDoc>,
    audit: seq<Field>,
    state: seq<Field>)

  const NOTHING := Said([], [], [], [], [])

  function ConfigOf(said: Said, durations: DurationParser): Config {
    var version := Lookup(said.top, "version");
    Config(
      if version.Some? then OrElse(Atoi(version.value), 0) else 0,
      PolicyOverAll(NO_POLICY, said.policy, durations),
      RulesOf(said.rules, durations),
      OrElse(Lookup(said.audit, "path"), ""),
      OrElse(Lookup(said.state, "backend"), ""),
      OrElse(Lookup(said.state, "path"), ""))
  }

  function AddToLastRule(said: Said, sections: seq<PolicySection>): Said
    requires said.rules != []
  {
    var n := |said.rules| - 1;
    said.(rules := said.rules[n := said.rules[n].(sections := said.rules[n].sections + sections)])
  }

  /** One part more. With `open`, a default policy is taken for more of the last rule. */
  function Add(said: Said, open: bool, part: Part): Said {
    match part
    case TopPart(field) => said.(top := said.top + [field])
    case DefaultPart(sections) =>
      if open && said.rules != [] then AddToLastRule(said, sections)
      else said.(policy := said.policy + sections)
    case RulesPart(rules) => said.(rules := said.rules + rules)
    case AuditPart(fields) => said.(audit := said.audit + fields)
    case StatePart(fields) => said.(state := said.state + fields)
  }

  /** A rule has been opened since the last top-level `key: value` line. */
  predicate OpenAfter(doc: seq<Part>) {
    doc != [] &&
      match doc[|doc| - 1]
      case TopPart(_) => false
      case RulesPart(rules) => rules != [] || OpenAfter(doc[..|doc| - 1])
      case _ => OpenAfter(doc[..|doc| - 1])
  }

  /** What the author wrote: every part where it belongs. */
  function AsWritten(doc: seq<Part>): Said {
    if doc == [] then NOTHING else Add(AsWritten(doc[..|doc| - 1]), false, doc[|doc| - 1])
  }

  /** What the parser makes of it. */
  function AsRead(doc: seq<Part>): Said {
    if doc == [] then NOTHING
    else Add(AsRead(doc[..|doc| - 1]), OpenAfter(doc[..|doc| - 1]), doc[|doc| - 1])
  }

  /** No section of the default policy stands where a rule is open. */
  predicate InOrder(doc: seq<Part>) {
    doc != [] ==>
      && InOrder(doc[..|doc| - 1])
      && (doc[|doc| - 1].DefaultPart? && doc[|doc| - 1].sections != [] ==> !OpenAfter(doc[..|doc| - 1]))
  }

  // ---------------------------------------------------------------- typed values

  predicate IsBool(text: string) {
    text == "true" || text == "false"
  }

  predicate MutableTagTyped(f: Field, durations: DurationParser) {
    && (f.key == "min_digest_age" ==> durations(f.value.text).Some?)
    && (f.key == "allow_first_seen_pull" ==> IsBool(f.value.text))
  }

  predicate CosignFieldTyped(f: Field) {
    f.key == "required" ==> IsBool(f.value.text)
  }

  /** Every duration parses and every boolean is `true` or `false`. */
  predicate MutableTagsTyped(fields: seq<Field>, durations: DurationParser) {
    forall i :: 0 <= i < |fields| ==> MutableTagTyped(fields[i], durations)
  }

  predicate CosignTyped(fields: seq<Field>) {
    forall i :: 0 <= i < |fields| ==> CosignFieldTyped(fields[i])
  }

  predicate SectionTyped(s: PolicySection, durations: DurationParser) {
    match s
    case TagsSection(fields) => MutableTagsTyped(fields, durations)
    case ActionSection(_, _) => true
    case CosignSection(fields) => CosignTyped(fields)
  }

  predicate SectionsTyped(sections: seq<PolicySection>, durations: DurationParser) {
    sections != [] ==>
      SectionsTyped(sections[..|sections| - 1], durations) && SectionTyped(sections[|sections| - 1], durations)
  }

  predicate RulesTyped(rules: seq<RuleDoc>, durations: DurationParser) {
    rules != [] ==>
      RulesTyped(rules[..|rules| - 1], durations) && SectionsTyped(rules[|rules| - 1].sections, durations)
  }

  predicate PartTyped(part: Part, durations: DurationParser) {
    match part
    case TopPart(field) => field.key == "version" ==> Atoi(field.value.text).Some?
    case DefaultPart(sections) => SectionsTyped(sections, durations)
    case RulesPart(rules) => RulesTyped(rules, durations)
    case AuditPart(_) => true
    case StatePart(_) => true
  }

  predicate DocTyped(doc: seq<Part>, durations: DurationParser) {
    doc != [] ==> DocTyped(doc[..|doc| - 1], durations) && PartTyped(doc[|doc| - 1], durations)
  }

  predicate PatternsOk(rules: seq<RuleDoc>) {
    forall i :: 0 <= i < |rules| ==> ScalarOk(rules[i].pattern)
  }

  /** The patterns of all rules can be written as values. */
  predicate DocOk(doc: seq<Part>) {
    forall i :: 0 <= i < |doc| && doc[i].RulesPart? ==> PatternsOk(doc[i].rules)
  }

  // ---------------------------------------------------------------- feeding lines

  function Tokens(lines: seq<Line>): seq<Token> {
    if lines == [] then [] else Tokens(lines[..|lines| - 1]) + [TokenOf(lines[|lines| - 1])]
  }

  /** The parser after some lines, if it got that far. */
  type Progress = r: Result<Parser, ParseError> | r.Ok? ==> InRange(r.value) witness Err(EmptyKey)

  function Reading(r: Progress, lines: seq<Line>, durations: DurationParser): (r': Progress)
    ensures r.Err? ==> r' == r
    decreases |lines|
  {
    if lines == [] then r
    else
      match Reading(r, lines[..|lines| - 1], durations)
      case Err(e) => Err(e)
      case Ok(p) =>
        TakeInRange(p, TokenOf(lines[|lines| - 1]), durations);
        Take(p, TokenOf(lines[|lines| - 1]), durations)
  }

  lemma {:induction false} ReadingIsFeeding(p: Parser, lines: seq<Line>, durations: DurationParser)
    requires InRange(p)
    ensures Reading(Ok(p), lines, durations) == Feed(p, Tokens(lines), durations)
    decreases |lines|
  {
    if lines != [] {
      ReadingIsFeeding(p, lines[..|lines| - 1], durations);
      assert Tokens(lines)[..|Tokens(lines)| - 1] == Tokens(lines[..|lines| - 1]);
    }
  }

  lemma {:induction false} ReadingConcat(r: Progress, a: seq<Line>, b: seq<Line>, durations: DurationParser)
    ensures Reading(r, a + b, durations) == Reading(Reading(r, a, durations), b, durations)
    decreases |b|
  {
    if b == [] {
      assert a + b == a;
    } else {
      var n := |b| - 1;
      assert (a + b)[..|a + b| - 1] == a + b[..n];
      ReadingConcat(r, a, b[..n], durations);
    }
  }

  lemma {:induction false} ReadingOne(p: Parser, line: Line, durations: DurationParser)
    requires InRange(p)
    ensures Reading(Ok(p), [line], durations) == Take(p, TokenOf(line), durations)
  {
    var lines := [line];
    assert lines[..0] == [];
    assert Reading(Ok(p), lines[..0], durations) == Ok(p);
  }

  // ---------------------------------------------------------------- one field after the others

  function WithoutLast(s: PolicySection): PolicySection
    requires s.fields != []
  {
    s.(fields := s.fields[..|s.fields| - 1])
  }

  predicate FieldTyped(s: PolicySection, f: Field, durations: DurationParser) {
    match s
    case TagsSection(_) => MutableTagTyped(f, durations)
    case ActionSection(_, _) => true
    case CosignSection(_) => CosignFieldTyped(f)
  }

  lemma {:induction false} TypedLast(s: PolicySection, durations: DurationParser)
    requires s.fields != []
    ensures SectionTyped(s, durations)
            <==> SectionTyped(WithoutLast(s), durations) && FieldTyped(s, s.fields[|s.fields| - 1], durations)
  {
  }

  lemma {:induction false} RuleTagsStep(t: RuleMutableTagPolicy, fields: seq<Field>, durations: DurationParser)
    requires fields != []
    ensures var n := |fields| - 1;
            SetRuleMutableTags(TagsOver(t, fields[..n], durations), fields[n].key, fields[n].value.text, durations)
            == (if !MutableTagTyped(fields[n], durations) then
                  Err(if fields[n].key == "min_digest_age" then BadDuration else BadBool)
                else Ok(TagsOver(t, fields, durations)))
  {
  }

  lemma {:induction false} DefaultTagsStep(t: MutableTagPolicy, fields: seq<Field>, durations: DurationParser)
    requires fields != []
    ensures var n := |fields| - 1;
            SetMutableTags(DefaultTagsOver(t, fields[..n], durations), fields[n].key, fields[n].value.text, durations)
            == (if !MutableTagTyped(fields[n], durations) then
                  Err(if fields[n].key == "min_digest_age" then BadDuration else BadBool)
                else Ok(DefaultTagsOver(t, fields, durations)))
  {
  }

  lemma {:induction false} RuleCosignStep(t: RuleCosignPolicy, fields: seq<Field>)
    requires fields != []
    ensures var n := |fields| - 1;
            SetRuleCosign(CosignOver(t, fields[..n]), fields[n].key, fields[n].value.text)
            == (if !CosignFieldTyped(fields[n]) then Err(BadBool) else Ok(CosignOver(t, fields)))
  {
  }

  lemma {:induction false} CosignStep(t: CosignPolicy, fields: seq<Field>)
    requires fields != []
    ensures var n := |fields| - 1;
            SetCosign(EffectiveCosign(RuleCosignOf(fields[..n]), t), fields[n].key, fields[n].value.text)
            == (if !CosignFieldTyped(fields[n]) then Err(BadBool) else Ok(EffectiveCosign(RuleCosignOf(fields), t)))
  {
  }

  /** Nothing else has the key `match`. */
  lemma {:induction false} MatchStep(s: PolicySection, rule: Rule, durations: DurationParser)
    requires s.fields != [] && s.fields[|s.fields| - 1].key == "match"
    ensures RuleOver(rule, s, durations)
            == RuleOver(rule, WithoutLast(s), durations).(pattern := s.fields[|s.fields| - 1].value.text)
  {
  }

  /** The paths lead into that section. */
  predicate LeadsTo(paths: map<int, string>, indent: int, s: PolicySection) {
    match s
    case TagsSection(_) => PathAt(paths, indent - 2) == "mutable_tags"
    case ActionSection(kind, _) => PathAt(paths, indent - 2) == HeaderOf(kind)
    case CosignSection(_) => PathAt(paths, indent - 4) == "signatures" && PathAt(paths, indent - 2) == "cosign"
  }

  lemma {:induction false} RuleFieldStep(rule: Rule, paths: map<int, string>, indent: int, s: PolicySection,
                                         durations: DurationParser)
    requires s.fields != [] && LeadsTo(paths, indent, s)
    ensures var f := s.fields[|s.fields| - 1];
            var r := SetRuleField(RuleOver(rule, WithoutLast(s), durations), paths, indent, f.key, f.value.text,
                                  durations);
            if FieldTyped(s, f, durations) then r == Ok(RuleOver(rule, s, durations)) else r.Err?
  {
    if s.fields[|s.fields| - 1].key == "match" {
      MatchStep(s, rule, durations);
    } else {
      match s
      case TagsSection(fields) => RuleTagsStep(rule.mutableTags, fields, durations);
      case ActionSection(_, _) =>
      case CosignSection(fields) => RuleCosignStep(rule.cosign, fields);
    }
  }

  predicate DefaultLeadsTo(paths: map<int, string>, s: PolicySection) {
    match s
    case TagsSection(_) => PathAt(paths, 2) == "mutable_tags"
    case ActionSection(kind, _) => PathAt(paths, 2) == HeaderOf(kind)
    case CosignSection(_) => PathAt(paths, 2) == "signatures" && PathAt(paths, 4) == "cosign"
  }

  lemma {:induction false} ActionStep(e: EffectivePolicy, paths: map<int, string>, kind: ActionKind, fields: seq<Field>,
                                      durations: DurationParser)
    requires fields != [] && PathAt(paths, 2) == HeaderOf(kind)
    ensures var n := |fields| - 1;
            SetDefaultPolicy(PolicyOver(e, ActionSection(kind, fields[..n]), durations), paths, fields[n].key,
                             fields[n].value.text, durations)
            == Ok(PolicyOver(e, ActionSection(kind, fields), durations))
  {
  }

  lemma {:induction false} DefaultFieldStep(e: EffectivePolicy, paths: map<int, string>, s: PolicySection,
                                            durations: DurationParser)
    requires s.fields != [] && DefaultLeadsTo(paths, s)
    ensures var f := s.fields[|s.fields| - 1];
            var r := SetDefaultPolicy(PolicyOver(e, WithoutLast(s), durations), paths, f.key, f.value.text, durations);
            if FieldTyped(s, f, durations) then r == Ok(PolicyOver(e, s, durations)) else r.Err?
  {
    match s
    case TagsSection(fields) => DefaultTagsStep(e.mutableTags, fields, durations);
    case ActionSection(kind, fields) => ActionStep(e, paths, kind, fields, durations);
    case CosignSection(fields) => CosignStep(e.cosign, fields);
  }

  // ---------------------------------------------------------------- all fields of one section

  predicate Below(paths: map<int, string>, indent: int) {
    forall k :: k in paths ==> k < indent
  }

  lemma {:induction false} TakeEntry(p: Parser, indent: nat, key: string, value: string, durations: DurationParser)
    requires InRange(p) && Below(p.paths, indent) && indent > 0
    ensures Take(p, Entry(indent, key, value), durations) == SetValue(p, indent, key, value, durations)
  {
    assert ClearDeeper(p.paths, indent) == p.paths;
  }

  function CurrentRule(p: Parser): Rule
    requires 0 <= p.currentRule < |p.config.rules|
  {
    p.config.rules[p.currentRule]
  }

  lemma {:induction false} LastField(indent: nat, fields: seq<Field>, r: Progress, durations: DurationParser)
    requires fields != []
    ensures var n := |fields| - 1;
            Reading(r, Pairs(indent, fields), durations)
            == match Reading(r, Pairs(indent, fields[..n]), durations)
               case Err(e) => Err(e)
               case Ok(p) => Take(p, Entry(indent, fields[n].key, fields[n].value.text), durations)
  {
    var n := |fields| - 1;
    var lines := Pairs(indent, fields);
    assert lines[..|lines| - 1] == Pairs(indent, fields[..n]);
  }

  lemma {:induction false} WithRuleAgain(p: Parser, a: Rule, b: Rule)
    requires 0 <= p.currentRule < |p.config.rules|
    ensures WithRule(WithRule(p, a), b) == WithRule(p, b)
    ensures CurrentRule(WithRule(p, a)) == a
    ensures WithRule(p, CurrentRule(p)) == p
  {
    var rules, i := p.config.rules, p.currentRule;
    assert rules[i := a][i := b] == rules[i := b];
    assert rules[i := rules[i]] == rules;
  }

  lemma {:induction false} NoFieldsOverRule(rule: Rule, s: PolicySection, durations: DurationParser)
    requires s.fields == []
    ensures RuleOver(rule, s, durations) == rule && SectionTyped(s, durations)
  {
  }

  /** The last field, after the others have been read into the open rule. */
  lemma {:induction false} RuleFieldTaken(p: Parser, indent: nat, s: PolicySection, durations: DurationParser)
    requires indent > 2 && 0 <= p.currentRule < |p.config.rules| && s.fields != []
    requires Below(p.paths, indent) && LeadsTo(p.paths, indent, s)
    ensures var f := s.fields[|s.fields| - 1];
            var q := WithRule(p, RuleOver(CurrentRule(p), WithoutLast(s), durations));
            var r := Take(q, Entry(indent, f.key, f.value.text), durations);
            if FieldTyped(s, f, durations) then r == Ok(WithRule(p, RuleOver(CurrentRule(p), s, durations))) else r.Err?
  {
    var f, before := s.fields[|s.fields| - 1], RuleOver(CurrentRule(p), WithoutLast(s), durations);
    TakeEntry(WithRule(p, before), indent, f.key, f.value.text, durations);
    RuleFieldStep(CurrentRule(p), p.paths, indent, s, durations);
    WithRuleAgain(p, before, RuleOver(CurrentRule(p), s, durations));
  }

  /** The fields of a section, where a rule is open, are read into that rule. */
  lemma {:induction false} RuleFieldsRead(p: Parser, indent: nat, s: PolicySection, durations: DurationParser)
    requires indent > 2 && 0 <= p.currentRule < |p.config.rules|
    requires Below(p.paths, indent) && LeadsTo(p.paths, indent, s)
    ensures var r := Reading(Ok(p), Pairs(indent, s.fields), durations);
            if SectionTyped(s, durations) then r == Ok(WithRule(p, RuleOver(CurrentRule(p), s, durations))) else r.Err?
    decreases |s.fields|
  {
    if s.fields == [] {
      NoFieldsOverRule(CurrentRule(p), s, durations);
      WithRuleAgain(p, CurrentRule(p), CurrentRule(p));
    } else {
      var before := WithoutLast(s);
      LastField(indent, s.fields, Ok(p), durations);
      TypedLast(s, durations);
      RuleFieldsRead(p, indent, before, durations);
      if SectionTyped(before, durations) {
        RuleFieldTaken(p, indent, s, durations);
      }
    }
  }

  lemma {:induction false} NoFieldsOverPolicy(e: EffectivePolicy, s: PolicySection, durations: DurationParser)
    requires s.fields == []
    ensures PolicyOver(e, s, durations) == e && SectionTyped(s, durations)
  {
  }

  lemma {:induction false} TakeInDefault(p: Parser, indent: nat, key: string, value: string, durations: DurationParser)
    requires indent > 0 && p.currentRule == -1 && Below(p.paths, indent) && PathAt(p.paths, 0) == "default_policy"
    ensures var e := SetDefaultPolicy(p.config.defaultPolicy, p.paths, key, value, durations);
            Take(p, Entry(indent, key, value), durations) == if e.Err? then Err(e.error) else Ok(WithPolicy(p, e.value))
  {
    TakeEntry(p, indent, key, value, durations);
  }

  /** The fields of a section of the default policy, where no rule is open. */
  lemma {:induction false} DefaultFieldsRead(p: Parser, indent: nat, s: PolicySection, durations: DurationParser)
    requires indent > 0 && p.currentRule == -1 && Below(p.paths, indent) && PathAt(p.paths, 0) == "default_policy"
    requires DefaultLeadsTo(p.paths, s)
    ensures var r := Reading(Ok(p), Pairs(indent, s.fields), durations);
            if SectionTyped(s, durations) then r == Ok(WithPolicy(p, PolicyOver(p.config.defaultPolicy, s, durations)))
            else r.Err?
    decreases |s.fields|
  {
    if s.fields == [] {
      NoFieldsOverPolicy(p.config.defaultPolicy, s, durations);
    } else {
      var before, f := WithoutLast(s), s.fields[|s.fields| - 1];
      LastField(indent, s.fields, Ok(p), durations);
      TypedLast(s, durations);
      DefaultFieldsRead(p, indent, before, durations);
      if SectionTyped(before, durations) {
        var q := WithPolicy(p, PolicyOver(p.config.defaultPolicy, before, durations));
        TakeInDefault(q, indent, f.key, f.value.text, durations);
        DefaultFieldStep(p.config.defaultPolicy, p.paths, s, durations);
      }
    }
  }

  // ---------------------------------------------------------------- audit and state

  predicate InTopSection(p: Parser, section: string) {
    InRange(p) && PathAt(p.paths, 0) == section && Below(p.paths, 2) && section != "default_policy"
  }

  lemma {:induction false} TakeInTop(p: Parser, section: string, key: string, value: string, durations: DurationParser)
    requires InTopSection(p, section)
    ensures Take(p, Entry(2, key, value), durations) == Ok(p.(config := SetPath(p.config, section, key, value)))
  {
    TakeEntry(p, 2, key, value, durations);
  }

  lemma {:induction false} AuditRead(p: Parser, fields: seq<Field>, durations: DurationParser)
    requires InTopSection(p, "audit")
    ensures Reading(Ok(p), Pairs(2, fields), durations)
            == Ok(p.(config := p.config.(auditPath := OrElse(Lookup(fields, "path"), p.config.auditPath))))
  {
    if fields != [] {
      var n := |fields| - 1;
      LastField(2, fields, Ok(p), durations);
      AuditRead(p, fields[..n], durations);
      var q := Reading(Ok(p), Pairs(2, fields[..n]), durations).value;
      TakeInTop(q, "audit", fields[n].key, fields[n].value.text, durations);
    }
  }

  lemma {:induction false} StateRead(p: Parser, fields: seq<Field>, durations: DurationParser)
    requires InTopSection(p, "state")
    ensures Reading(Ok(p), Pairs(2, fields), durations)
            == Ok(p.(config := p.config.(stateBackend := OrElse(Lookup(fields, "backend"), p.config.stateBackend),
                                         statePath := OrElse(Lookup(fields, "path"), p.config.statePath))))
  {
    if fields != [] {
      var n := |fields| - 1;
      LastField(2, fields, Ok(p), durations);
      StateRead(p, fields[..n], durations);
      var q := Reading(Ok(p), Pairs(2, fields[..n]), durations).value;
      TakeInTop(q, "state", fields[n].key, fields[n].value.text, durations);
    }
  }

  // ---------------------------------------------------------------- sections

  function AtHeader(p: Parser, indent: nat, header: string): Parser {
    p.(paths := ClearDeeper(p.paths, indent)[indent := header])
  }

  lemma {:induction false} HeaderRead(p: Parser, indent: nat, header: string, rest: seq<Line>,
                                      durations: DurationParser)
    requires InRange(p)
    ensures Reading(Ok(p), [HeaderLine(indent, header)] + rest, durations)
            == Reading(Ok(AtHeader(p, indent, header)), rest, durations)
  {
    ReadingConcat(Ok(p), [HeaderLine(indent, header)], rest, durations);
    ReadingOne(p, HeaderLine(indent, header), durations);
  }

  /** The parser stands there, with that much of the configuration read and that rule open (-1 for none). */
  predicate At(r: Progress, config: Config, rule: int, top: string) {
    r.Ok? && r.value.config == config && r.value.currentRule == rule && PathAt(r.value.paths, 0) == top
  }

  /** Behind the headers of a section. */
  function InSection(p: Parser, indent: nat, s: PolicySection): Parser {
    match s
    case TagsSection(_) => AtHeader(p, indent, "mutable_tags")
    case ActionSection(kind, _) => AtHeader(p, indent, HeaderOf(kind))
    case CosignSection(_) => AtHeader(AtHeader(p, indent, "signatures"), indent + 2, "cosign")
  }

  function FieldsIndent(indent: nat, s: PolicySection): nat {
    if s.CosignSection? then indent + 4 else indent + 2
  }

  lemma {:induction false} HeadersRead(p: Parser, indent: nat, s: PolicySection, durations: DurationParser)
    requires InRange(p)
    ensures Reading(Ok(p), SectionLines(indent, s), durations)
            == Reading(Ok(InSection(p, indent, s)), Pairs(FieldsIndent(indent, s), s.fields), durations)
  {
    match s
    case TagsSection(fields) => HeaderRead(p, indent, "mutable_tags", Pairs(indent + 2, fields), durations);
    case ActionSection(kind, fields) => HeaderRead(p, indent, HeaderOf(kind), Pairs(indent + 2, fields), durations);
    case CosignSection(fields) =>
      HeaderRead(p, indent, "signatures", Block(indent + 2, "cosign", fields), durations);
      HeaderRead(AtHeader(p, indent, "signatures"), indent + 2, "cosign", Pairs(indent + 4, fields), durations);
  }

  lemma {:induction false} SectionPaths(p: Parser, indent: nat, s: PolicySection)
    requires indent >= 2
    ensures var q := InSection(p, indent, s);
            && Below(q.paths, FieldsIndent(indent, s)) && LeadsTo(q.paths, FieldsIndent(indent, s), s)
            && PathAt(q.paths, 0) == PathAt(p.paths, 0) && (indent == 2 ==> DefaultLeadsTo(q.paths, s))
            && q.config == p.config && q.currentRule == p.currentRule
  {
  }

  /** Where a rule is open, every section at indentation 2 or more goes into that rule. */
  lemma {:induction false} RuleSectionRead(r: Progress, config: Config, k: nat, top: string, indent: nat,
                                           s: PolicySection, durations: DurationParser)
    requires At(r, config, k, top) && k < |config.rules| && indent >= 2
    ensures var r' := Reading(r, SectionLines(indent, s), durations);
            if SectionTyped(s, durations) then
              At(r', config.(rules := config.rules[k := RuleOver(config.rules[k], s, durations)]), k, top)
            else r'.Err?
  {
    HeadersRead(r.value, indent, s, durations);
    SectionPaths(r.value, indent, s);
    RuleFieldsRead(InSection(r.value, indent, s), FieldsIndent(indent, s), s, durations);
  }

  lemma {:induction false} DefaultSectionRead(r: Progress, config: Config, s: PolicySection, durations: DurationParser)
    requires At(r, config, -1, "default_policy")
    ensures var r' := Reading(r, SectionLines(2, s), durations);
            if SectionTyped(s, durations) then
              At(r', config.(defaultPolicy := PolicyOver(config.defaultPolicy, s, durations)), -1, "default_policy")
            else r'.Err?
  {
    HeadersRead(r.value, 2, s, durations);
    SectionPaths(r.value, 2, s);
    DefaultFieldsRead(InSection(r.value, 2, s), FieldsIndent(2, s), s, durations);
  }

  lemma {:induction false} RuleSectionsRead(r: Progress, config: Config, k: nat, top: string, indent: nat,
                                            sections: seq<PolicySection>, durations: DurationParser)
    requires At(r, config, k, top) && k < |config.rules| && indent >= 2
    ensures var r' := Reading(r, SectionsLines(indent, sections), durations);
            if SectionsTyped(sections, durations) then
              At(r', config.(rules := config.rules[k := RuleOverAll(config.rules[k], sections, durations)]), k, top)
            else r'.Err?
  {
    if sections == [] {
      assert config.rules[k := config.rules[k]] == config.rules;
    } else {
      var n := |sections| - 1;
      ReadingConcat(r, SectionsLines(indent, sections[..n]), SectionLines(indent, sections[n]), durations);
      RuleSectionsRead(r, config, k, top, indent, sections[..n], durations);
      if SectionsTyped(sections[..n], durations) {
        var rule := RuleOverAll(config.rules[k], sections[..n], durations);
        var between := config.(rules := config.rules[k := rule]);
        RuleSectionRead(Reading(r, SectionsLines(indent, sections[..n]), durations), between, k, top, indent,
                        sections[n], durations);
        assert config.rules[k := rule][k := RuleOver(rule, sections[n], durations)]
               == config.rules[k := RuleOver(rule, sections[n], durations)];
      }
    }
  }

  lemma {:induction false} DefaultSectionsRead(r: Progress, config: Config, sections: seq<PolicySection>,
                                               durations: DurationParser)
    requires At(r, config, -1, "default_policy")
    ensures var r' := Reading(r, SectionsLines(2, sections), durations);
            if SectionsTyped(sections, durations) then
              At(r', config.(defaultPolicy := PolicyOverAll(config.defaultPolicy, sections, durations)), -1,
                 "default_policy")
            else r'.Err?
  {
    if sections != [] {
      var n := |sections| - 1;
      ReadingConcat(r, SectionsLines(2, sections[..n]), SectionLines(2, sections[n]), durations);
      DefaultSectionsRead(r, config, sections[..n], durations);
      if SectionsTyped(sections[..n], durations) {
        var policy := PolicyOverAll(config.defaultPolicy, sections[..n], durations);
        DefaultSectionRead(Reading(r, SectionsLines(2, sections[..n]), durations),
                           config.(defaultPolicy := policy), sections[n], durations);
      }
    }
  }

  // ---------------------------------------------------------------- rules

  lemma {:induction false} TakeMatch(p: Parser, text: string, pattern: string, durations: DurationParser)
    requires InRange(p) && PathAt(p.paths, 0) == "rules" && text != ""
    requires SplitKeyValue(text) == Ok(KeyValue("match", pattern))
    ensures Take(p, Item(2, text), durations) == Ok(WithRule(AddRule(p), NO_RULE.(pattern := ParseScalar(pattern))))
  {
  }

  lemma {:induction false} AddsRule(p: Parser, config: Config, rule: Rule)
    requires p.config == config
    ensures WithRule(AddRule(p), rule)
            == p.(config := config.(rules := config.rules + [rule]), currentRule := |config.rules|)
  {
    assert (config.rules + [NO_RULE])[|config.rules| := rule] == config.rules + [rule];
  }

  lemma {:induction false} MatchSplits(key: string, pattern: Scalar)
    requires ScalarOk(pattern) && key == "match"
    ensures SplitKeyValue(Pair(key, pattern)) == Ok(KeyValue(key, ScalarText(pattern))) && Pair(key, pattern) != ""
    ensures ParseScalar(ScalarText(pattern)) == pattern.text
  {
    SplitsPair(key, pattern);
    WrittenEnds(pattern);
  }

  /** A list item below `rules` opens a rule, whatever was open before. */
  lemma {:induction false} MatchRead(r: Progress, config: Config, k: int, key: string, pattern: Scalar,
                                     durations: DurationParser)
    requires At(r, config, k, "rules") && ScalarOk(pattern) && key == "match"
    ensures At(Reading(r, [ItemLine(2, key, pattern)], durations),
               config.(rules := config.rules + [NO_RULE.(pattern := pattern.text)]), |config.rules|, "rules")
  {
    ReadingOne(r.value, ItemLine(2, key, pattern), durations);
    MatchSplits(key, pattern);
    TakeMatch(r.value, Pair(key, pattern), ScalarText(pattern), durations);
    AddsRule(r.value, config, NO_RULE.(pattern := pattern.text));
  }

  lemma {:induction false} RuleRead(r: Progress, config: Config, k: int, rule: RuleDoc, durations: DurationParser)
    requires At(r, config, k, "rules") && ScalarOk(rule.pattern)
    ensures var r' := Reading(r, RuleLines(rule), durations);
            if SectionsTyped(rule.sections, durations) then
              At(r', config.(rules := config.rules + [RuleOf(rule, durations)]), |config.rules|, "rules")
            else r'.Err?
  {
    var head := [ItemLine(2, "match", rule.pattern)];
    var n, named := |config.rules|, NO_RULE.(pattern := rule.pattern.text);
    ReadingConcat(r, head, SectionsLines(4, rule.sections), durations);
    MatchRead(r, config, k, "match", rule.pattern, durations);
    RuleSectionsRead(Reading(r, head, durations), config.(rules := config.rules + [named]), n, "rules", 4,
                     rule.sections, durations);
    assert (config.rules + [named])[n := RuleOf(rule, durations)] == config.rules + [RuleOf(rule, durations)];
  }

  lemma {:induction false} RulesRead(r: Progress, config: Config, k: int, rules: seq<RuleDoc>,
                                     durations: DurationParser)
    requires At(r, config, k, "rules") && PatternsOk(rules)
    ensures var r' := Reading(r, RulesLines(rules), durations);
            if RulesTyped(rules, durations) then
              At(r', config.(rules := config.rules + RulesOf(rules, durations)),
                 if rules == [] then k else |config.rules| + |RulesOf(rules, durations)| - 1, "rules")
            else r'.Err?
  {
    if rules == [] {
      assert config.rules + [] == config.rules;
    } else {
      var n := |rules| - 1;
      ReadingConcat(r, RulesLines(rules[..n]), RuleLines(rules[n]), durations);
      RulesRead(r, config, k, rules[..n], durations);
      if RulesTyped(rules[..n], durations) {
        var before := config.rules + RulesOf(rules[..n], durations);
        RuleRead(Reading(r, RulesLines(rules[..n]), durations), config.(rules := before),
                 if n == 0 then k else |before| - 1, rules[n], durations);
        assert before + [RuleOf(rules[n], durations)] == config.rules + RulesOf(rules, durations);
      }
    }
  }

  // ---------------------------------------------------------------- what is said, one part more

  lemma {:induction false} LookupConcat(a: seq<Field>, b: seq<Field>, key: string)
    ensures Lookup(a + b, key) == if Lookup(b, key).Some? then Lookup(b, key) else Lookup(a, key)
    decreases |b|
  {
    if b == [] {
      assert a + b == a;
    } else {
      LookupConcat(a, b[..|b| - 1], key);
      assert (a + b)[..|a + b| - 1] == a + b[..|b| - 1];
    }
  }

  lemma {:induction false} OneMoreOverPolicy(e: EffectivePolicy, sections: seq<PolicySection>, s: PolicySection,
                                             durations: DurationParser)
    ensures PolicyOverAll(e, sections + [s], durations)
            == PolicyOver(PolicyOverAll(e, sections, durations), s, durations)
  {
    assert (sections + [s])[..|sections|] == sections;
  }

  lemma {:induction false} PolicyOverConcat(e: EffectivePolicy, a: seq<PolicySection>, b: seq<PolicySection>,
                                            durations: DurationParser)
    ensures PolicyOverAll(e, a + b, durations) == PolicyOverAll(PolicyOverAll(e, a, durations), b, durations)
    decreases |b|
  {
    if b == [] {
      assert a + b == a;
    } else {
      var n := |b| - 1;
      PolicyOverConcat(e, a, b[..n], durations);
      assert a + b == (a + b[..n]) + [b[n]];
      OneMoreOverPolicy(e, a + b[..n], b[n], durations);
    }
  }

  lemma {:induction false} RuleOverConcat(rule: Rule, a: seq<PolicySection>, b: seq<PolicySection>,
                                          durations: DurationParser)
    ensures RuleOverAll(rule, a + b, durations) == RuleOverAll(RuleOverAll(rule, a, durations), b, durations)
    decreases |b|
  {
    if b == [] {
      assert a + b == a;
    } else {
      RuleOverConcat(rule, a, b[..|b| - 1], durations);
      assert (a + b)[..|a + b| - 1] == a + b[..|b| - 1];
    }
  }

  lemma {:induction false} RulesOfConcat(a: seq<RuleDoc>, b: seq<RuleDoc>, durations: DurationParser)
    ensures RulesOf(a + b, durations) == RulesOf(a, durations) + RulesOf(b, durations)
    decreases |b|
  {
    if b == [] {
      assert a + b == a;
    } else {
      RulesOfConcat(a, b[..|b| - 1], durations);
      assert (a + b)[..|a + b| - 1] == a + b[..|b| - 1];
    }
  }

  lemma {:induction false} RulesOfLength(rules: seq<RuleDoc>, durations: DurationParser)
    ensures |RulesOf(rules, durations)| == |rules|
  {
    if rules != [] { RulesOfLength(rules[..|rules| - 1], durations); }
  }

  lemma {:induction false} LastRuleReplaced(rules: seq<RuleDoc>, last: RuleDoc, durations: DurationParser)
    requires rules != []
    ensures var n := |rules| - 1;
            |RulesOf(rules, durations)| == |rules|
            && RulesOf(rules[n := last], durations) == RulesOf(rules, durations)[n := RuleOf(last, durations)]
  {
    var n := |rules| - 1;
    var before := RulesOf(rules[..n], durations);
    RulesOfLength(rules[..n], durations);
    assert rules[n := last][..n] == rules[..n];
    assert RulesOf(rules[n := last], durations) == before + [RuleOf(last, durations)];
    assert RulesOf(rules, durations) == before + [RuleOf(rules[n], durations)];
  }

  lemma {:induction false} SectionsAppended(rule: RuleDoc, sections: seq<PolicySection>, durations: DurationParser)
    ensures RuleOf(rule.(sections := rule.sections + sections), durations)
            == RuleOverAll(RuleOf(rule, durations), sections, durations)
  {
    RuleOverConcat(NO_RULE.(pattern := rule.pattern.text), rule.sections, sections, durations);
  }

  lemma {:induction false} LastRuleOf(rules: seq<RuleDoc>, durations: DurationParser)
    requires rules != []
    ensures var n := |rules| - 1;
            |RulesOf(rules, durations)| == |rules| && RulesOf(rules, durations)[n] == RuleOf(rules[n], durations)
  {
    RulesOfLength(rules[..|rules| - 1], durations);
  }

  /** The sections that go into the last rule are said on top of what it says already. */
  lemma {:induction false} LastRuleExtended(said: Said, sections: seq<PolicySection>, durations: DurationParser)
    requires said.rules != []
    ensures var n, rules := |said.rules| - 1, RulesOf(said.rules, durations);
            && |rules| == |said.rules|
            && ConfigOf(AddToLastRule(said, sections), durations)
               == ConfigOf(said, durations).(rules := rules[n := RuleOverAll(rules[n], sections, durations)])
  {
    var n := |said.rules| - 1;
    SectionsAppended(said.rules[n], sections, durations);
    LastRuleReplaced(said.rules, said.rules[n].(sections := said.rules[n].sections + sections), durations);
    LastRuleOf(said.rules, durations);
  }

  /** After the parts of a document: what was said has been read, and a rule is open or not. */
  predicate Stands(r: Progress, said: Said, open: bool, durations: DurationParser) {
    && r.Ok? && r.value.config == ConfigOf(said, durations)
    && r.value.currentRule == (if open then |said.rules| - 1 else -1)
    && (open ==> said.rules != [])
  }

  lemma {:induction false} TopRead(r: Progress, said: Said, open: bool, field: Field, durations: DurationParser)
    requires Stands(r, said, open, durations)
    ensures var part := TopPart(field);
            var r' := Reading(r, PartLines(part), durations);
            if PartTyped(part, durations) then Stands(r', Add(said, open, part), false, durations) else r'.Err?
  {
    ReadingOne(r.value, PairLine(0, field.key, field.value), durations);
    LookupConcat(said.top, [field], "version");
    assert Lookup([field][..0], "version") == None;
  }

  lemma {:induction false} DefaultRead(r: Progress, said: Said, open: bool, sections: seq<PolicySection>,
                                       durations: DurationParser)
    requires Stands(r, said, open, durations)
    ensures var part := DefaultPart(sections);
            var r' := Reading(r, PartLines(part), durations);
            if PartTyped(part, durations) then Stands(r', Add(said, open, part), open, durations) else r'.Err?
  {
    var config, q := ConfigOf(said, durations), AtHeader(r.value, 0, "default_policy");
    HeaderRead(r.value, 0, "default_policy", SectionsLines(2, sections), durations);
    if open {
      LastRuleExtended(said, sections, durations);
      RuleSectionsRead(Ok(q), config, |said.rules| - 1, "default_policy", 2, sections, durations);
    } else {
      PolicyOverConcat(NO_POLICY, said.policy, sections, durations);
      DefaultSectionsRead(Ok(q), config, sections, durations);
    }
  }

  lemma {:induction false} RulesPartRead(r: Progress, said: Said, open: bool, rules: seq<RuleDoc>,
                                         durations: DurationParser)
    requires Stands(r, said, open, durations) && PatternsOk(rules)
    ensures var part := RulesPart(rules);
            var r' := Reading(r, PartLines(part), durations);
            if PartTyped(part, durations) then Stands(r', Add(said, open, part), open || rules != [], durations)
            else r'.Err?
  {
    var config, q := ConfigOf(said, durations), AtHeader(r.value, 0, "rules");
    HeaderRead(r.value, 0, "rules", RulesLines(rules), durations);
    RulesRead(Ok(q), config, q.currentRule, rules, durations);
    RulesOfConcat(said.rules, rules, durations);
    RulesOfLength(said.rules, durations);
    RulesOfLength(rules, durations);
  }

  lemma {:induction false} AuditPartRead(r: Progress, said: Said, open: bool, fields: seq<Field>,
                                         durations: DurationParser)
    requires Stands(r, said, open, durations)
    ensures var part := AuditPart(fields);
            Stands(Reading(r, PartLines(part), durations), Add(said, open, part), open, durations)
  {
    HeaderRead(r.value, 0, "audit", Pairs(2, fields), durations);
    AuditRead(AtHeader(r.value, 0, "audit"), fields, durations);
    LookupConcat(said.audit, fields, "path");
  }

  lemma {:induction false} StateSaid(said: Said, fields: seq<Field>, durations: DurationParser)
    ensures var c := ConfigOf(said, durations);
            ConfigOf(said.(state := said.state + fields), durations)
            == c.(stateBackend := OrElse(Lookup(fields, "backend"), c.stateBackend),
                  statePath := OrElse(Lookup(fields, "path"), c.statePath))
  {
    LookupConcat(said.state, fields, "backend");
    LookupConcat(said.state, fields, "path");
  }

  lemma {:induction false} StateFieldsRead(p: Parser, said: Said, open: bool, fields: seq<Field>,
                                           durations: DurationParser)
    requires InTopSection(p, "state") && Stands(Ok(p), said, open, durations)
    ensures Stands(Reading(Ok(p), Pairs(2, fields), durations), said.(state := said.state + fields), open, durations)
  {
    StateRead(p, fields, durations);
    StateSaid(said, fields, durations);
  }

  lemma {:induction false} StatePartRead(r: Progress, said: Said, open: bool, fields: seq<Field>,
                                         durations: DurationParser)
    requires Stands(r, said, open, durations)
    ensures var part := StatePart(fields);
            Stands(Reading(r, PartLines(part), durations), Add(said, open, part), open, durations)
  {
    HeaderRead(r.value, 0, "state", Pairs(2, fields), durations);
    StateFieldsRead(AtHeader(r.value, 0, "state"), said, open, fields, durations);
  }

  function OpenWith(open: bool, part: Part): bool {
    match part
    case TopPart(_) => false
    case RulesPart(rules) => rules != [] || open
    case _ => open
  }

  lemma {:induction false} PartRead(r: Progress, said: Said, open: bool, part: Part, durations: DurationParser)
    requires Stands(r, said, open, durations) && (part.RulesPart? ==> PatternsOk(part.rules))
    ensures var r' := Reading(r, PartLines(part), durations);
            if PartTyped(part, durations) then Stands(r', Add(said, open, part), OpenWith(open, part), durations)
            else r'.Err?
  {
    match part
    case TopPart(field) => TopRead(r, said, open, field, durations);
    case DefaultPart(sections) => DefaultRead(r, said, open, sections, durations);
    case RulesPart(rules) => RulesPartRead(r, said, open, rules, durations);
    case AuditPart(fields) => AuditPartRead(r, said, open, fields, durations);
    case StatePart(fields) => StatePartRead(r, said, open, fields, durations);
  }

  // ---------------------------------------------------------------- whole documents

  /**
   Every document, with parts, sections and fields absent, repeated and in any order, is read as exactly the
   configuration that `AsRead` says: each field in its own section and rule, the last value of a key winning,
   and a default policy that follows an open rule in that rule. It is rejected exactly if a value is ill-typed.
   */
  lemma {:induction false} ReadsDocument(doc: seq<Part>, durations: DurationParser)
    requires DocOk(doc)
    ensures var r := Reading(Ok(START), DocLines(doc), durations);
            if DocTyped(doc, durations) then Stands(r, AsRead(doc), OpenAfter(doc), durations) else r.Err?
  {
    if doc != [] {
      var n := |doc| - 1;
      ReadingConcat(Ok(START), DocLines(doc[..n]), PartLines(doc[n]), durations);
      ReadsDocument(doc[..n], durations);
      if DocTyped(doc[..n], durations) {
        PartRead(Reading(Ok(START), DocLines(doc[..n]), durations), AsRead(doc[..n]), OpenAfter(doc[..n]), doc[n],
                 durations);
      }
    }
  }

  lemma {:induction false} OpenMeansRules(doc: seq<Part>)
    ensures OpenAfter(doc) ==> AsRead(doc).rules != []
  {
    if doc != [] { OpenMeansRules(doc[..|doc| - 1]); }
  }

  /** The parser never reads more sections into the default policy than were written there. */
  lemma {:induction false} PolicySectionsRead(doc: seq<Part>)
    ensures |AsRead(doc).policy| <= |AsWritten(doc).policy|
    ensures InOrder(doc) ==> AsRead(doc) == AsWritten(doc)
    ensures |AsRead(doc).policy| == |AsWritten(doc).policy| ==> InOrder(doc)
  {
    if doc != [] {
      var n := |doc| - 1;
      PolicySectionsRead(doc[..n]);
      OpenMeansRules(doc[..n]);
      if InOrder(doc) && doc[n].DefaultPart? && doc[n].sections == [] { NothingAdded(AsRead(doc[..n])); }
    }
  }

  lemma {:induction false} NothingAdded(said: Said)
    ensures said.policy + [] == said.policy
    ensures said.rules != [] ==> AddToLastRule(said, []) == said
  {
    if said.rules != [] {
      var n := |said.rules| - 1;
      assert said.rules[n].sections + [] == said.rules[n].sections;
      assert said.rules[n := said.rules[n]] == said.rules;
    }
  }

  /**
   Every section is attributed to the part where it was written if and only if no section of the default policy
   stands where a rule is open.
   */
  lemma {:induction false} AttributedAsWrittenIff(doc: seq<Part>)
    ensures AsRead(doc) == AsWritten(doc) <==> InOrder(doc)
  {
    PolicySectionsRead(doc);
  }

  /**
   Where the fields of one section below `default_policy` go, in any state of the parser: into the default
   policy if no rule is open, and otherwise into the open rule, where the actions are dropped.
   */
  lemma {:induction false} DefaultSectionGoes(p: Parser, s: PolicySection, durations: DurationParser)
    requires InRange(p) && PathAt(p.paths, 0) == "default_policy" && SectionTyped(s, durations)
    ensures var r, e := Reading(Ok(p), SectionLines(2, s), durations), PolicyOver(p.config.defaultPolicy, s, durations);
            && r.Ok?
            && (p.currentRule < 0 ==> r.value.config == p.config.(defaultPolicy := e))
            && (p.currentRule >= 0 ==>
                  r.value.config
                  == p.config.(rules := p.config.rules[p.currentRule := RuleOver(CurrentRule(p), s, durations)]))
            && (r.value.config == p.config.(defaultPolicy := e) <==>
                  || p.currentRule < 0
                  || (e == p.config.defaultPolicy && RuleOver(CurrentRule(p), s, durations) == CurrentRule(p)))
  {
    if p.currentRule < 0 {
      DefaultSectionRead(Ok(p), p.config, s, durations);
    } else {
      var rule := RuleOver(CurrentRule(p), s, durations);
      RuleSectionRead(Ok(p), p.config, p.currentRule, "default_policy", 2, s, durations);
      assert p.config.rules[p.currentRule := rule][p.currentRule] == rule;
      assert rule == CurrentRule(p) ==> p.config.rules[p.currentRule := rule] == p.config.rules;
    }
  }
}
