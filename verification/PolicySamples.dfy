/** Two policy files: the one that ships with ribat, and one whose parts are out of order. */
module PolicySamples {
  import opened Prelude
  import opened Policy
  import opened PolicyLines
  import opened PolicyParser
  import opened PolicyLayout
  import opened PolicyFile
  import opened PolicyRecovery
  import opened PolicyOrder

  // ---------------------------------------------------------------- the shipped sample

  function OneWord(key: string, value: string): seq<Field> {
    [Field(key, Plain(value))]
  }

  /** A rule as the sample has them: no `signatures`, and not every field of `mutable_tags`. */
  function AgeRule(pattern: string, age: string): RuleDoc {
    RuleDoc(DoubleQuoted(pattern),
            [TagsSection(OneWord("min_digest_age", age) + OneWord("allow_first_seen_pull", "false"))])
  }

  function SampleTags(age: string): seq<Field> {
    OneWord("action", "quarantine") + OneWord("min_digest_age", age) + OneWord("allow_first_seen_pull", "false")
  }

  function SampleSections(age: string): seq<PolicySection> {
    [TagsSection(SampleTags(age)), ActionSection(Pinned, OneWord("action", "allow")),
     ActionSection(Resolution, OneWord("action", "deny")), ActionSection(Signature, OneWord("action", "deny")),
     CosignSection(OneWord("required", "false"))]
  }

  function SampleRules(): seq<RuleDoc> {
    [AgeRule("*:latest", "14d"), AgeRule("*:stable", "7d"), AgeRule("*:main", "7d"), AgeRule("*:v*", "3d")]
  }

  function SampleState(): seq<Field> {
    OneWord("backend", "sqlite") + [Field("path", DoubleQuoted("/var/lib/ribat/state.db"))]
  }

  /** configs/ribat.example.yaml */
  function Sample(): seq<Part> {
    [TopPart(Field("version", Plain("1"))),
     DefaultPart(SampleSections("7d")),
     RulesPart(SampleRules()),
     AuditPart([Field("path", DoubleQuoted("/var/log/ribat/audit.jsonl"))]),
     StatePart(SampleState())]
  }

  function AgedRule(pattern: string, age: Duration): Rule {
    NO_RULE.(pattern := pattern, mutableTags := RuleMutableTagPolicy(None, Some(age), Some(false)))
  }

  function SamplePolicy(age: Duration): EffectivePolicy {
    EffectivePolicy(MutableTagPolicy("quarantine", age, false), "allow", "deny", "deny", NO_COSIGN)
  }

  function SampleConfig(d3: Duration, d7: Duration, d14: Duration): Config {
    Config(1, SamplePolicy(d7),
           [AgedRule("*:latest", d14), AgedRule("*:stable", d7), AgedRule("*:main", d7), AgedRule("*:v*", d3)],
           "/var/log/ribat/audit.jsonl", "sqlite", "/var/lib/ribat/state.db")
  }

  lemma {:induction false} LookupOne(f: Field, key: string)
    ensures Lookup([f], key) == if f.key == key then Some(f.value.text) else None
  {
    assert [f][..0] == [];
  }

  lemma {:induction false} LookupAfter(a: seq<Field>, f: Field, key: string)
    ensures Lookup(a + [f], key) == if f.key == key then Some(f.value.text) else Lookup(a, key)
  {
    assert (a + [f])[..|a|] == a;
  }

  lemma {:induction false} OneOverRule(rule: Rule, s: PolicySection, durations: DurationParser)
    ensures RuleOverAll(rule, [s], durations) == RuleOver(rule, s, durations)
  {
    var sections := [s];
    assert sections[..0] == [];
    assert RuleOverAll(rule, sections[..0], durations) == rule;
  }

  lemma {:induction false} AgeRuleSays(pattern: string, age: string, durations: DurationParser)
    requires durations(age).Some?
    ensures RuleOf(AgeRule(pattern, age), durations) == AgedRule(pattern, durations(age).value)
    ensures SectionsTyped(AgeRule(pattern, age).sections, durations)
  {
    var first := OneWord("min_digest_age", age);
    var fields := first + OneWord("allow_first_seen_pull", "false");
    forall key ensures Lookup(fields, key) == if key == "allow_first_seen_pull" then Some("false")
                                              else if key == "min_digest_age" then Some(age) else None
    {
      LookupOne(first[0], key);
      LookupAfter(first, Field("allow_first_seen_pull", Plain("false")), key);
    }
    AllSectionsTyped([TagsSection(fields)], durations);
    OneOverRule(NO_RULE.(pattern := pattern), TagsSection(fields), durations);
  }

  lemma {:induction false} SampleTagsSay(age: string, durations: DurationParser)
    requires durations(age).Some?
    ensures RuleMutableTagsOf(SampleTags(age), durations)
            == RuleMutableTagPolicy(Some("quarantine"), durations(age), Some(false))
    ensures MutableTagsTyped(SampleTags(age), durations)
  {
    var first := OneWord("action", "quarantine");
    var two := first + OneWord("min_digest_age", age);
    forall key ensures Lookup(SampleTags(age), key) == if key == "allow_first_seen_pull" then Some("false")
                                                       else if key == "min_digest_age" then Some(age)
                                                       else if key == "action" then Some("quarantine") else None
    {
      LookupOne(first[0], key);
      LookupAfter(first, Field("min_digest_age", Plain(age)), key);
      LookupAfter(two, Field("allow_first_seen_pull", Plain("false")), key);
    }
  }

  lemma {:induction false} ActionSays(e: EffectivePolicy, kind: ActionKind, action: string, durations: DurationParser)
    ensures PolicyOver(e, ActionSection(kind, OneWord("action", action)), durations) == WithAction(e, kind, action)
  {
    LookupOne(Field("action", Plain(action)), "action");
  }

  lemma {:induction false} RequiredSays(e: EffectivePolicy, durations: DurationParser)
    ensures PolicyOver(e, CosignSection(OneWord("required", "false")), durations)
            == e.(cosign := e.cosign.(required := false))
  {
    forall key ensures Lookup(OneWord("required", "false"), key) == if key == "required" then Some("false") else None {
      LookupOne(Field("required", Plain("false")), key);
    }
  }

  lemma {:induction false} SampleSectionsSay(age: string, durations: DurationParser)
    requires durations(age).Some?
    ensures PolicyOverAll(NO_POLICY, SampleSections(age), durations) == SamplePolicy(durations(age).value)
    ensures SectionsTyped(SampleSections(age), durations)
  {
    var s := SampleSections(age);
    SampleTagsSay(age, durations);
    AllSectionsTyped(s, durations);
    FiveOverPolicy(NO_POLICY, s[0], s[1], s[2], s[3], s[4], durations);
    var e := NO_POLICY.(mutableTags := MutableTagPolicy("quarantine", durations(age).value, false));
    assert PolicyOver(NO_POLICY, s[0], durations) == e;
    ActionSays(e, Pinned, "allow", durations);
    ActionSays(WithAction(e, Pinned, "allow"), Resolution, "deny", durations);
    ActionSays(WithAction(WithAction(e, Pinned, "allow"), Resolution, "deny"), Signature, "deny", durations);
    RequiredSays(WithAction(WithAction(WithAction(e, Pinned, "allow"), Resolution, "deny"), Signature, "deny"),
                 durations);
  }

  lemma {:induction false} FourRulesSay(a: RuleDoc, b: RuleDoc, c: RuleDoc, d: RuleDoc, durations: DurationParser)
    ensures RulesOf([a, b, c, d], durations)
            == [RuleOf(a, durations), RuleOf(b, durations), RuleOf(c, durations), RuleOf(d, durations)]
  {
    RulesOfAppend([], a, durations);
    RulesOfAppend([a], b, durations);
    RulesOfAppend([a, b], c, durations);
    RulesOfAppend([a, b, c], d, durations);
    assert [] + [a] == [a] && [a] + [b] == [a, b] && [a, b] + [c] == [a, b, c] && [a, b, c] + [d] == [a, b, c, d];
  }

  lemma {:induction false} AllRulesTyped(rules: seq<RuleDoc>, durations: DurationParser)
    requires forall i :: 0 <= i < |rules| ==> SectionsTyped(rules[i].sections, durations)
    ensures RulesTyped(rules, durations)
  {
    if rules != [] {
      AllRulesTyped(rules[..|rules| - 1], durations);
    }
  }

  lemma {:induction false} SampleRulesSay(durations: DurationParser)
    requires durations("3d").Some? && durations("7d").Some? && durations("14d").Some?
    ensures var c := SampleConfig(durations("3d").value, durations("7d").value, durations("14d").value);
            RulesOf(SampleRules(), durations) == c.rules && RulesTyped(SampleRules(), durations)
  {
    var rules := SampleRules();
    AgeRuleSays("*:latest", "14d", durations);
    AgeRuleSays("*:stable", "7d", durations);
    AgeRuleSays("*:main", "7d", durations);
    AgeRuleSays("*:v*", "3d", durations);
    FourRulesSay(rules[0], rules[1], rules[2], rules[3], durations);
    AllRulesTyped(rules, durations);
  }

  lemma {:induction false} StateSays()
    ensures var fields := SampleState();
            Lookup(fields, "backend") == Some("sqlite") && Lookup(fields, "path") == Some("/var/lib/ribat/state.db")
  {
    var first := OneWord("backend", "sqlite");
    LookupOne(first[0], "backend");
    LookupAfter(first, Field("path", DoubleQuoted("/var/lib/ribat/state.db")), "backend");
    LookupAfter(first, Field("path", DoubleQuoted("/var/lib/ribat/state.db")), "path");
  }

  lemma {:induction false} OneSays()
    ensures Atoi("1") == Some(1)
  {
    AtoiOfShowInt(1);
    assert ShowInt(1) == "1";
  }

  lemma {:induction false} VersionSays()
    ensures var f := Field("version", Plain("1"));
            Lookup([f], "version") == Some("1") && Atoi("1") == Some(1) && forall d :: PartTyped(TopPart(f), d)
  {
    OneSays();
    LookupOne(Field("version", Plain("1")), "version");
  }

  lemma {:induction false} SampleIsTyped(durations: DurationParser)
    requires durations("3d").Some? && durations("7d").Some? && durations("14d").Some?
    ensures DocTyped(Sample(), durations)
  {
    var doc := Sample();
    VersionSays();
    SampleSectionsSay("7d", durations);
    SampleRulesSay(durations);
    forall i | 0 <= i < |doc| ensures PartTyped(doc[i], durations) {
      assert i == 0 || i == 1 || i == 2 || i == 3 || i == 4;
    }
    AllPartsTyped(doc, durations);
  }

  lemma {:induction false} SampleSays(durations: DurationParser)
    requires durations("3d").Some? && durations("7d").Some? && durations("14d").Some?
    ensures InOrder(Sample())
    ensures ConfigOf(AsWritten(Sample()), durations)
            == SampleConfig(durations("3d").value, durations("7d").value, durations("14d").value)
  {
    var audit := Field("path", DoubleQuoted("/var/log/ribat/audit.jsonl"));
    FiveParts(Field("version", Plain("1")), SampleSections("7d"), SampleRules(), [audit], SampleState());
    VersionSays();
    SampleSectionsSay("7d", durations);
    SampleRulesSay(durations);
    LookupOne(audit, "path");
    StateSays();
  }

  // ---------------------------------------------------------------- its words and texts

  predicate BareWord(value: string) {
    value != "" && forall i :: 0 <= i < |value| ==> 'a' <= value[i] <= 'z' || '0' <= value[i] <= '9'
  }

  lemma {:induction false} WordFieldOk(key: string, value: string)
    requires Word(key) && BareWord(value)
    ensures FieldOk(Field(key, Plain(value)))
  {
    WordOk(key);
  }

  lemma {:induction false} WordFieldsOk(key: string, value: string)
    requires Word(key) && BareWord(value)
    ensures FieldsOk(OneWord(key, value))
  {
    WordFieldOk(key, value);
  }

  lemma {:induction false} TwoFieldsOk(age: string)
    requires BareWord(age)
    ensures FieldsOk(OneWord("min_digest_age", age) + OneWord("allow_first_seen_pull", "false"))
  {
    WordFieldsOk("min_digest_age", age);
    WordFieldsOk("allow_first_seen_pull", "false");
    FieldsOkConcat(OneWord("min_digest_age", age), OneWord("allow_first_seen_pull", "false"));
  }

  lemma {:induction false} AgeRuleOk(pattern: string, age: string)
    requires ScalarOk(DoubleQuoted(pattern)) && BareWord(age)
    ensures RuleOk(AgeRule(pattern, age))
  {
    TwoFieldsOk(age);
  }

  lemma {:induction false} SampleRulesOk()
    ensures RulesOk(SampleRules())
  {
    AgeRuleOk("*:latest", "14d");
    AgeRuleOk("*:stable", "7d");
    AgeRuleOk("*:main", "7d");
    AgeRuleOk("*:v*", "3d");
  }

  lemma {:induction false} SampleTagsOk(age: string)
    requires BareWord(age)
    ensures FieldsOk(SampleTags(age))
  {
    WordFieldsOk("action", "quarantine");
    TwoFieldsOk(age);
    FieldsOkConcat(OneWord("action", "quarantine"),
                   OneWord("min_digest_age", age) + OneWord("allow_first_seen_pull", "false"));
    assert SampleTags(age)
           == OneWord("action", "quarantine")
              + (OneWord("min_digest_age", age) + OneWord("allow_first_seen_pull", "false"));
  }

  lemma {:induction false} SampleSectionsOk(age: string)
    requires BareWord(age)
    ensures SectionsOk(SampleSections(age))
  {
    SampleTagsOk(age);
    WordFieldsOk("action", "allow");
    WordFieldsOk("action", "deny");
    WordFieldsOk("required", "false");
  }

  predicate PathText(text: string) {
    forall i :: 0 <= i < |text| ==> 'a' <= text[i] <= 'z' || text[i] == '/' || text[i] == '.'
  }

  lemma {:induction false} PathFieldOk(text: string)
    requires PathText(text)
    ensures FieldOk(Field("path", DoubleQuoted(text)))
  {
    WordOk("path");
  }

  lemma {:induction false} SampleAuditOk()
    ensures FieldOk(Field("path", DoubleQuoted("/var/log/ribat/audit.jsonl")))
  {
    PathFieldOk("/var/log/ribat/audit.jsonl");
  }

  lemma {:induction false} SampleStatePathOk()
    ensures FieldOk(Field("path", DoubleQuoted("/var/lib/ribat/state.db")))
  {
    PathFieldOk("/var/lib/ribat/state.db");
  }

  lemma {:induction false} SamplePathsOk()
    ensures FieldOk(Field("path", DoubleQuoted("/var/log/ribat/audit.jsonl"))) && FieldsOk(SampleState())
  {
    SampleAuditOk();
    SampleStatePathOk();
    WordFieldsOk("backend", "sqlite");
    FieldsOkConcat(OneWord("backend", "sqlite"), [Field("path", DoubleQuoted("/var/lib/ribat/state.db"))]);
  }

  lemma {:induction false} SampleIsWritable()
    ensures Writable(Sample())
  {
    var doc := Sample();
    WordFieldOk("version", "1");
    SampleSectionsOk("7d");
    SampleRulesOk();
    SamplePathsOk();
    forall i | 0 <= i < |doc| ensures PartOk(doc[i]) {
      assert i == 0 || i == 1 || i == 2 || i == 3 || i == 4;
    }
  }

  /** The shipped file loads, with its comments and blank lines, as exactly the configuration it shows. */
  lemma {:induction false} SampleLoads(lines: seq<string>, durations: DurationParser)
    requires durations("3d").Some? && durations("7d").Some? && durations("14d").Some? && durations("7d").value != 0
    requires Spelled(Significant(lines), DocLines(Sample()))
    ensures LoadLines(lines, durations)
            == Ok(SampleConfig(durations("3d").value, durations("7d").value, durations("14d").value))
  {
    SampleIsWritable();
    SampleIsTyped(durations);
    SampleSays(durations);
    OrderedFileIsRead(lines, Sample(), durations);
    SampleIsValid(durations("3d").value, durations("7d").value, durations("14d").value);
  }

  lemma {:induction false} SampleIsValid(d3: Duration, d7: Duration, d14: Duration)
    requires d7 != 0
    ensures Validate(SampleConfig(d3, d7, d14)).None?
  {
    var rules := SampleConfig(d3, d7, d14).rules;
    forall i | 0 <= i < |rules| ensures ValidateRule(i, rules[i], NO_COSIGN).None? {
      assert i == 0 || i == 1 || i == 2 || i == 3;
    }
    AllRulesValid(rules, NO_COSIGN);
  }

  lemma {:induction false} AllRulesValid(rules: seq<Rule>, base: CosignPolicy)
    requires forall i :: 0 <= i < |rules| ==> ValidateRule(i, rules[i], base).None?
    ensures ValidateRules(rules, base).None?
  {
    if rules != [] {
      AllRulesValid(rules[..|rules| - 1], base);
    }
  }

  // ---------------------------------------------------------------- the default policy after the rules

  function VersionPart(): Part { TopPart(Field("version", Plain("1"))) }
  function LatestRule(sections: seq<PolicySection>): RuleDoc { RuleDoc(DoubleQuoted("*:latest"), sections) }
  function AllowTags(): PolicySection { TagsSection(OneWord("action", "allow")) }

  function RulesFirst(): seq<Part> {
    [VersionPart(), RulesPart([LatestRule([])]), DefaultPart([AllowTags()])]
  }

  /** The text of the file. */
  function RulesFirstText(): seq<string> {
    ["version: 1",
     "rules:",
     "  - match: \"*:latest\"",
     "default_policy:",
     "  mutable_tags:",
     "    action: allow"]
  }

  function RulesFirstLines(): seq<Line> {
    [PairLine(0, "version", Plain("1")), HeaderLine(0, "rules"), ItemLine(2, "match", DoubleQuoted("*:latest")),
     HeaderLine(0, "default_policy"), HeaderLine(2, "mutable_tags"), PairLine(4, "action", Plain("allow"))]
  }

  lemma {:induction false} OneMorePart(doc: seq<Part>, part: Part)
    ensures DocLines(doc + [part]) == DocLines(doc) + PartLines(part)
    ensures AsRead(doc + [part]) == Add(AsRead(doc), OpenAfter(doc), part)
    ensures OpenAfter(doc + [part]) <==> OpenWith(OpenAfter(doc), part)
  {
    assert (doc + [part])[..|doc|] == doc;
  }

  lemma {:induction false} OneSection(indent: nat, s: PolicySection)
    ensures SectionsLines(indent, [s]) == SectionLines(indent, s)
  {
    var sections := [s];
    assert sections[..0] == [];
    assert SectionsLines(indent, sections[..0]) == [];
  }

  lemma {:induction false} OneFieldLine(indent: nat, f: Field)
    ensures Pairs(indent, [f]) == [PairLine(indent, f.key, f.value)]
  {
    var fields := [f];
    assert fields[..0] == [];
    assert Pairs(indent, fields[..0]) == [];
  }

  lemma {:induction false} OneRuleLine(rule: RuleDoc)
    requires rule.sections == []
    ensures RulesLines([rule]) == [ItemLine(2, "match", rule.pattern)]
  {
    var rules := [rule];
    assert rules[..0] == [];
    assert RulesLines(rules[..0]) == [];
  }

  /** Three parts, one after the other. */
  lemma {:induction false} ThreeParts(a: Part, b: Part, c: Part)
    ensures DocLines([a, b, c]) == PartLines(a) + PartLines(b) + PartLines(c)
    ensures AsWritten([a, b, c]) == Add(Add(Add(NOTHING, false, a), false, b), false, c)
    ensures var openA := OpenWith(false, a);
            AsRead([a, b, c]) == Add(Add(Add(NOTHING, false, a), openA, b), OpenWith(openA, b), c)
  {
    OneMorePart([], a);
    OneMorePart([a], b);
    OneMorePart([a, b], c);
    OneMoreWritten([], a);
    OneMoreWritten([a], b);
    OneMoreWritten([a, b], c);
    assert [] + [a] == [a] && [a] + [b] == [a, b] && [a, b] + [c] == [a, b, c];
    assert DocLines([]) + PartLines(a) == PartLines(a);
  }

  lemma {:induction false} RulePartLines(rule: RuleDoc)
    requires rule.sections == []
    ensures PartLines(RulesPart([rule])) == [HeaderLine(0, "rules"), ItemLine(2, "match", rule.pattern)]
  {
    OneRuleLine(rule);
  }

  lemma {:induction false} TagsPartLines(f: Field)
    ensures PartLines(DefaultPart([TagsSection([f])]))
            == [HeaderLine(0, "default_policy"), HeaderLine(2, "mutable_tags"), PairLine(4, f.key, f.value)]
  {
    OneSection(2, TagsSection([f]));
    OneFieldLine(4, f);
  }

  lemma {:induction false} RulesFirstHasLines()
    ensures DocLines(RulesFirst()) == RulesFirstLines()
  {
    ThreeParts(VersionPart(), RulesPart([LatestRule([])]), DefaultPart([AllowTags()]));
    RulePartLines(LatestRule([]));
    TagsPartLines(Field("action", Plain("allow")));
  }

  lemma {:induction false} RulesAreSpelled()
    ensures LineText(PairLine(0, "version", Plain("1"))) == "version: 1"
    ensures LineText(HeaderLine(0, "rules")) == "rules:"
    ensures LineText(ItemLine(2, "match", DoubleQuoted("*:latest"))) == "  - match: \"*:latest\""
  {
  }

  lemma {:induction false} HeadersAreSpelled()
    ensures LineText(HeaderLine(0, "default_policy")) == "default_policy:"
    ensures LineText(HeaderLine(2, "mutable_tags")) == "  mutable_tags:"
  {
  }

  lemma {:induction false} ActionIsSpelled()
    ensures LineText(PairLine(4, "action", Plain("allow"))) == "    action: allow"
  {
  }

  lemma {:induction false} RulesFirstIsSpelled()
    ensures Written(RulesFirstLines()) == RulesFirstText()
  {
    RulesAreSpelled();
    HeadersAreSpelled();
    ActionIsSpelled();
  }

  lemma {:induction false} RulesFirstSays()
    ensures AsRead(RulesFirst()) == NOTHING.(top := [VersionPart().field], rules := [LatestRule([AllowTags()])])
    ensures AsWritten(RulesFirst()).policy == [AllowTags()]
  {
    MisplacedSections(VersionPart().field, LatestRule([]), [AllowTags()]);
  }

  lemma {:induction false} MisplacedSections(top: Field, rule: RuleDoc, sections: seq<PolicySection>)
    requires rule.sections == []
    ensures var doc := [TopPart(top), RulesPart([rule]), DefaultPart(sections)];
            && AsRead(doc) == NOTHING.(top := [top], rules := [rule.(sections := sections)])
            && AsWritten(doc) == NOTHING.(top := [top], policy := sections, rules := [rule])
  {
    ThreeParts(TopPart(top), RulesPart([rule]), DefaultPart(sections));
    assert [] + [top] == [top] && [] + [rule] == [rule] && [] + sections == sections;
    var extended := rule.(sections := sections);
    assert [rule][0 := extended] == [extended];
  }

  lemma {:induction false} AllowTagsSay(durations: DurationParser)
    ensures RuleOf(LatestRule([AllowTags()]), durations)
            == NO_RULE.(pattern := "*:latest", mutableTags := RuleMutableTagPolicy(Some("allow"), None, None))
    ensures PolicyOverAll(NO_POLICY, [AllowTags()], durations).mutableTags == MutableTagPolicy("allow", 0, false)
  {
    forall key ensures Lookup(OneWord("action", "allow"), key) == if key == "action" then Some("allow") else None {
      LookupOne(Field("action", Plain("allow")), key);
    }
    OneOverRule(NO_RULE.(pattern := "*:latest"), AllowTags(), durations);
    OneMoreOverPolicy(NO_POLICY, [], AllowTags(), durations);
    assert [] + [AllowTags()] == [AllowTags()];
  }

  lemma {:induction false} RulesFirstIsTyped(durations: DurationParser)
    ensures DocTyped(RulesFirst(), durations)
  {
    var doc := RulesFirst();
    VersionSays();
    AllSectionsTyped([AllowTags()], durations);
    AllRulesTyped([LatestRule([])], durations);
    AllPartsTyped(doc, durations);
  }

  lemma {:induction false} RulesFirstIsWritable()
    ensures Writable(RulesFirst())
  {
    WordFieldOk("version", "1");
    WordFieldsOk("action", "allow");
  }

  lemma {:induction false} RulesFirstIsFile(lines: seq<string>)
    requires lines == RulesFirstText()
    ensures Writable(RulesFirst()) && Spelled(Significant(lines), DocLines(RulesFirst()))
  {
    RulesFirstIsWritable();
    DocLinesOk(RulesFirst());
    RulesFirstHasLines();
    RulesFirstIsSpelled();
    WrittenIsSpelled(DocLines(RulesFirst()));
    SpelledIsSignificant(lines, DocLines(RulesFirst()));
  }

  lemma {:induction false} RulesFirstConfig(durations: DurationParser)
    ensures var rule := NO_RULE.(pattern := "*:latest", mutableTags := RuleMutableTagPolicy(Some("allow"), None, None));
            ConfigOf(NOTHING.(top := [VersionPart().field], rules := [LatestRule([AllowTags()])]), durations)
            == NO_CONFIG.(version := 1, rules := [rule])
    ensures PolicyOverAll(NO_POLICY, [AllowTags()], durations).mutableTags.action == "allow"
  {
    var rule := LatestRule([AllowTags()]);
    AllowTagsSay(durations);
    RulesOfAppend([], rule, durations);
    assert [] + [rule] == [rule];
    VersionSays();
  }

  lemma {:induction false} NoDefaultIsInvalid(c: Config)
    requires c.version == 1 && c.defaultPolicy.mutableTags.action == ""
    ensures Validate(c) == Some(BadAction("mutable_tags.action"))
  {
  }

  /** Without a default policy, loading fails for want of a default action. */
  lemma {:induction false} NoDefaultIsRefused(lines: seq<string>, doc: seq<Part>, durations: DurationParser)
    requires Writable(doc) && DocTyped(doc, durations) && Spelled(Significant(lines), DocLines(doc))
    requires ConfigOf(AsRead(doc), durations).version == 1
    requires ConfigOf(AsRead(doc), durations).defaultPolicy == NO_POLICY
    ensures LoadLines(lines, durations) == Err(Invalid(BadAction("mutable_tags.action")))
    ensures var r := Feed(START, Lexed(lines), durations); r.Ok? && r.value.config == ConfigOf(AsRead(doc), durations)
  {
    FileIsRead(lines, doc, durations);
    NoDefaultIsInvalid(ConfigOf(AsRead(doc), durations));
  }

  /**
   A file whose default policy follows a rule. The author writes that tags are allowed by default; the parser
   allows `*:latest` instead, and the file is refused for want of a default action.
   */
  lemma {:induction false} RulesFirstIsMisread(lines: seq<string>, durations: DurationParser)
    requires lines == RulesFirstText()
    ensures var r := Feed(START, Lexed(lines), durations);
            && ConfigOf(AsWritten(RulesFirst()), durations).defaultPolicy.mutableTags.action == "allow"
            && r.Ok? && r.value.config.defaultPolicy == NO_POLICY
            && r.value.config.rules
               == [NO_RULE.(pattern := "*:latest", mutableTags := RuleMutableTagPolicy(Some("allow"), None, None))]
            && LoadLines(lines, durations) == Err(Invalid(BadAction("mutable_tags.action")))
  {
    RulesFirstIsFile(lines);
    RulesFirstIsTyped(durations);
    RulesFirstSays();
    RulesFirstConfig(durations);
    NoDefaultIsRefused(lines, RulesFirst(), durations);
  }

  // ---------------------------------------------------------------- out of order, without harm

  /** A default policy that is said again after a rule. */
  function SaidAgain(top: Field, rule: RuleDoc, s: PolicySection): seq<Part> {
    [TopPart(top), DefaultPart([s]), RulesPart([rule]), DefaultPart([s])]
  }

  lemma {:induction false} FourParts(a: Part, b: Part, c: Part, d: Part)
    ensures AsWritten([a, b, c, d]) == Add(AsWritten([a, b, c]), false, d)
    ensures AsRead([a, b, c, d]) == Add(AsRead([a, b, c]), OpenAfter([a, b, c]), d)
    ensures OpenAfter([a, b, c]) <==> OpenWith(OpenWith(OpenWith(false, a), b), c)
    ensures InOrder([a, b, c, d]) ==> !(d.DefaultPart? && d.sections != [] && OpenAfter([a, b, c]))
  {
    OneMorePart([], a);
    OneMorePart([a], b);
    OneMorePart([a, b], c);
    OneMorePart([a, b, c], d);
    OneMoreWritten([a, b, c], d);
    assert [] + [a] == [a] && [a] + [b] == [a, b] && [a, b] + [c] == [a, b, c];
    assert [a, b, c] + [d] == [a, b, c, d] && [a, b, c, d][..3] == [a, b, c];
  }

  lemma {:induction false} SaidAgainIsMisplaced(top: Field, rule: RuleDoc, s: PolicySection)
    ensures !InOrder(SaidAgain(top, rule, s))
  {
    FourParts(TopPart(top), DefaultPart([s]), RulesPart([rule]), DefaultPart([s]));
  }

  /** The first three parts, read in order. */
  lemma {:induction false} ThreePartsSay(top: Field, s: PolicySection, rule: RuleDoc)
    ensures var said := NOTHING.(top := [top], policy := [s], rules := [rule]);
            var doc := [TopPart(top), DefaultPart([s]), RulesPart([rule])];
            AsRead(doc) == said && AsWritten(doc) == said && OpenAfter(doc)
  {
    ThreeParts(TopPart(top), DefaultPart([s]), RulesPart([rule]));
    FourParts(TopPart(top), DefaultPart([s]), RulesPart([rule]), DefaultPart([]));
    assert [] + [top] == [top] && [] + [rule] == [rule] && [] + [s] == [s];
  }

  lemma {:induction false} SaidAgainSays(top: Field, rule: RuleDoc, s: PolicySection)
    ensures var doc, extended := SaidAgain(top, rule, s), rule.(sections := rule.sections + [s]);
            && AsRead(doc) == NOTHING.(top := [top], policy := [s], rules := [extended])
            && AsWritten(doc) == NOTHING.(top := [top], policy := [s] + [s], rules := [rule])
  {
    ThreePartsSay(top, s, rule);
    FourParts(TopPart(top), DefaultPart([s]), RulesPart([rule]), DefaultPart([s]));
    var extended := rule.(sections := rule.sections + [s]);
    assert [rule][0 := extended] == [extended];
  }

  lemma {:induction false} RuleIgnoresAction(rule: RuleDoc, s: PolicySection, durations: DurationParser)
    requires s.ActionSection? && Lookup(s.fields, "match").None?
    ensures RulesOf([rule.(sections := rule.sections + [s])], durations) == RulesOf([rule], durations)
  {
    var extended := rule.(sections := rule.sections + [s]);
    OneOverRule(RuleOf(rule, durations), s, durations);
    SectionsAppended(rule, [s], durations);
    RulesOfAppend([], rule, durations);
    RulesOfAppend([], extended, durations);
    assert [] + [rule] == [rule] && [] + [extended] == [extended];
  }

  lemma {:induction false} PolicyHearsOnce(kind: ActionKind, action: string, durations: DurationParser)
    ensures var s := ActionSection(kind, OneWord("action", action));
            PolicyOverAll(NO_POLICY, [s] + [s], durations) == PolicyOverAll(NO_POLICY, [s], durations)
  {
    var s := ActionSection(kind, OneWord("action", action));
    OneMoreOverPolicy(NO_POLICY, [], s, durations);
    OneMoreOverPolicy(NO_POLICY, [s], s, durations);
    assert [] + [s] == [s];
    ActionSays(NO_POLICY, kind, action, durations);
    ActionSays(WithAction(NO_POLICY, kind, action), kind, action, durations);
  }

  /** An action that is said again is out of order, and loads all the same. */
  lemma {:induction false} ActionSaidAgain(top: Field, rule: RuleDoc, kind: ActionKind, action: string,
                                           durations: DurationParser)
    requires DocTyped(SaidAgain(top, rule, ActionSection(kind, OneWord("action", action))), durations)
    ensures var doc := SaidAgain(top, rule, ActionSection(kind, OneWord("action", action)));
            && !InOrder(doc) && Harmless(doc, durations)
            && ConfigOf(AsRead(doc), durations) == ConfigOf(AsWritten(doc), durations)
  {
    var s := ActionSection(kind, OneWord("action", action));
    SaidAgainIsMisplaced(top, rule, s);
    SaidAgainSays(top, rule, s);
    LookupOne(Field("action", Plain(action)), "match");
    RuleIgnoresAction(rule, s, durations);
    PolicyHearsOnce(kind, action, durations);
    ConfigReadAsWrittenIff(SaidAgain(top, rule, s), durations);
  }
}
