/** Exactly when the order of a policy file's parts changes the configuration that is loaded. */
module PolicyOrder {
  import opened Prelude
  import opened Policy
  import opened PolicyParser
  import opened PolicyLayout
  import opened PolicyFile

  // ---------------------------------------------------------------- what is said, setting by setting

  /** What a field can set. A `match` sets the same thing in every section of a rule. */
  datatype Slot =
    | TagsSlot(key: string)
    | ActionSlot(kind: ActionKind, key: string)
    | CosignSlot(key: string)
    | MatchSlot

  function SaidBy(s: PolicySection, slot: Slot): Option<string> {
    match slot
    case TagsSlot(key) => if s.TagsSection? then Lookup(s.fields, key) else None
    case ActionSlot(kind, key) => if s.ActionSection? && s.kind == kind then Lookup(s.fields, key) else None
    case CosignSlot(key) => if s.CosignSection? then Lookup(s.fields, key) else None
    case MatchSlot => Lookup(s.fields, "match")
  }

  /** The last value that the sections give to the slot. */
  function LastSaid(sections: seq<PolicySection>, slot: Slot): Option<string> {
    if sections == [] then None
    else
      var n := |sections| - 1;
      Newer(SaidBy(sections[n], slot), LastSaid(sections[..n], slot))
  }

  /** A value in the configuration, or none. */
  datatype Meaning = Nothing | Text(text: string) | Age(age: Duration) | Flag(flag: bool)

  function AgeOf(text: string, durations: DurationParser): Meaning {
    var d := durations(text); if d.Some? then Age(d.value) else Nothing
  }

  function TagsMeaning(key: string, text: string, durations: DurationParser): Meaning {
    if key == "action" then Text(text)
    else if key == "min_digest_age" then AgeOf(text, durations)
    else if key == "allow_first_seen_pull" then Flag(BoolOf(text))
    else Nothing
  }

  predicate CosignText(key: string) {
    key == "mode" || key == "key" || key == "issuer" || key == "identity" || key == "identity_regex"
  }

  function CosignMeaning(key: string, text: string): Meaning {
    if key == "required" then Flag(BoolOf(text)) else if CosignText(key) then Text(text) else Nothing
  }

  /** What a text means in a slot of the default policy ... */
  function PolicyMeaning(slot: Slot, text: string, durations: DurationParser): Meaning {
    match slot
    case TagsSlot(key) => TagsMeaning(key, text, durations)
    case ActionSlot(_, key) => if key == "action" then Text(text) else Nothing
    case CosignSlot(key) => CosignMeaning(key, text)
    case MatchSlot => Nothing
  }

  /** ... and in a slot of a rule, where the three actions mean nothing. */
  function RuleMeaning(slot: Slot, text: string, durations: DurationParser): Meaning {
    match slot
    case TagsSlot(key) => TagsMeaning(key, text, durations)
    case ActionSlot(_, _) => Nothing
    case CosignSlot(key) => CosignMeaning(key, text)
    case MatchSlot => Text(text)
  }

  function PolicyAt(e: EffectivePolicy, slot: Slot): Meaning {
    match slot
    case TagsSlot(key) =>
      if key == "action" then Text(e.mutableTags.action)
      else if key == "min_digest_age" then Age(e.mutableTags.minDigestAge)
      else if key == "allow_first_seen_pull" then Flag(e.mutableTags.allowFirstSeenPull)
      else Nothing
    case ActionSlot(kind, key) => if key == "action" then Text(ActionIn(e, kind)) else Nothing
    case CosignSlot(key) => CosignAt(e.cosign, key)
    case MatchSlot => Nothing
  }

  function CosignAt(p: CosignPolicy, key: string): Meaning {
    if key == "required" then Flag(p.required)
    else if key == "mode" then Text(p.mode)
    else if key == "key" then Text(p.key)
    else if key == "issuer" then Text(p.issuer)
    else if key == "identity" then Text(p.identity)
    else if key == "identity_regex" then Text(p.identityRegex)
    else Nothing
  }

  function TextOrNothing(t: Option<string>): Meaning {
    if t.Some? then Text(t.value) else Nothing
  }

  function FlagOrNothing(b: Option<bool>): Meaning {
    if b.Some? then Flag(b.value) else Nothing
  }

  function RuleTagsAt(t: RuleMutableTagPolicy, key: string): Meaning {
    if key == "action" then TextOrNothing(t.action)
    else if key == "min_digest_age" then if t.minDigestAge.Some? then Age(t.minDigestAge.value) else Nothing
    else if key == "allow_first_seen_pull" then FlagOrNothing(t.allowFirstSeenPull)
    else Nothing
  }

  function RuleCosignAt(t: RuleCosignPolicy, key: string): Meaning {
    if key == "required" then FlagOrNothing(t.required)
    else if key == "mode" then TextOrNothing(t.mode)
    else if key == "key" then TextOrNothing(t.key)
    else if key == "issuer" then TextOrNothing(t.issuer)
    else if key == "identity" then TextOrNothing(t.identity)
    else if key == "identity_regex" then TextOrNothing(t.identityRegex)
    else Nothing
  }

  function RuleAt(rule: Rule, slot: Slot): Meaning {
    match slot
    case TagsSlot(key) => RuleTagsAt(rule.mutableTags, key)
    case ActionSlot(_, _) => Nothing
    case CosignSlot(key) => RuleCosignAt(rule.cosign, key)
    case MatchSlot => Text(rule.pattern)
  }

  // ---------------------------------------------------------------- policies and rules are their slots

  lemma {:induction false} SameTags(a: EffectivePolicy, b: EffectivePolicy)
    requires forall slot :: PolicyAt(a, slot) == PolicyAt(b, slot)
    ensures a.mutableTags == b.mutableTags
    ensures forall kind :: ActionIn(a, kind) == ActionIn(b, kind)
  {
    assert PolicyAt(a, TagsSlot("action")) == PolicyAt(b, TagsSlot("action"));
    assert PolicyAt(a, TagsSlot("min_digest_age")) == PolicyAt(b, TagsSlot("min_digest_age"));
    assert PolicyAt(a, TagsSlot("allow_first_seen_pull")) == PolicyAt(b, TagsSlot("allow_first_seen_pull"));
    forall kind ensures ActionIn(a, kind) == ActionIn(b, kind) {
      assert PolicyAt(a, ActionSlot(kind, "action")) == PolicyAt(b, ActionSlot(kind, "action"));
    }
  }

  lemma {:induction false} SameCosign(a: EffectivePolicy, b: EffectivePolicy)
    requires forall slot :: PolicyAt(a, slot) == PolicyAt(b, slot)
    ensures a.cosign == b.cosign
  {
    forall key ensures CosignAt(a.cosign, key) == CosignAt(b.cosign, key) {
      assert PolicyAt(a, CosignSlot(key)) == PolicyAt(b, CosignSlot(key));
    }
    assert CosignAt(a.cosign, "required") == CosignAt(b.cosign, "required");
    assert CosignAt(a.cosign, "mode") == CosignAt(b.cosign, "mode");
    assert CosignAt(a.cosign, "key") == CosignAt(b.cosign, "key");
    assert CosignAt(a.cosign, "issuer") == CosignAt(b.cosign, "issuer");
    assert CosignAt(a.cosign, "identity") == CosignAt(b.cosign, "identity");
    assert CosignAt(a.cosign, "identity_regex") == CosignAt(b.cosign, "identity_regex");
  }

  lemma {:induction false} PolicyIsItsSlots(a: EffectivePolicy, b: EffectivePolicy)
    ensures a == b <==> forall slot :: PolicyAt(a, slot) == PolicyAt(b, slot)
  {
    if forall slot :: PolicyAt(a, slot) == PolicyAt(b, slot) {
      SameTags(a, b);
      SameCosign(a, b);
      assert ActionIn(a, Pinned) == ActionIn(b, Pinned) && ActionIn(a, Resolution) == ActionIn(b, Resolution);
      assert ActionIn(a, Signature) == ActionIn(b, Signature);
    }
  }

  lemma {:induction false} SameRuleTags(a: RuleMutableTagPolicy, b: RuleMutableTagPolicy)
    requires forall key :: RuleTagsAt(a, key) == RuleTagsAt(b, key)
    ensures a == b
  {
    assert RuleTagsAt(a, "action") == RuleTagsAt(b, "action");
    assert RuleTagsAt(a, "min_digest_age") == RuleTagsAt(b, "min_digest_age");
    assert RuleTagsAt(a, "allow_first_seen_pull") == RuleTagsAt(b, "allow_first_seen_pull");
  }

  lemma {:induction false} SameRuleCosign(a: RuleCosignPolicy, b: RuleCosignPolicy)
    requires forall key :: RuleCosignAt(a, key) == RuleCosignAt(b, key)
    ensures a == b
  {
    assert RuleCosignAt(a, "required") == RuleCosignAt(b, "required");
    assert RuleCosignAt(a, "mode") == RuleCosignAt(b, "mode");
    assert RuleCosignAt(a, "key") == RuleCosignAt(b, "key");
    assert RuleCosignAt(a, "issuer") == RuleCosignAt(b, "issuer");
    assert RuleCosignAt(a, "identity") == RuleCosignAt(b, "identity");
    assert RuleCosignAt(a, "identity_regex") == RuleCosignAt(b, "identity_regex");
  }

  lemma {:induction false} RuleIsItsSlots(a: Rule, b: Rule)
    ensures a == b <==> forall slot :: RuleAt(a, slot) == RuleAt(b, slot)
  {
    if forall slot :: RuleAt(a, slot) == RuleAt(b, slot) {
      forall key ensures RuleTagsAt(a.mutableTags, key) == RuleTagsAt(b.mutableTags, key) {
        assert RuleAt(a, TagsSlot(key)) == RuleAt(b, TagsSlot(key));
      }
      forall key ensures RuleCosignAt(a.cosign, key) == RuleCosignAt(b.cosign, key) {
        assert RuleAt(a, CosignSlot(key)) == RuleAt(b, CosignSlot(key));
      }
      assert RuleAt(a, MatchSlot) == RuleAt(b, MatchSlot);
      SameRuleTags(a.mutableTags, b.mutableTags);
      SameRuleCosign(a.cosign, b.cosign);
    }
  }

  // ---------------------------------------------------------------- sections set their slots

  lemma {:induction false} LookupTyped(fields: seq<Field>, durations: DurationParser)
    requires MutableTagsTyped(fields, durations) && Lookup(fields, "min_digest_age").Some?
    ensures durations(Lookup(fields, "min_digest_age").value).Some?
  {
    var n := |fields| - 1;
    assert MutableTagTyped(fields[n], durations);
    if fields[n].key != "min_digest_age" {
      LookupTyped(fields[..n], durations);
    }
  }

  lemma {:induction false} SectionSetsPolicy(e: EffectivePolicy, s: PolicySection, slot: Slot,
                                             durations: DurationParser)
    requires SectionTyped(s, durations)
    ensures var said := SaidBy(s, slot);
            PolicyAt(PolicyOver(e, s, durations), slot)
            == if said.Some? then PolicyMeaning(slot, said.value, durations) else PolicyAt(e, slot)
  {
    if s.TagsSection? && Lookup(s.fields, "min_digest_age").Some? { LookupTyped(s.fields, durations); }
  }

  lemma {:induction false} SectionSetsRule(rule: Rule, s: PolicySection, slot: Slot, durations: DurationParser)
    requires SectionTyped(s, durations)
    ensures var said := SaidBy(s, slot);
            RuleAt(RuleOver(rule, s, durations), slot)
            == if said.Some? then RuleMeaning(slot, said.value, durations) else RuleAt(rule, slot)
  {
    if s.TagsSection? && Lookup(s.fields, "min_digest_age").Some? { LookupTyped(s.fields, durations); }
  }

  lemma {:induction false} SectionsSetPolicy(e: EffectivePolicy, sections: seq<PolicySection>, slot: Slot,
                                             durations: DurationParser)
    requires SectionsTyped(sections, durations)
    ensures var said := LastSaid(sections, slot);
            PolicyAt(PolicyOverAll(e, sections, durations), slot)
            == if said.Some? then PolicyMeaning(slot, said.value, durations) else PolicyAt(e, slot)
  {
    if sections != [] {
      var n := |sections| - 1;
      SectionsSetPolicy(e, sections[..n], slot, durations);
      SectionSetsPolicy(PolicyOverAll(e, sections[..n], durations), sections[n], slot, durations);
    }
  }

  lemma {:induction false} SectionsSetRule(rule: Rule, sections: seq<PolicySection>, slot: Slot,
                                           durations: DurationParser)
    requires SectionsTyped(sections, durations)
    ensures var said := LastSaid(sections, slot);
            RuleAt(RuleOverAll(rule, sections, durations), slot)
            == if said.Some? then RuleMeaning(slot, said.value, durations) else RuleAt(rule, slot)
  {
    if sections != [] {
      var n := |sections| - 1;
      SectionsSetRule(rule, sections[..n], slot, durations);
      SectionSetsRule(RuleOverAll(rule, sections[..n], durations), sections[n], slot, durations);
    }
  }

  lemma {:induction false} LastSaidConcat(a: seq<PolicySection>, b: seq<PolicySection>, slot: Slot)
    ensures LastSaid(a + b, slot) == Newer(LastSaid(b, slot), LastSaid(a, slot))
    decreases |b|
  {
    if b == [] {
      assert a + b == a;
    } else {
      LastSaidConcat(a, b[..|b| - 1], slot);
      assert (a + b)[..|a + b| - 1] == a + b[..|b| - 1];
    }
  }

  // ---------------------------------------------------------------- what a misplaced section changes

  /** The last section of the default policy that gives a value to the slot stands where a rule is open. */
  predicate LastMisplaced(doc: seq<Part>, slot: Slot) {
    doc != [] &&
      var n := |doc| - 1;
      if doc[n].DefaultPart? && LastSaid(doc[n].sections, slot).Some? then OpenAfter(doc[..n])
      else LastMisplaced(doc[..n], slot)
  }

  /** The sections of the default policy that the parser puts into each rule. */
  function Moved(doc: seq<Part>): seq<seq<PolicySection>> {
    if doc == [] then []
    else
      var n := |doc| - 1;
      var moved := Moved(doc[..n]);
      match doc[n]
      case RulesPart(rules) => moved + seq(|rules|, _ => [])
      case DefaultPart(sections) =>
        if OpenAfter(doc[..n]) && moved != [] then moved[|moved| - 1 := moved[|moved| - 1] + sections] else moved
      case _ => moved
  }

  /** The rules as read are the rules as written, each with the sections that were moved into it. */
  predicate Extended(written: seq<RuleDoc>, moved: seq<seq<PolicySection>>, read: seq<RuleDoc>) {
    && |written| == |moved| == |read|
    && forall i :: 0 <= i < |written| ==> read[i] == written[i].(sections := written[i].sections + moved[i])
  }

  lemma {:induction false} RulesAreExtended(doc: seq<Part>)
    ensures Extended(AsWritten(doc).rules, Moved(doc), AsRead(doc).rules)
  {
    if doc != [] {
      var n := |doc| - 1;
      RulesAreExtended(doc[..n]);
      if doc[n].RulesPart? {
        forall i | 0 <= i < |doc[n].rules| ensures doc[n].rules[i].sections + [] == doc[n].rules[i].sections { }
      } else if doc[n].DefaultPart? && OpenAfter(doc[..n]) {
        OpenMeansRules(doc[..n]);
        ExtendedOnceMore(AsWritten(doc[..n]).rules, Moved(doc[..n]), AsRead(doc[..n]), doc[n].sections);
      }
    }
  }

  lemma {:induction false} ExtendedOnceMore(written: seq<RuleDoc>, moved: seq<seq<PolicySection>>, read: Said,
                                            sections: seq<PolicySection>)
    requires Extended(written, moved, read.rules) && read.rules != []
    ensures var k := |moved| - 1;
            Extended(written, moved[k := moved[k] + sections], AddToLastRule(read, sections).rules)
  {
    var k := |moved| - 1;
    assert written[k].sections + moved[k] + sections == written[k].sections + (moved[k] + sections);
  }

  lemma {:induction false} RestIsSame(doc: seq<Part>)
    ensures AsRead(doc).top == AsWritten(doc).top
    ensures AsRead(doc).audit == AsWritten(doc).audit && AsRead(doc).state == AsWritten(doc).state
  {
    if doc != [] { RestIsSame(doc[..|doc| - 1]); }
  }

  /** What is read into the default policy are the sections in place; the others only matter if they say last. */
  lemma {:induction false} SaidInPlace(doc: seq<Part>, slot: Slot)
    ensures var read, written := LastSaid(AsRead(doc).policy, slot), LastSaid(AsWritten(doc).policy, slot);
            if LastMisplaced(doc, slot) then written.Some? else read == written
  {
    if doc != [] {
      var n := |doc| - 1;
      SaidInPlace(doc[..n], slot);
      OpenMeansRules(doc[..n]);
      if doc[n].DefaultPart? {
        LastSaidConcat(AsWritten(doc[..n]).policy, doc[n].sections, slot);
        LastSaidConcat(AsRead(doc[..n]).policy, doc[n].sections, slot);
      }
    }
  }

  // ---------------------------------------------------------------- all of it is typed

  lemma {:induction false} TypedConcat(a: seq<PolicySection>, b: seq<PolicySection>, durations: DurationParser)
    requires SectionsTyped(a, durations) && SectionsTyped(b, durations)
    ensures SectionsTyped(a + b, durations)
    decreases |b|
  {
    if b == [] {
      assert a + b == a;
    } else {
      TypedConcat(a, b[..|b| - 1], durations);
      assert (a + b)[..|a + b| - 1] == a + b[..|b| - 1];
    }
  }

  lemma {:induction false} PolicyTyped(doc: seq<Part>, durations: DurationParser)
    requires DocTyped(doc, durations)
    ensures SectionsTyped(AsWritten(doc).policy, durations) && SectionsTyped(AsRead(doc).policy, durations)
  {
    if doc != [] {
      var n := |doc| - 1;
      PolicyTyped(doc[..n], durations);
      if doc[n].DefaultPart? {
        TypedConcat(AsWritten(doc[..n]).policy, doc[n].sections, durations);
        TypedConcat(AsRead(doc[..n]).policy, doc[n].sections, durations);
      }
    }
  }

  lemma {:induction false} MovedTyped(doc: seq<Part>, durations: DurationParser)
    requires DocTyped(doc, durations)
    ensures forall i :: 0 <= i < |Moved(doc)| ==> SectionsTyped(Moved(doc)[i], durations)
  {
    if doc != [] {
      var n := |doc| - 1;
      MovedTyped(doc[..n], durations);
      var moved := Moved(doc[..n]);
      if doc[n].DefaultPart? && moved != [] {
        TypedConcat(moved[|moved| - 1], doc[n].sections, durations);
      }
    }
  }

  // ---------------------------------------------------------------- the loaded configuration

  /** What a misplaced section says last of a slot is not what the default policy, as it is read, has there. */
  predicate Loses(doc: seq<Part>, slot: Slot, durations: DurationParser) {
    var said := LastSaid(AsWritten(doc).policy, slot);
    && LastMisplaced(doc, slot) && said.Some?
    && PolicyMeaning(slot, said.value, durations)
       != PolicyAt(PolicyOverAll(NO_POLICY, AsRead(doc).policy, durations), slot)
  }

  /** What the sections say last of a slot is not what the rule says. */
  predicate Changes(moved: seq<PolicySection>, rule: Rule, slot: Slot, durations: DurationParser) {
    var said := LastSaid(moved, slot);
    said.Some? && RuleMeaning(slot, said.value, durations) != RuleAt(rule, slot)
  }

  /** The sections moved into rule `i` change something that the rule says itself, or add to it. */
  ghost predicate Gains(doc: seq<Part>, i: nat, durations: DurationParser) {
    && i < |Moved(doc)| && i < |AsWritten(doc).rules|
    && exists slot :: Changes(Moved(doc)[i], RuleOf(AsWritten(doc).rules[i], durations), slot, durations)
  }

  /** The misplaced sections say nothing that the default policy and the rules do not say anyway. */
  ghost predicate Harmless(doc: seq<Part>, durations: DurationParser) {
    && (forall slot :: !Loses(doc, slot, durations))
    && (forall i: nat :: !Gains(doc, i, durations))
  }

  lemma {:induction false} PolicyReadAsWrittenIff(doc: seq<Part>, durations: DurationParser)
    requires DocTyped(doc, durations)
    ensures ConfigOf(AsRead(doc), durations).defaultPolicy == ConfigOf(AsWritten(doc), durations).defaultPolicy
            <==> forall slot :: !Loses(doc, slot, durations)
  {
    var read := PolicyOverAll(NO_POLICY, AsRead(doc).policy, durations);
    var written := PolicyOverAll(NO_POLICY, AsWritten(doc).policy, durations);
    PolicyTyped(doc, durations);
    forall slot ensures PolicyAt(read, slot) != PolicyAt(written, slot) <==> Loses(doc, slot, durations) {
      SaidInPlace(doc, slot);
      SectionsSetPolicy(NO_POLICY, AsRead(doc).policy, slot, durations);
      SectionsSetPolicy(NO_POLICY, AsWritten(doc).policy, slot, durations);
    }
    PolicyIsItsSlots(read, written);
  }

  lemma {:induction false} RuleUnchangedIff(rule: Rule, moved: seq<PolicySection>, durations: DurationParser)
    requires SectionsTyped(moved, durations)
    ensures RuleOverAll(rule, moved, durations) == rule <==> forall slot :: !Changes(moved, rule, slot, durations)
  {
    forall slot
      ensures RuleAt(RuleOverAll(rule, moved, durations), slot) == RuleAt(rule, slot)
              <==> !Changes(moved, rule, slot, durations)
    {
      SectionsSetRule(rule, moved, slot, durations);
    }
    RuleIsItsSlots(RuleOverAll(rule, moved, durations), rule);
  }

  lemma {:induction false} RulesOfAt(rules: seq<RuleDoc>, i: nat, durations: DurationParser)
    requires i < |rules|
    ensures |RulesOf(rules, durations)| == |rules| && RulesOf(rules, durations)[i] == RuleOf(rules[i], durations)
  {
    RulesOfLength(rules, durations);
    if i < |rules| - 1 {
      RulesOfAt(rules[..|rules| - 1], i, durations);
    } else {
      RulesOfLength(rules[..i], durations);
    }
  }

  lemma {:induction false} RuleReadAsWrittenIff(doc: seq<Part>, i: nat, durations: DurationParser)
    requires DocTyped(doc, durations) && i < |AsWritten(doc).rules|
    ensures i < |AsRead(doc).rules|
    ensures RuleOf(AsRead(doc).rules[i], durations) == RuleOf(AsWritten(doc).rules[i], durations)
            <==> !Gains(doc, i, durations)
  {
    RulesAreExtended(doc);
    MovedTyped(doc, durations);
    SectionsAppended(AsWritten(doc).rules[i], Moved(doc)[i], durations);
    RuleUnchangedIff(RuleOf(AsWritten(doc).rules[i], durations), Moved(doc)[i], durations);
  }

  lemma {:induction false} SameRulesIff(read: seq<RuleDoc>, written: seq<RuleDoc>, durations: DurationParser)
    requires |read| == |written|
    ensures RulesOf(read, durations) == RulesOf(written, durations) <==>
            forall i :: 0 <= i < |read| ==> RuleOf(read[i], durations) == RuleOf(written[i], durations)
  {
    RulesOfLength(read, durations);
    RulesOfLength(written, durations);
    forall i | 0 <= i < |read|
      ensures RulesOf(read, durations)[i] == RuleOf(read[i], durations)
      ensures RulesOf(written, durations)[i] == RuleOf(written[i], durations)
    {
      RulesOfAt(read, i, durations);
      RulesOfAt(written, i, durations);
    }
  }

  lemma {:induction false} RulesReadAsWrittenIff(doc: seq<Part>, durations: DurationParser)
    requires DocTyped(doc, durations)
    ensures RulesOf(AsRead(doc).rules, durations) == RulesOf(AsWritten(doc).rules, durations)
            <==> forall i: nat :: !Gains(doc, i, durations)
  {
    var read, written := AsRead(doc).rules, AsWritten(doc).rules;
    RulesAreExtended(doc);
    SameRulesIff(read, written, durations);
    forall i | 0 <= i < |read|
      ensures RuleOf(read[i], durations) == RuleOf(written[i], durations) <==> !Gains(doc, i, durations)
    {
      RuleReadAsWrittenIff(doc, i, durations);
    }
  }

  /** The configuration is the one that was written if and only if the misplaced sections are harmless. */
  lemma {:induction false} ConfigReadAsWrittenIff(doc: seq<Part>, durations: DurationParser)
    requires DocTyped(doc, durations)
    ensures ConfigOf(AsRead(doc), durations) == ConfigOf(AsWritten(doc), durations) <==> Harmless(doc, durations)
  {
    RestIsSame(doc);
    PolicyReadAsWrittenIff(doc, durations);
    RulesReadAsWrittenIff(doc, durations);
  }

  /**
   Loading a well-typed file yields the configuration that was written if and only if that is valid and every
   section of the default policy that stands where a rule is open is harmless: of each setting, what the last such
   section says is what the default policy has without it, and what the rule says itself.
   */
  lemma {:induction false} LoadsAsWrittenIff(lines: seq<string>, doc: seq<Part>, durations: DurationParser)
    requires Writable(doc) && DocTyped(doc, durations) && Spelled(Significant(lines), DocLines(doc))
    ensures var c := ConfigOf(AsWritten(doc), durations);
            LoadLines(lines, durations) == Ok(c) <==> Validate(c).None? && Harmless(doc, durations)
  {
    FileIsRead(lines, doc, durations);
    ConfigReadAsWrittenIff(doc, durations);
  }

  /** In particular if there is no such section. */
  lemma {:induction false} OrderedIsHarmless(doc: seq<Part>, durations: DurationParser)
    requires InOrder(doc) && DocTyped(doc, durations)
    ensures Harmless(doc, durations)
  {
    PolicySectionsRead(doc);
    ConfigReadAsWrittenIff(doc, durations);
  }
}
