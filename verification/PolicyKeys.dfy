/** Every key of a policy file, by its name and place: which field it sets, in every state of the parser. */
module PolicyKeys {
  import opened Prelude
  import opened Text
  import opened Policy
  import opened PolicyLexer
  import opened PolicyParser

  /**
   What a line is, by its text without comment and white space: nothing, a list item, a section or an entry, cut at
   the first colon; or an error, if it has no colon, or nothing before it.
   */
  lemma {:induction false} LineIs(line: string)
    ensures var raw := Stripped(line);
            var t := TrimSpace(raw);
            if t == "" then Lex(line) == Blank
            else if |t| > 1 && t[0] == '-' && t[1] == ' ' then Lex(line) == Item(Spaces(raw), TrimSpace(t[2..]))
            else if ':' !in t then Lex(line) == Bad(ExpectedKeyValue)
            else
              var key, value := TrimSpace(t[..IndexOf(t, ':')]), TrimSpace(t[IndexOf(t, ':') + 1..]);
              if key == "" then Lex(line) == Bad(EmptyKey)
              else if value == "" then Lex(line) == Section(Spaces(raw), key)
              else Lex(line) == Entry(Spaces(raw), key, Unquoted(value))
  {
    var t := TrimSpace(Stripped(line));
    if |t| > 1 { assert t[..2] == [t[0], t[1]]; }
    if ':' !in t { IndexOfUnique(t, ':', |t|); }
  }

  /** A value without the quotes around it, if there are two of one kind. */
  function Unquoted(value: string): string {
    if |value| > 1 && value[0] == value[|value| - 1] && (value[0] == '"' || value[0] == '\'') then
      value[1..|value| - 1]
    else value
  }

  /** What becomes of a boolean: the two words, and nothing else. */
  function Switched(value: string, p: Parser, on: Config, off: Config, depth: int): Result<Parser, ParseError> {
    if value == "true" then Ok(Kept(p, on, depth))
    else if value == "false" then Ok(Kept(p, off, depth))
    else Err(BadBool)
  }

  /** The parser with another configuration; of its sections those above the line are left. */
  function Kept(p: Parser, c: Config, depth: int): Parser {
    p.(config := c, paths := map k | k in p.paths && k < depth :: p.paths[k])
  }

  /** The path of sections that the parser is in, two spaces a level. */
  predicate At(p: Parser, path: seq<string>) {
    forall i :: 0 <= i < |path| ==> 2 * i in p.paths && p.paths[2 * i] == path[i]
  }

  lemma {:induction false} AtLevels(p: Parser, path: seq<string>)
    requires At(p, path)
    ensures |path| > 0 ==> PathAt(p.paths, 0) == path[0]
    ensures |path| > 1 ==> PathAt(p.paths, 2) == path[1]
    ensures |path| > 2 ==> PathAt(p.paths, 4) == path[2]
    ensures |path| > 3 ==> PathAt(p.paths, 6) == path[3]
  {
    assert |path| > 0 ==> 2 * 0 in p.paths && p.paths[2 * 0] == path[0];
    assert |path| > 1 ==> 2 * 1 in p.paths && p.paths[2 * 1] == path[1];
    assert |path| > 2 ==> 2 * 2 in p.paths && p.paths[2 * 2] == path[2];
    assert |path| > 3 ==> 2 * 3 in p.paths && p.paths[2 * 3] == path[3];
  }

  /** A section header: its own level is set, deeper ones are gone, and the others and the configuration stay. */
  lemma {:induction false} HeaderIsRead(p: Parser, indent: nat, key: string, durations: DurationParser, level: int)
    requires InRange(p)
    ensures var r := Take(p, Section(indent, key), durations);
            && r.Ok? && r.value.config == p.config && r.value.currentRule == p.currentRule
            && PathAt(r.value.paths, level) == if level == indent then key
                                               else if level < indent then PathAt(p.paths, level)
                                               else ""
  {
  }

  function WithTags(c: Config, t: MutableTagPolicy): Config {
    c.(defaultPolicy := c.defaultPolicy.(mutableTags := t))
  }

  function WithCosign(c: Config, t: CosignPolicy): Config {
    c.(defaultPolicy := c.defaultPolicy.(cosign := t))
  }

  /** The tag settings of the default policy. */
  lemma {:induction false} DefaultTagsAreRead(p: Parser, value: string, durations: DurationParser)
    requires p.currentRule == -1 && At(p, ["default_policy", "mutable_tags"])
    ensures var c, t := p.config, p.config.defaultPolicy.mutableTags;
            && Take(p, Entry(4, "action", value), durations) == Ok(Kept(p, WithTags(c, t.(action := value)), 4))
            && Take(p, Entry(4, "min_digest_age", value), durations)
               == (match durations(value)
                   case None => Err(BadDuration)
                   case Some(d) => Ok(Kept(p, WithTags(c, t.(minDigestAge := d)), 4)))
            && Take(p, Entry(4, "allow_first_seen_pull", value), durations)
               == Switched(value, p, WithTags(c, t.(allowFirstSeenPull := true)),
                           WithTags(c, t.(allowFirstSeenPull := false)), 4)
  {
    AtLevels(p, ["default_policy", "mutable_tags"]);
  }

  /** The three actions of the default policy. */
  lemma {:induction false} DefaultActionsAreRead(p: Parser, section: string, value: string, durations: DurationParser)
    requires p.currentRule == -1 && At(p, ["default_policy", section])
    ensures var e := p.config.defaultPolicy;
            var r := Take(p, Entry(4, "action", value), durations);
            && (section == "digest_pinned_images" ==>
                  r == Ok(Kept(p, p.config.(defaultPolicy := e.(digestPinnedImages := value)), 4)))
            && (section == "failed_registry_resolution" ==>
                  r == Ok(Kept(p, p.config.(defaultPolicy := e.(failedRegistryResolution := value)), 4)))
            && (section == "failed_signature_check" ==>
                  r == Ok(Kept(p, p.config.(defaultPolicy := e.(failedSignatureCheck := value)), 4)))
  {
    AtLevels(p, ["default_policy", section]);
  }

  /** The signature settings of the default policy. */
  lemma {:induction false} DefaultCosignIsRead(p: Parser, value: string, durations: DurationParser)
    requires p.currentRule == -1 && At(p, ["default_policy", "signatures", "cosign"])
    ensures var c, t := p.config, p.config.defaultPolicy.cosign;
            && Take(p, Entry(6, "required", value), durations)
               == Switched(value, p, WithCosign(c, t.(required := true)), WithCosign(c, t.(required := false)), 6)
            && Take(p, Entry(6, "mode", value), durations) == Ok(Kept(p, WithCosign(c, t.(mode := value)), 6))
            && Take(p, Entry(6, "key", value), durations) == Ok(Kept(p, WithCosign(c, t.(key := value)), 6))
            && Take(p, Entry(6, "issuer", value), durations) == Ok(Kept(p, WithCosign(c, t.(issuer := value)), 6))
            && Take(p, Entry(6, "identity", value), durations) == Ok(Kept(p, WithCosign(c, t.(identity := value)), 6))
            && Take(p, Entry(6, "identity_regex", value), durations)
               == Ok(Kept(p, WithCosign(c, t.(identityRegex := value)), 6))
  {
    AtLevels(p, ["default_policy", "signatures", "cosign"]);
  }

  /** The version and the two paths with the backend. */
  lemma {:induction false} TopIsRead(p: Parser, value: string, durations: DurationParser)
    requires InRange(p)
    ensures Take(p, Entry(0, "version", value), durations)
            == match Atoi(value)
               case None => Err(BadVersion)
               case Some(n) => Ok(Kept(p, p.config.(version := n), 0).(currentRule := -1))
    ensures At(p, ["audit"]) ==>
              Take(p, Entry(2, "path", value), durations) == Ok(Kept(p, p.config.(auditPath := value), 2))
    ensures At(p, ["state"]) ==>
              && Take(p, Entry(2, "backend", value), durations) == Ok(Kept(p, p.config.(stateBackend := value), 2))
              && Take(p, Entry(2, "path", value), durations) == Ok(Kept(p, p.config.(statePath := value), 2))
  {
    if At(p, ["audit"]) { AtLevels(p, ["audit"]); }
    if At(p, ["state"]) { AtLevels(p, ["state"]); }
  }

  // ---------------------------------------------------------------- numbers

  predicate Numeral(s: string) {
    s != "" && forall i :: 0 <= i < |s| ==> '0' <= s[i] <= '9'
  }

  /** The value of a numeral, digit by digit. */
  function Valued(s: string): int {
    if s == "" then 0 else 10 * Valued(s[..|s| - 1]) + (s[|s| - 1] as int - '0' as int)
  }

  lemma {:induction false} DigitsIff(s: string)
    ensures Digits(s).Some? <==> forall i :: 0 <= i < |s| ==> '0' <= s[i] <= '9'
    ensures Digits(s).Some? ==> Digits(s).value == Valued(s)
  {
    if s != "" {
      DigitsIff(s[..|s| - 1]);
      assert s == s[..|s| - 1] + [s[|s| - 1]];
    }
  }

  /** An integer: a numeral, perhaps after a sign, that 64 bits hold. */
  lemma {:induction false} AtoiIff(s: string, n: int)
    ensures Atoi(s) == Some(n) <==>
            && -0x8000_0000_0000_0000 <= n <= 0x7FFF_FFFF_FFFF_FFFF
            && (|| (Numeral(s) && n == Valued(s))
                || (s != "" && s[0] == '+' && Numeral(s[1..]) && n == Valued(s[1..]))
                || (s != "" && s[0] == '-' && Numeral(s[1..]) && n == -Valued(s[1..])))
  {
    DigitsIff(s);
    if s != "" { DigitsIff(s[1..]); }
  }

  // ---------------------------------------------------------------- rules

  function WithLastRule(p: Parser, rule: Rule): Config
    requires 0 <= p.currentRule < |p.config.rules|
  {
    p.config.(rules := p.config.rules[p.currentRule := rule])
  }

  /** An item below `rules` opens a rule with the pattern that it names, and nothing else in it. */
  lemma {:induction false} ItemIsRead(p: Parser, text: string, raw: string, durations: DurationParser)
    requires InRange(p) && At(p, ["rules"]) && SplitKeyValue(text) == Ok(KeyValue("match", raw)) && text != ""
    ensures var rule := Rule(ParseScalar(raw), RuleMutableTagPolicy(None, None, None),
                             RuleCosignPolicy(None, None, None, None, None, None));
            Take(p, Item(2, text), durations)
            == Ok(p.(config := p.config.(rules := p.config.rules + [rule]), currentRule := |p.config.rules|))
  {
    AtLevels(p, ["rules"]);
    var longer := p.config.rules + [NO_RULE];
    var rule := NO_RULE.(pattern := ParseScalar(raw));
    assert longer[|p.config.rules| := rule] == p.config.rules + [rule];
  }

  /** An item elsewhere means nothing. */
  lemma {:induction false} OtherItemIsIgnored(p: Parser, indent: nat, text: string, durations: DurationParser)
    requires InRange(p) && !(indent - 2 in p.paths && p.paths[indent - 2] == "rules")
    ensures Take(p, Item(indent, text), durations) == Ok(p)
  {
  }

  /** The tag settings of a rule. */
  lemma {:induction false} RuleTagsAreRead(p: Parser, value: string, durations: DurationParser)
    requires 0 <= p.currentRule < |p.config.rules|
    requires 4 in p.paths && p.paths[4] == "mutable_tags"
    ensures var rule := p.config.rules[p.currentRule];
            var t := rule.mutableTags;
            && Take(p, Entry(6, "action", value), durations)
               == Ok(Kept(p, WithLastRule(p, rule.(mutableTags := t.(action := Some(value)))), 6))
            && Take(p, Entry(6, "min_digest_age", value), durations)
               == (match durations(value)
                   case None => Err(BadDuration)
                   case Some(d) => Ok(Kept(p, WithLastRule(p, rule.(mutableTags := t.(minDigestAge := Some(d)))), 6)))
            && Take(p, Entry(6, "allow_first_seen_pull", value), durations)
               == Switched(value, p, WithLastRule(p, rule.(mutableTags := t.(allowFirstSeenPull := Some(true)))),
                           WithLastRule(p, rule.(mutableTags := t.(allowFirstSeenPull := Some(false)))), 6)
  {
  }

  /** The signature settings of a rule. */
  lemma {:induction false} RuleCosignIsRead(p: Parser, value: string, durations: DurationParser)
    requires 0 <= p.currentRule < |p.config.rules|
    requires 4 in p.paths && p.paths[4] == "signatures" && 6 in p.paths && p.paths[6] == "cosign"
    ensures var rule := p.config.rules[p.currentRule];
            var t := rule.cosign;
            && Take(p, Entry(8, "required", value), durations)
               == Switched(value, p, WithLastRule(p, rule.(cosign := t.(required := Some(true)))),
                           WithLastRule(p, rule.(cosign := t.(required := Some(false)))), 8)
            && Take(p, Entry(8, "mode", value), durations)
               == Ok(Kept(p, WithLastRule(p, rule.(cosign := t.(mode := Some(value)))), 8))
            && Take(p, Entry(8, "key", value), durations)
               == Ok(Kept(p, WithLastRule(p, rule.(cosign := t.(key := Some(value)))), 8))
            && Take(p, Entry(8, "issuer", value), durations)
               == Ok(Kept(p, WithLastRule(p, rule.(cosign := t.(issuer := Some(value)))), 8))
            && Take(p, Entry(8, "identity", value), durations)
               == Ok(Kept(p, WithLastRule(p, rule.(cosign := t.(identity := Some(value)))), 8))
            && Take(p, Entry(8, "identity_regex", value), durations)
               == Ok(Kept(p, WithLastRule(p, rule.(cosign := t.(identityRegex := Some(value)))), 8))
  {
  }
}
