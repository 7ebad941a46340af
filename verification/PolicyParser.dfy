/**
 The indentation-stack parser of internal/policy/config.go: what each line does to the parser's state,
 and the parser itself as a class over that state.
 */
module PolicyParser {
  import opened Prelude
  import opened Text
  import opened Policy
  import opened PolicyLexer

  /** `ParseDuration`, which is not part of this model. */
  type DurationParser = string -> Option<Duration>

  const NO_COSIGN := CosignPolicy(false, "", "", "", "", "")
  const NO_POLICY := EffectivePolicy(MutableTagPolicy("", 0, false), "", "", "", NO_COSIGN)
  const NO_CONFIG := Config(0, NO_POLICY, [], "", "", "")
  const NO_RULE := Rule("", RuleMutableTagPolicy(None, None, None),
                        RuleCosignPolicy(None, None, None, None, None, None))

  // ---------------------------------------------------------------- setters

  /** `strconv.Atoi` on a 64-bit platform. */
  function Digits(s: string): Option<nat> {
    if s == "" then Some(0)
    else
      var high := Digits(s[..|s| - 1]);
      var c := s[|s| - 1];
      if high.None? || !('0' <= c <= '9') then None else Some(10 * high.value + (c - '0') as nat)
  }

  function Atoi(s: string): Option<int> {
    var signed := s != "" && (s[0] == '-' || s[0] == '+');
    var digits := if signed then s[1..] else s;
    var n := Digits(digits);
    if digits == "" || n.None? then None
    else
      var magnitude: int := n.value;
      var value := if signed && s[0] == '-' then -magnitude else magnitude;
      if -MAX_INT64 - 1 <= value <= MAX_INT64 then Some(value) else None
  }

  function SetMutableTags(t: MutableTagPolicy, key: string, value: string, durations: DurationParser)
    : Result<MutableTagPolicy, ParseError>
  {
    if key == "action" then Ok(t.(action := value))
    else if key == "min_digest_age" then
      var d := durations(value);
      if d.None? then Err(BadDuration) else Ok(t.(minDigestAge := d.value))
    else if key == "allow_first_seen_pull" then
      var b := ParseBool(value);
      if b.Err? then Err(BadBool) else Ok(t.(allowFirstSeenPull := b.value))
    else Ok(t)
  }

  function SetRuleMutableTags(t: RuleMutableTagPolicy, key: string, value: string, durations: DurationParser)
    : Result<RuleMutableTagPolicy, ParseError>
  {
    if key == "action" then Ok(t.(action := Some(value)))
    else if key == "min_digest_age" then
      var d := durations(value);
      if d.None? then Err(BadDuration) else Ok(t.(minDigestAge := d))
    else if key == "allow_first_seen_pull" then
      var b := ParseBool(value);
      if b.Err? then Err(BadBool) else Ok(t.(allowFirstSeenPull := Some(b.value)))
    else Ok(t)
  }

  function SetCosign(t: CosignPolicy, key: string, value: string): Result<CosignPolicy, ParseError> {
    if key == "required" then
      var b := ParseBool(value);
      if b.Err? then Err(BadBool) else Ok(t.(required := b.value))
    else if key == "mode" then Ok(t.(mode := value))
    else if key == "key" then Ok(t.(key := value))
    else if key == "issuer" then Ok(t.(issuer := value))
    else if key == "identity" then Ok(t.(identity := value))
    else if key == "identity_regex" then Ok(t.(identityRegex := value))
    else Ok(t)
  }

  function SetRuleCosign(t: RuleCosignPolicy, key: string, value: string): Result<RuleCosignPolicy, ParseError> {
    if key == "required" then
      var b := ParseBool(value);
      if b.Err? then Err(BadBool) else Ok(t.(required := Some(b.value)))
    else if key == "mode" then Ok(t.(mode := Some(value)))
    else if key == "key" then Ok(t.(key := Some(value)))
    else if key == "issuer" then Ok(t.(issuer := Some(value)))
    else if key == "identity" then Ok(t.(identity := Some(value)))
    else if key == "identity_regex" then Ok(t.(identityRegex := Some(value)))
    else Ok(t)
  }

  // ---------------------------------------------------------------- the parser's state

  datatype Parser = Parser(config: Config, paths: map<int, string>, currentRule: int)

  const START := Parser(NO_CONFIG, map[], -1)

  predicate InRange(p: Parser) {
    -1 <= p.currentRule < |p.config.rules|
  }

  /** A missing entry of a Go map reads as the empty string. */
  function PathAt(paths: map<int, string>, indent: int): string {
    if indent in paths then paths[indent] else ""
  }

  function ClearDeeper(paths: map<int, string>, indent: int): map<int, string> {
    map k | k in paths && k < indent :: paths[k]
  }

  function WithPolicy(p: Parser, policy: EffectivePolicy): Parser {
    p.(config := p.config.(defaultPolicy := policy))
  }

  function WithRule(p: Parser, rule: Rule): Parser
    requires 0 <= p.currentRule < |p.config.rules|
  {
    p.(config := p.config.(rules := p.config.rules[p.currentRule := rule]))
  }

  function SetRuleField(rule: Rule, paths: map<int, string>, indent: int, key: string, value: string,
                        durations: DurationParser): Result<Rule, ParseError>
  {
    if key == "match" then Ok(rule.(pattern := value))
    else if PathAt(paths, indent - 2) == "mutable_tags" then
      var t := SetRuleMutableTags(rule.mutableTags, key, value, durations);
      if t.Err? then Err(t.error) else Ok(rule.(mutableTags := t.value))
    else if PathAt(paths, indent - 4) == "signatures" && PathAt(paths, indent - 2) == "cosign" then
      var t := SetRuleCosign(rule.cosign, key, value);
      if t.Err? then Err(t.error) else Ok(rule.(cosign := t.value))
    else Ok(rule)
  }

  function SetRuleValue(p: Parser, indent: int, key: string, value: string, durations: DurationParser)
    : Result<Parser, ParseError>
    requires 0 <= p.currentRule < |p.config.rules|
  {
    var rule := SetRuleField(p.config.rules[p.currentRule], p.paths, indent, key, value, durations);
    if rule.Err? then Err(rule.error) else Ok(WithRule(p, rule.value))
  }

  function SetDefaultPolicy(e: EffectivePolicy, paths: map<int, string>, key: string, value: string,
                            durations: DurationParser): Result<EffectivePolicy, ParseError>
  {
    var section := PathAt(paths, 2);
    if section == "mutable_tags" then
      var t := SetMutableTags(e.mutableTags, key, value, durations);
      if t.Err? then Err(t.error) else Ok(e.(mutableTags := t.value))
    else if section == "digest_pinned_images" && key == "action" then Ok(e.(digestPinnedImages := value))
    else if section == "failed_registry_resolution" && key == "action" then Ok(e.(failedRegistryResolution := value))
    else if section == "failed_signature_check" && key == "action" then Ok(e.(failedSignatureCheck := value))
    else if section == "signatures" && PathAt(paths, 4) == "cosign" then
      var t := SetCosign(e.cosign, key, value);
      if t.Err? then Err(t.error) else Ok(e.(cosign := t.value))
    else Ok(e)
  }

  /** The sections `audit` and `state`, with one level of keys. */
  function SetPath(c: Config, section: string, key: string, value: string): Config {
    if section == "audit" && key == "path" then c.(auditPath := value)
    else if section == "state" && key == "backend" then c.(stateBackend := value)
    else if section == "state" && key == "path" then c.(statePath := value)
    else c
  }

  function SetTopLevel(p: Parser, indent: int, key: string, value: string, durations: DurationParser)
    : Result<Parser, ParseError>
  {
    if indent == 0 && key == "version" then
      var n := Atoi(value);
      if n.None? then Err(BadVersion) else Ok(p.(config := p.config.(version := n.value)))
    else if PathAt(p.paths, 0) == "default_policy" then
      var e := SetDefaultPolicy(p.config.defaultPolicy, p.paths, key, value, durations);
      if e.Err? then Err(e.error) else Ok(WithPolicy(p, e.value))
    else Ok(p.(config := SetPath(p.config, PathAt(p.paths, 0), key, value)))
  }

  function SetValue(p: Parser, indent: int, key: string, value: string, durations: DurationParser)
    : Result<Parser, ParseError>
    requires InRange(p)
  {
    if p.currentRule >= 0 && indent > 2 then SetRuleValue(p, indent, key, value, durations)
    else SetTopLevel(p, indent, key, value, durations)
  }

  function AddRule(p: Parser): Parser {
    p.(config := p.config.(rules := p.config.rules + [NO_RULE]), currentRule := |p.config.rules|)
  }

  function ListItem(p: Parser, indent: int, text: string, durations: DurationParser): Result<Parser, ParseError>
    requires InRange(p)
  {
    if PathAt(p.paths, indent - 2) != "rules" then Ok(p)
    else if text == "" then Ok(AddRule(p))
    else
      match SplitKeyValue(text)
      case Err(e) => Err(e)
      case Ok(kv) => SetRuleValue(AddRule(p), indent + 2, kv.key, ParseScalar(kv.value), durations)
  }

  /** One line, already lexed. */
  function Take(p: Parser, token: Token, durations: DurationParser): Result<Parser, ParseError>
    requires InRange(p)
  {
    match token
    case Blank => Ok(p)
    case Bad(e) => Err(e)
    case Section(indent, key) => Ok(p.(paths := ClearDeeper(p.paths, indent)[indent := key]))
    case Item(indent, text) => ListItem(p, indent, text, durations)
    case Entry(indent, key, value) =>
      var cleared := p.(paths := ClearDeeper(p.paths, indent),
                        currentRule := if indent == 0 then -1 else p.currentRule);
      SetValue(cleared, indent, key, value, durations)
  }

  lemma {:induction false} TakeInRange(p: Parser, token: Token, durations: DurationParser)
    requires InRange(p)
    ensures Take(p, token, durations).Ok? ==> InRange(Take(p, token, durations).value)
  {
  }

  /** All lines in order, up to the first error. */
  function Feed(p: Parser, tokens: seq<Token>, durations: DurationParser): (r: Result<Parser, ParseError>)
    requires InRange(p)
    ensures r.Ok? ==> InRange(r.value)
    decreases |tokens|
  {
    if tokens == [] then Ok(p)
    else
      match Feed(p, tokens[..|tokens| - 1], durations)
      case Err(e) => Err(e)
      case Ok(q) => TakeInRange(q, tokens[|tokens| - 1], durations); Take(q, tokens[|tokens| - 1], durations)
  }

  function Lexed(lines: seq<string>): seq<Token> {
    if lines == [] then [] else Lexed(lines[..|lines| - 1]) + [Lex(lines[|lines| - 1])]
  }

  // ---------------------------------------------------------------- the parser as the source has it

  class YamlPolicyParser {
    var config: Config
    var paths: map<int, string>
    var currentRule: int
    const durations: DurationParser

    constructor (durations: DurationParser)
      ensures State() == START && this.durations == durations
    {
      config := NO_CONFIG;
      paths := map[];
      currentRule := -1;
      this.durations := durations;
    }

    ghost function State(): Parser
      reads this
    {
      Parser(config, paths, currentRule)
    }

    /** Reads all lines; stops at the first error. */
    method Parse(lines: seq<string>) returns (failure: Option<ParseError>)
      requires State() == START
      modifies this
      ensures match Feed(START, Lexed(lines), durations)
              case Ok(p) => failure.None? && State() == p
              case Err(e) => failure == Some(e)
    {
      currentRule := -1;
      for i := 0 to |lines|
        invariant Feed(START, Lexed(lines[..i]), durations) == Ok(State())
      {
        FeedOneMore(lines, i, durations);
        failure := ParseLine(lines[i]);
        if failure.Some? {
          FeedStopsAtError(lines, i + 1, durations);
          return;
        }
      }
      assert lines[..|lines|] == lines;
      failure := None;
    }

    method ParseLine(line: string) returns (failure: Option<ParseError>)
      requires InRange(State())
      modifies this
      ensures match Take(old(State()), Lex(line), durations)
              case Ok(p) => failure.None? && State() == p
              case Err(e) => failure == Some(e)
    {
      var raw := StripComment(line);
      StrippedUnique(line, raw);
      var trimmed := TrimSpace(raw);
      if trimmed == "" { return None; }
      var indent := LeadingSpaces(raw);
      if HasPrefix(trimmed, "- ") {
        failure := ParseListItem(indent, TrimSpace(trimmed[2..]));
        return;
      }
      var kv := SplitKeyValue(trimmed);
      if kv.Err? { return Some(kv.error); }
      Clear(indent);
      if kv.value.value == "" {
        paths := paths[indent := kv.value.key];
        return None;
      }
      if indent == 0 { currentRule := -1; }
      failure := Set(indent, kv.value.key, ParseScalar(kv.value.value));
    }

    method ParseListItem(indent: int, item: string) returns (failure: Option<ParseError>)
      requires InRange(State())
      modifies this
      ensures match ListItem(old(State()), indent, item, durations)
              case Ok(p) => failure.None? && State() == p
              case Err(e) => failure == Some(e)
    {
      if PathAt(paths, indent - 2) != "rules" { return None; }
      config := config.(rules := config.rules + [NO_RULE]);
      currentRule := |config.rules| - 1;
      if item == "" { return None; }
      var kv := SplitKeyValue(item);
      if kv.Err? { return Some(kv.error); }
      failure := SetInRule(indent + 2, kv.value.key, ParseScalar(kv.value.value));
    }

    method Set(indent: int, key: string, value: string) returns (failure: Option<ParseError>)
      requires InRange(State())
      modifies this
      ensures match SetValue(old(State()), indent, key, value, durations)
              case Ok(p) => failure.None? && State() == p
              case Err(e) => failure == Some(e)
    {
      if currentRule >= 0 && indent > 2 {
        failure := SetInRule(indent, key, value);
        return;
      }
      if indent == 0 && key == "version" {
        var n := Atoi(value);
        if n.None? { return Some(BadVersion); }
        config := config.(version := n.value);
      } else if PathAt(paths, 0) == "default_policy" {
        var e := SetDefaultPolicy(config.defaultPolicy, paths, key, value, durations);
        if e.Err? { return Some(e.error); }
        config := config.(defaultPolicy := e.value);
      } else {
        config := SetPath(config, PathAt(paths, 0), key, value);
      }
      failure := None;
    }

    method SetInRule(indent: int, key: string, value: string) returns (failure: Option<ParseError>)
      requires 0 <= currentRule < |config.rules|
      modifies this
      ensures match SetRuleValue(old(State()), indent, key, value, durations)
              case Ok(p) => failure.None? && State() == p
              case Err(e) => failure == Some(e)
    {
      var rule := SetRuleField(config.rules[currentRule], paths, indent, key, value, durations);
      if rule.Err? { return Some(rule.error); }
      config := config.(rules := config.rules[currentRule := rule.value]);
      failure := None;
    }

    /** The loop over the map, deleting as it goes. */
    method Clear(indent: int)
      modifies `paths
      ensures paths == ClearDeeper(old(paths), indent)
    {
      var todo := paths.Keys;
      while todo != {}
        invariant forall k :: k in paths <==> k in old(paths) && (k < indent || k in todo)
        invariant forall k :: k in paths ==> paths[k] == old(paths)[k]
        decreases |todo|
      {
        SomeElement(todo);
        var existing :| existing in todo;
        if existing >= indent { paths := paths - {existing}; }
        todo := todo - {existing};
      }
      var cleared := ClearDeeper(old(paths), indent);
      assert forall k :: k in paths <==> k in cleared;
      assert paths == cleared;
    }
  }

  lemma {:induction false} FeedOneMore(lines: seq<string>, i: nat, durations: DurationParser)
    requires i < |lines|
    ensures Lexed(lines[..i + 1]) == Lexed(lines[..i]) + [Lex(lines[i])]
    ensures Feed(START, Lexed(lines[..i + 1]), durations) ==
            match Feed(START, Lexed(lines[..i]), durations)
            case Err(e) => Err(e)
            case Ok(p) => Take(p, Lex(lines[i]), durations)
  {
    var before, now := Lexed(lines[..i]), Lexed(lines[..i + 1]);
    assert lines[..i + 1][..i] == lines[..i];
    assert now[..|now| - 1] == before;
  }

  lemma {:induction false} FeedStopsAtError(lines: seq<string>, i: nat, durations: DurationParser)
    requires i <= |lines| && Feed(START, Lexed(lines[..i]), durations).Err?
    ensures Feed(START, Lexed(lines), durations) == Feed(START, Lexed(lines[..i]), durations)
    decreases |lines| - i
  {
    if i < |lines| {
      FeedOneMore(lines, i, durations);
      FeedStopsAtError(lines, i + 1, durations);
    } else {
      assert lines[..i] == lines;
    }
  }
}
