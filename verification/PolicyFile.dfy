/** Policy files as text: comments and blank lines change nothing, and each line is read as what it spells. */
module PolicyFile {
  import opened Prelude
  import opened Text
  import opened Policy
  import opened PolicyLexer
  import opened PolicyLines
  import opened PolicyParser
  import opened PolicyLayout

  datatype LoadError = Unreadable(error: ParseError) | Invalid(invalid: ConfigError)

  function LoadLines(lines: seq<string>, durations: DurationParser): Result<Config, LoadError> {
    match Feed(START, Lexed(lines), durations)
    case Err(e) => Err(Unreadable(e))
    case Ok(p) =>
      match Validate(p.config)
      case Some(e) => Err(Invalid(e))
      case None => Ok(p.config)
  }

  method Load(lines: seq<string>, durations: DurationParser) returns (r: Result<Config, LoadError>)
    ensures r == LoadLines(lines, durations)
  {
    var parser := new YamlPolicyParser(durations);
    var failure := parser.Parse(lines);
    if failure.Some? { return Err(Unreadable(failure.value)); }
    var invalid := Validate(parser.config);
    if invalid.Some? { return Err(Invalid(invalid.value)); }
    r := Ok(parser.config);
  }

  // ---------------------------------------------------------------- blank lines and comments

  /** The lines that say something. */
  function Significant(lines: seq<string>): seq<string> {
    if lines == [] then []
    else
      var before := Significant(lines[..|lines| - 1]);
      if Lex(lines[|lines| - 1]) == Blank then before else before + [lines[|lines| - 1]]
  }

  lemma {:induction false} LexedAppend(lines: seq<string>, line: string)
    ensures Lexed(lines + [line]) == Lexed(lines) + [Lex(line)]
  {
    assert (lines + [line])[..|lines|] == lines;
  }

  lemma {:induction false} FeedAppend(p: Parser, tokens: seq<Token>, token: Token, durations: DurationParser)
    requires InRange(p)
    ensures Feed(p, tokens + [token], durations)
            == match Feed(p, tokens, durations)
               case Err(e) => Err(e)
               case Ok(q) => Take(q, token, durations)
  {
    assert (tokens + [token])[..|tokens|] == tokens;
  }

  lemma {:induction false} BlankLinesIgnored(lines: seq<string>, durations: DurationParser)
    ensures Feed(START, Lexed(lines), durations) == Feed(START, Lexed(Significant(lines)), durations)
  {
    if lines != [] {
      var n := |lines| - 1;
      BlankLinesIgnored(lines[..n], durations);
      FeedAppend(START, Lexed(lines[..n]), Lex(lines[n]), durations);
      if Lex(lines[n]) != Blank {
        LexedAppend(Significant(lines[..n]), lines[n]);
        FeedAppend(START, Lexed(Significant(lines[..n])), Lex(lines[n]), durations);
      }
    }
  }

  /** A line of white space followed by a comment says nothing. */
  lemma {:induction false} CommentIsBlank(indent: nat, comment: string)
    ensures Lex(Pad(indent) + ['#'] + comment) == Blank
  {
    var line := Pad(indent) + ['#'] + comment;
    assert line[..indent] == Pad(indent);
    QuietKeepsQuotes(NO_QUOTES, Pad(indent));
    StrippedUnique(line, Pad(indent));
    TrimLeftSpaces(Pad(indent), "");
    assert Pad(indent) + "" == Pad(indent);
  }

  // ---------------------------------------------------------------- the text of a document

  /** The texts spell the lines, one by one, with white space or comments behind any of them. */
  predicate Spelled(texts: seq<string>, lines: seq<Line>) {
    |texts| == |lines| && forall i :: 0 <= i < |lines| ==> Spells(texts[i], lines[i])
  }

  predicate AllLinesOk(lines: seq<Line>) {
    forall i :: 0 <= i < |lines| ==> LineOk(lines[i])
  }

  lemma {:induction false} LexesDocument(texts: seq<string>, lines: seq<Line>)
    requires AllLinesOk(lines) && Spelled(texts, lines)
    ensures Lexed(texts) == Tokens(lines)
  {
    if lines != [] {
      var n := |lines| - 1;
      LexesDocument(texts[..n], lines[..n]);
      LexesLine(texts[n], lines[n]);
    }
  }

  /** The lines without anything behind them. */
  function Written(lines: seq<Line>): seq<string> {
    seq(|lines|, i requires 0 <= i < |lines| => LineText(lines[i]))
  }

  lemma {:induction false} WrittenIsSpelled(lines: seq<Line>)
    ensures Spelled(Written(lines), lines)
  {
    forall i | 0 <= i < |lines| ensures Spells(Written(lines)[i], lines[i]) {
      var text := LineText(lines[i]);
      assert text[..|text|] == text && text[|text|..] == "";
    }
  }

  lemma {:induction false} AllSignificant(texts: seq<string>)
    requires Blank !in Lexed(texts)
    ensures Significant(texts) == texts
  {
    if texts != [] {
      var n := |texts| - 1;
      assert Lexed(texts) == Lexed(texts[..n]) + [Lex(texts[n])];
      assert Lex(texts[n]) in Lexed(texts);
      AllSignificant(texts[..n]);
      assert texts == texts[..n] + [texts[n]];
    }
  }

  lemma {:induction false} LinesSay(lines: seq<Line>)
    ensures Blank !in Tokens(lines)
  {
    if lines != [] {
      LinesSay(lines[..|lines| - 1]);
    }
  }

  /** Texts that spell lines of the layout all say something. */
  lemma {:induction false} SpelledIsSignificant(texts: seq<string>, lines: seq<Line>)
    requires AllLinesOk(lines) && Spelled(texts, lines)
    ensures Significant(texts) == texts
  {
    LexesDocument(texts, lines);
    LinesSay(lines);
    AllSignificant(texts);
  }

  predicate FieldOk(f: Field) {
    KeyOk(f.key) && ScalarOk(f.value)
  }

  predicate FieldsOk(fields: seq<Field>) {
    forall i :: 0 <= i < |fields| ==> FieldOk(fields[i])
  }

  predicate SectionsOk(sections: seq<PolicySection>) {
    forall i :: 0 <= i < |sections| ==> FieldsOk(sections[i].fields)
  }

  predicate RuleOk(rule: RuleDoc) {
    ScalarOk(rule.pattern) && SectionsOk(rule.sections)
  }

  predicate RulesOk(rules: seq<RuleDoc>) {
    forall i :: 0 <= i < |rules| ==> RuleOk(rules[i])
  }

  predicate PartOk(part: Part) {
    match part
    case TopPart(field) => FieldOk(field)
    case DefaultPart(sections) => SectionsOk(sections)
    case RulesPart(rules) => RulesOk(rules)
    case AuditPart(fields) => FieldsOk(fields)
    case StatePart(fields) => FieldsOk(fields)
  }

  /** Keys are words, and values are bare or free of their quotes and of line ends. */
  predicate Writable(doc: seq<Part>) {
    forall i :: 0 <= i < |doc| ==> PartOk(doc[i])
  }

  lemma {:induction false} LinesOkConcat(a: seq<Line>, b: seq<Line>)
    requires AllLinesOk(a) && AllLinesOk(b)
    ensures AllLinesOk(a + b)
  {
  }

  lemma {:induction false} PairsOk(indent: nat, fields: seq<Field>)
    requires FieldsOk(fields)
    ensures AllLinesOk(Pairs(indent, fields))
  {
    if fields != [] {
      PairsOk(indent, fields[..|fields| - 1]);
    }
  }

  lemma {:induction false} BlockOk(indent: nat, header: string, fields: seq<Field>)
    requires KeyOk(header) && FieldsOk(fields)
    ensures AllLinesOk(Block(indent, header, fields))
  {
    PairsOk(indent + 2, fields);
  }

  predicate Word(key: string) {
    key != "" && forall i :: 0 <= i < |key| ==> 'a' <= key[i] <= 'z' || key[i] == '_'
  }

  lemma {:induction false} WordOk(key: string)
    requires Word(key)
    ensures KeyOk(key)
  {
  }

  lemma {:induction false} ShortWordsOk()
    ensures KeyOk("rules") && KeyOk("match") && KeyOk("audit") && KeyOk("state")
  {
    WordOk("rules");
    WordOk("match");
    WordOk("audit");
    WordOk("state");
  }

  lemma {:induction false} SectionWordsOk()
    ensures KeyOk("default_policy") && KeyOk("mutable_tags") && KeyOk("signatures") && KeyOk("cosign")
  {
    WordOk("default_policy");
    WordOk("mutable_tags");
    WordOk("signatures");
    WordOk("cosign");
  }

  lemma {:induction false} ActionWordsOk()
    ensures KeyOk(HeaderOf(Pinned)) && KeyOk(HeaderOf(Resolution)) && KeyOk(HeaderOf(Signature))
  {
    WordOk(HeaderOf(Pinned));
    WordOk(HeaderOf(Resolution));
    WordOk(HeaderOf(Signature));
  }

  lemma {:induction false} SectionOk(indent: nat, s: PolicySection)
    requires FieldsOk(s.fields)
    ensures AllLinesOk(SectionLines(indent, s))
  {
    SectionWordsOk();
    ActionWordsOk();
    match s
    case TagsSection(fields) => BlockOk(indent, "mutable_tags", fields);
    case ActionSection(kind, fields) => BlockOk(indent, HeaderOf(kind), fields);
    case CosignSection(fields) => BlockOk(indent + 2, "cosign", fields);
  }

  lemma {:induction false} SectionsLinesOk(indent: nat, sections: seq<PolicySection>)
    requires SectionsOk(sections)
    ensures AllLinesOk(SectionsLines(indent, sections))
  {
    if sections != [] {
      var n := |sections| - 1;
      SectionsLinesOk(indent, sections[..n]);
      SectionOk(indent, sections[n]);
      LinesOkConcat(SectionsLines(indent, sections[..n]), SectionLines(indent, sections[n]));
    }
  }

  lemma {:induction false} RulesLinesOk(rules: seq<RuleDoc>)
    requires RulesOk(rules)
    ensures AllLinesOk(RulesLines(rules))
  {
    if rules != [] {
      var n := |rules| - 1;
      RulesLinesOk(rules[..n]);
      ShortWordsOk();
      SectionsLinesOk(4, rules[n].sections);
      LinesOkConcat([ItemLine(2, "match", rules[n].pattern)], SectionsLines(4, rules[n].sections));
      LinesOkConcat(RulesLines(rules[..n]), RuleLines(rules[n]));
    }
  }

  lemma {:induction false} PartLinesOk(part: Part)
    requires PartOk(part)
    ensures AllLinesOk(PartLines(part))
  {
    ShortWordsOk();
    SectionWordsOk();
    match part
    case TopPart(_) =>
    case DefaultPart(sections) =>
      SectionsLinesOk(2, sections);
      LinesOkConcat([HeaderLine(0, "default_policy")], SectionsLines(2, sections));
    case RulesPart(rules) =>
      RulesLinesOk(rules);
      LinesOkConcat([HeaderLine(0, "rules")], RulesLines(rules));
    case AuditPart(fields) => BlockOk(0, "audit", fields);
    case StatePart(fields) => BlockOk(0, "state", fields);
  }

  lemma {:induction false} DocLinesOk(doc: seq<Part>)
    requires Writable(doc)
    ensures AllLinesOk(DocLines(doc))
  {
    if doc != [] {
      var n := |doc| - 1;
      DocLinesOk(doc[..n]);
      PartLinesOk(doc[n]);
      LinesOkConcat(DocLines(doc[..n]), PartLines(doc[n]));
    }
  }

  lemma {:induction false} WritablePatterns(doc: seq<Part>)
    requires Writable(doc)
    ensures DocOk(doc)
  {
    forall i | 0 <= i < |doc| && doc[i].RulesPart? ensures PatternsOk(doc[i].rules) {
      assert PartOk(doc[i]);
    }
  }

  /**
   A file whose significant lines spell a document is parsed to exactly the configuration that the document is
   read as, or rejected if one of its values is ill-typed. Blank lines and comments may stand anywhere, parts,
   sections and fields may be absent, repeated and in any order.
   */
  lemma {:induction false} FileIsRead(lines: seq<string>, doc: seq<Part>, durations: DurationParser)
    requires Writable(doc) && Spelled(Significant(lines), DocLines(doc))
    ensures var r := Feed(START, Lexed(lines), durations);
            if DocTyped(doc, durations) then r.Ok? && r.value.config == ConfigOf(AsRead(doc), durations) else r.Err?
  {
    BlankLinesIgnored(lines, durations);
    DocLinesOk(doc);
    LexesDocument(Significant(lines), DocLines(doc));
    ReadingIsFeeding(START, DocLines(doc), durations);
    WritablePatterns(doc);
    ReadsDocument(doc, durations);
  }

  /** With the default policy before the rules, that is what the author wrote. */
  lemma {:induction false} OrderedFileIsRead(lines: seq<string>, doc: seq<Part>, durations: DurationParser)
    requires Writable(doc) && InOrder(doc) && Spelled(Significant(lines), DocLines(doc))
    ensures var c := ConfigOf(AsWritten(doc), durations);
            if !DocTyped(doc, durations) then
              LoadLines(lines, durations).Err? && LoadLines(lines, durations).error.Unreadable?
            else LoadLines(lines, durations) == if Validate(c).None? then Ok(c) else Err(Invalid(Validate(c).value))
  {
    FileIsRead(lines, doc, durations);
    AttributedAsWrittenIff(doc);
  }
}
