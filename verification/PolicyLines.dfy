/** The documented layout of a policy file, line by line, and what the lexer makes of each line. */
module PolicyLines {
  import opened Prelude
  import opened Text
  import opened PolicyLexer

  /** A value, written bare or in quotes of either kind. */
  datatype Scalar = Plain(text: string) | SingleQuoted(text: string) | DoubleQuoted(text: string)

  datatype Line =
    | HeaderLine(indent: nat, key: string)
    | PairLine(indent: nat, key: string, value: Scalar)
    | ItemLine(indent: nat, key: string, value: Scalar)

  predicate Ordinary(c: char) {
    !IsSpace(c) && c != '"' && c != '\'' && c != '#'
  }

  predicate AllOrdinary(s: string) {
    forall i :: 0 <= i < |s| ==> Ordinary(s[i])
  }

  predicate KeyOk(key: string) {
    key != "" && ':' !in key && AllOrdinary(key)
  }

  /** Characters that neither open a quote nor start a comment. */
  predicate Quiet(s: string) {
    forall i :: 0 <= i < |s| ==> s[i] != '"' && s[i] != '\'' && s[i] != '#'
  }

  predicate Bare(text: string) {
    text != "" && Quiet(text) && !IsSpace(text[0]) && !IsSpace(text[|text| - 1])
  }

  predicate ScalarOk(s: Scalar) {
    && '\n' !in s.text
    && match s
       case Plain(text) => Bare(text)
       case SingleQuoted(text) => '\'' !in text
       case DoubleQuoted(text) => '"' !in text
  }

  predicate LineOk(line: Line) {
    KeyOk(line.key) && (!line.HeaderLine? ==> ScalarOk(line.value))
  }

  function ScalarText(s: Scalar): string {
    match s
    case Plain(text) => text
    case SingleQuoted(text) => ['\''] + text + ['\'']
    case DoubleQuoted(text) => ['"'] + text + ['"']
  }

  function Pair(key: string, value: Scalar): string {
    key + [':', ' '] + ScalarText(value)
  }

  function Pad(n: nat): (s: string)
    ensures |s| == n && forall i :: 0 <= i < n ==> s[i] == ' '
  {
    seq(n, _ => ' ')
  }

  function Body(line: Line): string {
    match line
    case HeaderLine(_, key) => key + [':']
    case PairLine(_, key, value) => Pair(key, value)
    case ItemLine(_, key, value) => ['-', ' '] + Pair(key, value)
  }

  function LineText(line: Line): string {
    Pad(line.indent) + Body(line)
  }

  /** White space and, perhaps, a comment. */
  predicate IsTail(s: string) {
    var rest := TrimLeft(s); rest == "" || rest[0] == '#'
  }

  /** The text of a line, followed by white space or a comment. */
  predicate Spells(text: string, line: Line) {
    HasPrefix(text, LineText(line)) && IsTail(text[|LineText(line)|..])
  }

  function TokenOf(line: Line): Token {
    match line
    case HeaderLine(indent, key) => Section(indent, key)
    case PairLine(indent, key, value) => Entry(indent, key, value.text)
    case ItemLine(indent, key, value) => Item(indent, Pair(key, value))
  }

  // ---------------------------------------------------------------- comments

  lemma {:induction false} QuietKeepsQuotes(q: Quotes, s: string)
    requires Quiet(s)
    ensures AfterText(q, s) == q
  {
    if s != "" { QuietKeepsQuotes(q, s[..|s| - 1]); }
  }

  lemma {:induction false} InsideQuotes(quote: char, s: string)
    requires (quote == '"' || quote == '\'') && quote !in s
    ensures AfterText(Quotes(quote == '\'', quote == '"'), s) == Quotes(quote == '\'', quote == '"')
  {
    if s != "" { InsideQuotes(quote, s[..|s| - 1]); }
  }

  lemma {:induction false} AfterConcat(q: Quotes, a: string, b: string)
    ensures AfterText(q, a + b) == AfterText(AfterText(q, a), b)
  {
    if b != "" {
      AfterConcat(q, a, b[..|b| - 1]);
      assert (a + b)[..|a + b| - 1] == a + b[..|b| - 1];
    } else {
      assert a + b == a;
    }
  }

  lemma {:induction false} AfterOne(q: Quotes, c: char)
    ensures AfterText(q, [c]) == AfterChar(q, c)
  {
    var one: string := [c];
    assert one[..0] == "";
  }

  /** Text in quotes opens them, holds no comment, and closes them. */
  lemma {:induction false} QuotedText(quote: char, s: string)
    requires (quote == '"' || quote == '\'') && quote !in s
    ensures var text := [quote] + s + [quote];
            AfterText(NO_QUOTES, text) == NO_QUOTES
            && forall i :: 0 <= i < |text| ==> !StartsComment(AfterText(NO_QUOTES, text[..i]), text[i])
  {
    var text := [quote] + s + [quote];
    AfterOne(NO_QUOTES, quote);
    forall i | 0 < i < |text|
      ensures AfterText(NO_QUOTES, text[..i]) == Quotes(quote == '\'', quote == '"')
    {
      assert text[..i] == [quote] + s[..i - 1];
      AfterConcat(NO_QUOTES, [quote], s[..i - 1]);
      InsideQuotes(quote, s[..i - 1]);
    }
    AfterConcat(NO_QUOTES, text[..|text| - 1], [quote]);
    AfterOne(Quotes(quote == '\'', quote == '"'), quote);
    assert text == text[..|text| - 1] + [quote];
  }

  /** No comment starts in the text, and the quotes are closed at its end. */
  predicate Closed(s: string) {
    AfterText(NO_QUOTES, s) == NO_QUOTES && forall i :: 0 <= i < |s| ==> !CommentAt(s, i)
  }

  lemma {:induction false} QuietIsClosed(s: string)
    requires Quiet(s)
    ensures Closed(s)
  {
    QuietKeepsQuotes(NO_QUOTES, s);
  }

  lemma {:induction false} ScalarIsClosed(value: Scalar)
    requires ScalarOk(value)
    ensures Closed(ScalarText(value))
  {
    match value
    case Plain(text) => QuietIsClosed(text);
    case SingleQuoted(text) => QuotedText('\'', text);
    case DoubleQuoted(text) => QuotedText('"', text);
  }

  lemma {:induction false} ClosedConcat(a: string, b: string)
    requires Closed(a) && Closed(b)
    ensures Closed(a + b)
  {
    AfterConcat(NO_QUOTES, a, b);
    forall i | 0 <= i < |a + b| ensures !CommentAt(a + b, i) {
      if i < |a| {
        assert (a + b)[..i] == a[..i];
        assert !CommentAt(a, i);
      } else {
        assert (a + b)[..i] == a + b[..i - |a|];
        AfterConcat(NO_QUOTES, a, b[..i - |a|]);
        assert !CommentAt(b, i - |a|);
      }
    }
  }

  /** The part of a line before its value. */
  function BeforeValue(line: Line): string
    requires !line.HeaderLine?
  {
    Pad(line.indent) + (if line.ItemLine? then ['-', ' '] else []) + line.key + [':', ' ']
  }

  lemma {:induction false} ValueLast(line: Line)
    requires !line.HeaderLine?
    ensures LineText(line) == BeforeValue(line) + ScalarText(line.value)
  {
  }

  lemma {:induction false} BeforeIsQuiet(line: Line)
    requires KeyOk(line.key)
    ensures if line.HeaderLine? then Quiet(LineText(line)) else Quiet(BeforeValue(line))
  {
  }

  lemma {:induction false} LineIsClosed(line: Line)
    requires LineOk(line)
    ensures Closed(LineText(line))
  {
    BeforeIsQuiet(line);
    if line.HeaderLine? {
      QuietIsClosed(LineText(line));
    } else {
      ValueLast(line);
      QuietIsClosed(BeforeValue(line));
      ScalarIsClosed(line.value);
      ClosedConcat(BeforeValue(line), ScalarText(line.value));
    }
  }

  /** White space, then nothing or a comment. */
  lemma {:induction false} TailParts(s: string) returns (n: nat)
    requires IsTail(s)
    ensures n <= |s| && (forall i :: 0 <= i < n ==> IsSpace(s[i])) && (n < |s| ==> s[n] == '#')
  {
    if s != "" && IsSpace(s[0]) {
      var m := TailParts(s[1..]);
      n := m + 1;
    } else {
      n := 0;
    }
  }

  /** Stripping the comment leaves the line and white space. */
  lemma {:induction false} StripsTail(text: string, line: Line) returns (white: string)
    requires LineOk(line) && Spells(text, line)
    ensures Stripped(text) == LineText(line) + white && forall i :: 0 <= i < |white| ==> IsSpace(white[i])
  {
    var body := LineText(line);
    var tail := text[|body|..];
    var n := TailParts(tail);
    white := tail[..n];
    var stripped := body + white;
    QuietIsClosed(white);
    LineIsClosed(line);
    ClosedConcat(body, white);
    assert text[..|stripped|] == stripped;
    forall i | 0 <= i < |stripped| ensures !CommentAt(text, i) {
      assert text[..i] == stripped[..i];
      assert !CommentAt(stripped, i);
    }
    StrippedUnique(text, stripped);
  }

  // ---------------------------------------------------------------- keys and values

  lemma {:induction false} WrittenEnds(value: Scalar)
    requires ScalarOk(value)
    ensures var w := ScalarText(value);
            w != "" && !IsSpace(w[0]) && !IsSpace(w[|w| - 1]) && ParseScalar(w) == value.text
  {
    if value.DoubleQuoted? {
      assert (['"'] + value.text + ['"'])[1..|value.text| + 1] == value.text;
    }
  }

  lemma {:induction false} SplitsAtColon(key: string, rest: string)
    requires KeyOk(key)
    ensures SplitKeyValue(key + [':'] + rest) == Ok(KeyValue(key, TrimSpace(rest)))
  {
    var line := key + [':'] + rest;
    IndexOfUnique(line, ':', |key|);
    assert line[..|key|] == key && line[|key| + 1..] == rest;
    TrimSpaceIdentity(key);
  }

  lemma {:induction false} SpacedIsTrimmed(text: string)
    requires text != "" && !IsSpace(text[0]) && !IsSpace(text[|text| - 1])
    ensures TrimSpace([' '] + text) == text
  {
    TrimLeftSpaces([' '], text);
    TrimSpaceIdentity(text);
  }

  lemma {:induction false} PairText(key: string, text: string)
    ensures key + [':', ' '] + text == key + [':'] + ([' '] + text)
  {
  }

  lemma {:induction false} SplitsText(key: string, text: string)
    requires KeyOk(key) && text != "" && !IsSpace(text[0]) && !IsSpace(text[|text| - 1])
    ensures SplitKeyValue(key + [':', ' '] + text) == Ok(KeyValue(key, text))
  {
    PairText(key, text);
    SpacedIsTrimmed(text);
    SplitsAtColon(key, [' '] + text);
  }

  lemma {:induction false} SplitsPair(key: string, value: Scalar)
    requires KeyOk(key) && ScalarOk(value)
    ensures SplitKeyValue(Pair(key, value)) == Ok(KeyValue(key, ScalarText(value)))
  {
    WrittenEnds(value);
    SplitsText(key, ScalarText(value));
  }

  lemma {:induction false} TrimsToBody(indent: nat, body: string, white: string)
    requires body != "" && !IsSpace(body[0]) && !IsSpace(body[|body| - 1])
    requires forall i :: 0 <= i < |white| ==> IsSpace(white[i])
    ensures var raw := Pad(indent) + body + white; TrimSpace(raw) == body && Spaces(raw) == indent
  {
    assert Pad(indent) + body + white == Pad(indent) + (body + white);
    TrimLeftSpaces(Pad(indent), body + white);
    TrimRightSpaces(body, white);
    TrimSpaceIdentity(body);
    SpacesUnique(Pad(indent) + body + white, indent);
  }

  lemma {:induction false} BodyEnds(line: Line)
    requires LineOk(line)
    ensures var b := Body(line); b != "" && !IsSpace(b[0]) && !IsSpace(b[|b| - 1])
    ensures HasPrefix(Body(line), "- ") <==> line.ItemLine?
  {
    if !line.HeaderLine? { WrittenEnds(line.value); }
    if line.ItemLine? {
      assert Body(line)[..2] == "- ";
    } else {
      assert Body(line)[1] == if |line.key| == 1 then ':' else line.key[1];
      var two := Body(line)[..2];
      assert two[1] != ' ';
    }
  }

  /** The lexer reads back each line of the layout, also with white space or a comment behind it. */
  lemma {:induction false} LexesLine(text: string, line: Line)
    requires LineOk(line) && Spells(text, line)
    ensures Lex(text) == TokenOf(line)
  {
    var white := StripsTail(text, line);
    BodyEnds(line);
    TrimsToBody(line.indent, Body(line), white);
    match line
    case HeaderLine(_, key) =>
      assert Body(line) == key + [':'] + "";
      SplitsAtColon(key, "");
    case PairLine(_, key, value) =>
      SplitsPair(key, value);
      WrittenEnds(value);
    case ItemLine(_, key, value) =>
      assert Body(line)[2..] == Pair(key, value);
      WrittenEnds(value);
      TrimSpaceIdentity(Pair(key, value));
  }
}
