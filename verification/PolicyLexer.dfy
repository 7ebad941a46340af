/** The line-level functions of the policy parser (internal/policy/config.go). */
module PolicyLexer {
  import opened Prelude
  import opened Text

  // ---------------------------------------------------------------- comments and indentation

  /** Which quotes are open after a line has been read. */
  datatype Quotes = Quotes(single: bool, double: bool)

  const NO_QUOTES := Quotes(false, false)

  function AfterChar(q: Quotes, c: char): Quotes {
    if c == '\'' && !q.double then q.(single := !q.single)
    else if c == '"' && !q.single then q.(double := !q.double)
    else q
  }

  predicate StartsComment(q: Quotes, c: char) {
    c == '#' && q == NO_QUOTES
  }

  function AfterText(q: Quotes, s: string): Quotes {
    if s == "" then q else AfterChar(AfterText(q, s[..|s| - 1]), s[|s| - 1])
  }

  /** Position `i` starts a comment: a `#` outside quotes. */
  predicate CommentAt(line: string, i: nat)
    requires i < |line|
  {
    StartsComment(AfterText(NO_QUOTES, line[..i]), line[i])
  }

  /** The text before the first comment, or the whole line. */
  method StripComment(line: string) returns (r: string)
    ensures r <= line
    ensures forall i :: 0 <= i < |r| ==> !CommentAt(line, i)
    ensures |r| < |line| ==> CommentAt(line, |r|)
  {
    var q := NO_QUOTES;
    for i := 0 to |line|
      invariant q == AfterText(NO_QUOTES, line[..i])
      invariant forall k :: 0 <= k < i ==> !CommentAt(line, k)
    {
      assert line[..i + 1][..i] == line[..i];
      if line[i] == '\'' {
        if !q.double { q := q.(single := !q.single); }
      } else if line[i] == '"' {
        if !q.single { q := q.(double := !q.double); }
      } else if line[i] == '#' {
        if !q.single && !q.double { return line[..i]; }
      }
    }
    return line;
  }

  function StrippedFrom(line: string, i: nat): string
    requires i <= |line|
    decreases |line| - i
  {
    if i == |line| then line else if CommentAt(line, i) then line[..i] else StrippedFrom(line, i + 1)
  }

  function Stripped(line: string): string {
    StrippedFrom(line, 0)
  }

  lemma {:induction false} StrippedFromUnique(line: string, i: nat, n: nat)
    requires i <= n <= |line| && forall k :: i <= k < n ==> !CommentAt(line, k)
    requires n < |line| ==> CommentAt(line, n)
    ensures StrippedFrom(line, i) == line[..n]
    decreases n - i
  {
    if i < n {
      StrippedFromUnique(line, i + 1, n);
    } else if n == |line| {
      assert line[..n] == line;
    }
  }

  lemma {:induction false} StrippedUnique(line: string, r: string)
    requires r <= line && forall i :: 0 <= i < |r| ==> !CommentAt(line, i)
    requires |r| < |line| ==> CommentAt(line, |r|)
    ensures r == Stripped(line)
  {
    StrippedFromUnique(line, 0, |r|);
  }

  function Spaces(line: string): (n: nat)
    ensures n <= |line|
  {
    if line != "" && line[0] == ' ' then 1 + Spaces(line[1..]) else 0
  }

  lemma {:induction false} SpacesUnique(line: string, n: nat)
    requires n <= |line| && forall i :: 0 <= i < n ==> line[i] == ' '
    requires n < |line| ==> line[n] != ' '
    ensures Spaces(line) == n
    decreases n
  {
    if n > 0 {
      SpacesUnique(line[1..], n - 1);
    }
  }

  method LeadingSpaces(line: string) returns (count: nat)
    ensures count == Spaces(line)
  {
    count := 0;
    while count < |line| && line[count] == ' '
      invariant count <= |line| && forall i :: 0 <= i < count ==> line[i] == ' '
    {
      count := count + 1;
    }
    SpacesUnique(line, count);
  }

  // ---------------------------------------------------------------- keys and values

  datatype ParseError = ExpectedKeyValue | EmptyKey | BadVersion | BadDuration | BadBool

  datatype KeyValue = KeyValue(key: string, value: string)

  function SplitKeyValue(line: string): Result<KeyValue, ParseError> {
    var i := IndexOf(line, ':');
    if i == |line| then Err(ExpectedKeyValue)
    else
      var key := TrimSpace(line[..i]);
      if key == "" then Err(EmptyKey) else Ok(KeyValue(key, TrimSpace(line[i + 1..])))
  }

  predicate Quoted(value: string, quote: char) {
    |value| >= 2 && value[0] == quote && value[|value| - 1] == quote
  }

  function ParseScalar(value: string): string {
    if Quoted(value, '"') || Quoted(value, '\'') then value[1..|value| - 1] else value
  }

  function ParseBool(value: string): Result<bool, ParseError> {
    if value == "true" then Ok(true) else if value == "false" then Ok(false) else Err(BadBool)
  }

  // ---------------------------------------------------------------- lines

  /** What a line is before the parser looks at its state; the text of a list item is split later. */
  datatype Token =
    | Blank
    | Bad(error: ParseError)
    | Section(indent: nat, key: string)
    | Entry(indent: nat, key: string, value: string)
    | Item(indent: nat, text: string)

  function Lex(line: string): Token {
    var raw := Stripped(line);
    var trimmed := TrimSpace(raw);
    if trimmed == "" then Blank
    else if HasPrefix(trimmed, "- ") then Item(Spaces(raw), TrimSpace(trimmed[2..]))
    else
      match SplitKeyValue(trimmed)
      case Err(e) => Bad(e)
      case Ok(kv) =>
        if kv.value == "" then Section(Spaces(raw), kv.key) else Entry(Spaces(raw), kv.key, ParseScalar(kv.value))
  }
}
