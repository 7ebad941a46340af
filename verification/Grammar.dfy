/** What the four expressions of internal/image/reference.go:17-20 accept, character by character. */
module Grammar {
  import opened Regex
  import opened Image

  predicate LowerOrDigit(c: char) { 'a' <= c <= 'z' || '0' <= c <= '9' }
  predicate AnyLetter(c: char) { 'a' <= c <= 'z' || 'A' <= c <= 'Z' }
  predicate LetterOrDigit(c: char) { AnyLetter(c) || '0' <= c <= '9' }

  // ---------------------------------------------------------------- tags

  predicate TagText(s: string) {
    && 1 <= |s| <= 128 && s[0] != '.' && s[0] != '-'
    && forall i :: 0 <= i < |s| ==> LetterOrDigit(s[i]) || s[i] == '_' || s[i] == '.' || s[i] == '-'
  }

  lemma {:induction false} RepeatIff(p: char -> bool, n: nat, s: string)
    ensures In(Repeat(Class(p), n), s) <==> |s| <= n && forall i :: 0 <= i < |s| ==> p(s[i])
    decreases n
  {
    if s != "" && n > 0 {
      RepeatIff(p, n - 1, s[1..]);
      assert s == [s[0]] + s[1..];
      if In(Repeat(Class(p), n), s) {
        var i :| 0 < i <= |s| && In(Class(p), s[..i]) && In(Repeat(Class(p), n - 1), s[i..]);
        assert i == 1;
      }
      if |s| <= n && forall i :: 0 <= i < |s| ==> p(s[i]) {
        assert In(Class(p), s[..1]) && In(Repeat(Class(p), n - 1), s[1..]);
      }
    }
  }

  lemma {:induction false} OneThen(p: char -> bool, r: Re, s: string)
    ensures In(Cat(Class(p), r), s) <==> s != "" && p(s[0]) && In(r, s[1..])
  {
    if In(Cat(Class(p), r), s) {
      var i := CatWord(Class(p), r, s);
      assert i == 1;
    }
    if s != "" && p(s[0]) && In(r, s[1..]) {
      assert In(Class(p), s[..1]);
    }
  }

  /** A tag: at most 128 letters, digits, underscores, dots and dashes, neither of the last two first. */
  lemma {:induction false} TagIff(s: string)
    ensures In(TAG_RE, s) <==> TagText(s)
  {
    OneThen(Word, Repeat(Class(TagChar), 127), s);
    if s != "" {
      RepeatIff(TagChar, 127, s[1..]);
      assert s == [s[0]] + s[1..];
    }
  }

  // ---------------------------------------------------------------- registries

  predicate HostText(s: string) {
    && s != "" && LowerOrDigit(s[0]) && LowerOrDigit(s[|s| - 1])
    && forall i :: 0 <= i < |s| ==> LowerOrDigit(s[i]) || s[i] == '.' || s[i] == '-'
  }

  predicate PortText(s: string) {
    s != "" && forall i :: 0 <= i < |s| ==> '0' <= s[i] <= '9'
  }

  lemma {:induction false} StarIff(p: char -> bool, s: string)
    ensures In(Star(Class(p)), s) <==> forall i :: 0 <= i < |s| ==> p(s[i])
  {
    if In(Star(Class(p)), s) { WordsOver(Star(Class(p)), p, s); }
    if forall i :: 0 <= i < |s| ==> p(s[i]) { StarIntro(p, s); }
  }

  lemma {:induction false} PlusIff(p: char -> bool, s: string)
    ensures In(Plus(Class(p)), s) <==> s != "" && forall i :: 0 <= i < |s| ==> p(s[i])
  {
    if In(Plus(Class(p)), s) { PlusWord(p, s); }
    if s != "" && forall i :: 0 <= i < |s| ==> p(s[i]) { PlusIntro(p, s); }
  }

  lemma {:induction false} HostTailIff(s: string)
    ensures In(HOST_TAIL_RE, s) <==>
            s != "" && LowerAlnum(s[|s| - 1]) && forall i :: 0 <= i < |s| ==> HostChar(s[i])
  {
    var a, b := Star(Class(HostChar)), Class(LowerAlnum);
    if In(HOST_TAIL_RE, s) {
      var i := CatWord(a, b, s);
      StarIff(HostChar, s[..i]);
      assert i == |s| - 1 && s[i..][0] == s[i];
      assert s == s[..i] + s[i..];
    }
    if s != "" && LowerAlnum(s[|s| - 1]) && forall i :: 0 <= i < |s| ==> HostChar(s[i]) {
      var n := |s| - 1;
      StarIff(HostChar, s[..n]);
      assert In(b, s[n..]);
      CatIntro(a, b, s[..n], s[n..]);
      assert s == s[..n] + s[n..];
    }
  }

  lemma {:induction false} HostIff(s: string)
    ensures In(HOST_RE, s) <==> HostText(s)
  {
    OneThen(LowerAlnum, Opt(HOST_TAIL_RE), s);
    if s != "" {
      HostTailIff(s[1..]);
      assert s == [s[0]] + s[1..];
      assert In(Opt(HOST_TAIL_RE), s[1..]) <==> s[1..] == "" || In(HOST_TAIL_RE, s[1..]);
    }
  }

  lemma {:induction false} LitThen(c: char, r: Re, s: string)
    ensures In(Cat(Lit(c), r), s) <==> s != "" && s[0] == c && In(r, s[1..])
  {
    if In(Cat(Lit(c), r), s) {
      var i := CatWord(Lit(c), r, s);
      assert i == 1 && s[..i][0] == s[0];
    }
    if s != "" && s[0] == c && In(r, s[1..]) {
      assert s[..1] == [c];
    }
  }

  lemma {:induction false} PortIff(s: string)
    ensures In(PORT_RE, s) <==> s != "" && s[0] == ':' && PortText(s[1..])
  {
    LitThen(':', Plus(Class(Digit)), s);
    if s != "" { PlusIff(Digit, s[1..]); }
  }

  ghost predicate RegistryText(s: string) {
    HostText(s) || exists host, port :: s == host + ":" + port && HostText(host) && PortText(port)
  }

  lemma {:induction false} WithPort(s: string, host: string, tail: string)
    requires s == host + tail && HostText(host) && tail != "" && tail[0] == ':' && PortText(tail[1..])
    ensures RegistryText(s)
  {
    TakeColon(host, tail);
    assert s == host + ":" + tail[1..];
  }

  lemma {:induction false} RegistryIs(s: string)
    requires In(REGISTRY_RE, s)
    ensures RegistryText(s)
  {
    var i := CatWord(HOST_RE, Opt(PORT_RE), s);
    var host, tail := s[..i], s[i..];
    assert s == host + tail;
    HostIff(host);
    OptWord(PORT_RE, tail);
    PortIff(tail);
    if tail == "" {
      assert s == host;
    } else {
      WithPort(s, host, tail);
    }
  }

  lemma {:induction false} HostAndPort(host: string, port: string)
    requires HostText(host) && PortText(port)
    ensures In(REGISTRY_RE, host) && In(REGISTRY_RE, host + ":" + port)
  {
    var tail := ":" + port;
    HostIff(host);
    assert tail[1..] == port;
    PortIff(tail);
    CatIntro(HOST_RE, Opt(PORT_RE), host, tail);
    CatIntro(HOST_RE, Opt(PORT_RE), host, "");
    assert host + tail == host + ":" + port && host + "" == host;
  }

  /** A registry: a host name and, if there is a colon, a port. */
  lemma {:induction false} RegistryIff(s: string)
    ensures In(REGISTRY_RE, s) <==> RegistryText(s)
  {
    if In(REGISTRY_RE, s) { RegistryIs(s); }
    if HostText(s) { HostAndPort(s, "0"); }
    if host, port :| s == host + ":" + port && HostText(host) && PortText(port) { HostAndPort(host, port); }
  }

  // ---------------------------------------------------------------- path components

  predicate Separator(c: char) { c == '.' || c == '_' || c == '-' }

  /** Separators are single, or two underscores, or dashes, and something follows them. */
  predicate Fits(s: string, i: nat)
    requires i < |s|
  {
    && (LowerOrDigit(s[i]) || (Separator(s[i]) && i + 1 < |s|))
    && (i + 1 < |s| && Separator(s[i]) && Separator(s[i + 1]) ==> s[i] == s[i + 1] && s[i] != '.')
    && (i + 2 < |s| ==> !(s[i] == '_' && s[i + 1] == '_' && s[i + 2] == '_'))
  }

  predicate Runs(s: string) {
    forall i :: 0 <= i < |s| ==> Fits(s, i)
  }

  predicate ComponentText(s: string) {
    s != "" && LowerOrDigit(s[0]) && Runs(s)
  }

  predicate SeparatorText(s: string) {
    s == "." || s == "_" || s == "__" || (s != "" && forall i :: 0 <= i < |s| ==> s[i] == '-')
  }

  lemma {:induction false} SeparatorIff(s: string)
    ensures In(SEPARATOR_RE, s) <==> SeparatorText(s)
  {
    var dash := Lit('-');
    LitThen('_', Lit('_'), s);
    DashesIff(s);
    assert |s| == 1 ==> s == [s[0]];
    assert |s| == 2 ==> s == [s[0], s[1]];
  }

  lemma {:induction false} DashesIff(s: string)
    ensures In(Plus(Lit('-')), s) <==> s != "" && forall i :: 0 <= i < |s| ==> s[i] == '-'
  {
    LitThen('-', Star(Lit('-')), s);
    if s != "" {
      DashStarIff(s[1..]);
      assert s == [s[0]] + s[1..];
    }
  }

  lemma {:induction false} DashStarIff(s: string)
    ensures In(Star(Lit('-')), s) <==> forall i :: 0 <= i < |s| ==> s[i] == '-'
  {
    if s != "" {
      DashStarIff(s[1..]);
      assert s == [s[0]] + s[1..];
      if In(Star(Lit('-')), s) {
        var i :| 0 < i <= |s| && In(Lit('-'), s[..i]) && In(Star(Lit('-')), s[i..]);
        assert i == 1 && s[..1][0] == s[0];
      }
      if forall i :: 0 <= i < |s| ==> s[i] == '-' {
        assert In(Lit('-'), s[..1]) && In(Star(Lit('-')), s[1..]);
      }
    }
  }

  const PART_RE := Cat(SEPARATOR_RE, Plus(Class(LowerAlnum)))

  lemma {:induction false} PartRuns(separator: string, word: string, rest: string)
    requires SeparatorText(separator) && word != "" && (forall i :: 0 <= i < |word| ==> LowerOrDigit(word[i]))
    requires Runs(rest)
    ensures Runs(separator + word + rest)
  {
    var s := separator + word + rest;
    var m, n := |separator|, |separator| + |word|;
    assert forall i :: 0 <= i < m ==> s[i] == separator[i];
    assert forall i :: m <= i < n ==> s[i] == word[i - m];
    assert forall i :: n <= i < |s| ==> s[i] == rest[i - n];
    forall i | 0 <= i < |s| ensures Fits(s, i) {
      if i >= n {
        FitsFrom(s, n, rest, i);
      } else if i < m {
        FitsSeparator(s, separator, i);
      }
    }
  }

  lemma {:induction false} FitsFrom(s: string, n: nat, rest: string, i: nat)
    requires Runs(rest) && n <= i < |s| && rest == s[n..]
    ensures Fits(s, i)
  {
    assert Fits(rest, i - n);
  }

  lemma {:induction false} FitsSeparator(s: string, separator: string, i: nat)
    requires SeparatorText(separator) && i < |separator| < |s| && separator <= s
    requires LowerOrDigit(s[|separator|])
    ensures Fits(s, i)
  {
    assert forall j :: 0 <= j < |separator| ==> s[j] == separator[j];
  }

  /** The end of the characters that satisfy `p`, from `k` on. */
  function EndOf(s: string, k: nat, p: char -> bool): (n: nat)
    requires k <= |s|
    ensures k <= n <= |s| && (forall i :: k <= i < n ==> p(s[i])) && (n < |s| ==> !p(s[n]))
    decreases |s| - k
  {
    if k < |s| && p(s[k]) then EndOf(s, k + 1, p) else k
  }

  lemma {:induction false} SameSeparators(s: string, n: nat)
    requires Runs(s) && 0 < n <= |s| && forall i :: 0 <= i < n ==> Separator(s[i])
    ensures SeparatorText(s[..n])
  {
    AllSame(s, n);
    assert Fits(s, 0);
    if n > 1 { assert Fits(s, 1); }
    if s[0] == '.' {
      assert s[..n] == ".";
    } else if s[0] == '_' {
      assert s[..n] == "_" || s[..n] == "__";
    }
  }

  lemma {:induction false} AllSame(s: string, n: nat)
    requires Runs(s) && 0 < n <= |s| && forall i :: 0 <= i < n ==> Separator(s[i])
    ensures forall i :: 0 <= i < n ==> s[i] == s[0]
  {
    if n > 1 {
      AllSame(s, n - 1);
      assert Fits(s, n - 2);
    }
  }

  lemma {:induction false} OnePart(s: string, i: nat)
    requires i <= |s| && In(PART_RE, s[..i]) && Runs(s[i..])
    ensures Runs(s) && i > 0 && Separator(s[0])
  {
    var part := s[..i];
    var j := CatWord(SEPARATOR_RE, Plus(Class(LowerAlnum)), part);
    SeparatorIff(part[..j]);
    PlusIff(LowerAlnum, part[j..]);
    PartRuns(part[..j], part[j..], s[i..]);
    assert s == part[..j] + part[j..] + s[i..];
  }

  lemma {:induction false} JoinsParts(separator: string, word: string)
    requires SeparatorText(separator) && word != "" && forall i :: 0 <= i < |word| ==> LowerOrDigit(word[i])
    ensures In(PART_RE, separator + word)
  {
    SeparatorIff(separator);
    PlusIff(LowerAlnum, word);
    CatIntro(SEPARATOR_RE, Plus(Class(LowerAlnum)), separator, word);
  }

  lemma {:induction false} PartUpTo(s: string, j: nat, i: nat)
    requires j < i <= |s| && SeparatorText(s[..j]) && forall k :: j <= k < i ==> LowerOrDigit(s[k])
    ensures In(PART_RE, s[..i])
  {
    var word := s[j..i];
    assert forall k :: 0 <= k < |word| ==> word[k] == s[j + k];
    JoinsParts(s[..j], word);
    assert s[..j] + word == s[..i];
  }

  lemma {:induction false} FirstPart(s: string) returns (i: nat)
    requires Runs(s) && s != "" && Separator(s[0])
    ensures 0 < i <= |s| && In(PART_RE, s[..i]) && Runs(s[i..]) && (i < |s| ==> Separator(s[i]))
  {
    var j := EndOf(s, 0, Separator);
    assert Fits(s, |s| - 1) && Fits(s, j);
    i := EndOf(s, j, LowerOrDigit);
    SameSeparators(s, j);
    PartUpTo(s, j, i);
    if i < |s| { assert Fits(s, i); }
    RunsFrom(s, i);
  }

  lemma {:induction false} PartsIff(s: string)
    ensures In(Star(PART_RE), s) <==> Runs(s) && (s != "" ==> Separator(s[0]))
    decreases |s|
  {
    if s != "" {
      if In(Star(PART_RE), s) {
        var i :| 0 < i <= |s| && In(PART_RE, s[..i]) && In(Star(PART_RE), s[i..]);
        PartsIff(s[i..]);
        OnePart(s, i);
      }
      if Runs(s) && Separator(s[0]) {
        var i := FirstPart(s);
        PartsIff(s[i..]);
      }
    }
  }

  lemma {:induction false} RunsFrom(s: string, i: nat)
    requires Runs(s) && i <= |s|
    ensures Runs(s[i..])
  {
    forall j | 0 <= j < |s[i..]| ensures Fits(s[i..], j) { assert Fits(s, i + j); }
  }

  /** A component: lower-case letters and digits, separated by a dot, one or two underscores, or dashes. */
  lemma {:induction false} ComponentIff(s: string)
    ensures In(COMPONENT_RE, s) <==> ComponentText(s)
  {
    if In(COMPONENT_RE, s) {
      var i := CatWord(Plus(Class(LowerAlnum)), Star(PART_RE), s);
      PlusIff(LowerAlnum, s[..i]);
      PartsIff(s[i..]);
      WordThenRuns(s[..i], s[i..]);
      assert s == s[..i] + s[i..];
    }
    if ComponentText(s) {
      var i := EndOf(s, 0, LowerOrDigit);
      PlusIff(LowerAlnum, s[..i]);
      if i < |s| { assert Fits(s, i); }
      RunsFrom(s, i);
      PartsIff(s[i..]);
      CatIntro(Plus(Class(LowerAlnum)), Star(PART_RE), s[..i], s[i..]);
      assert s == s[..i] + s[i..];
    }
  }

  lemma {:induction false} WordThenRuns(word: string, rest: string)
    requires word != "" && (forall i :: 0 <= i < |word| ==> LowerOrDigit(word[i])) && Runs(rest)
    ensures ComponentText(word + rest)
  {
    var s, n := word + rest, |word|;
    assert forall i :: 0 <= i < n ==> s[i] == word[i];
    forall i | 0 <= i < |s| ensures Fits(s, i) {
      if i >= n { FitsFrom(s, n, rest, i); }
    }
  }

  // ---------------------------------------------------------------- digests

  predicate AlgorithmMark(c: char) { c == '+' || c == '.' || c == '_' || c == '-' }

  /** Letters and digits, and single marks, each followed by a letter. */
  predicate Marked(s: string) {
    && (forall i :: 0 <= i < |s| ==> LetterOrDigit(s[i]) || AlgorithmMark(s[i]))
    && (forall i :: 0 <= i < |s| && AlgorithmMark(s[i]) ==> i + 1 < |s| && AnyLetter(s[i + 1]))
  }

  predicate AlgorithmText(s: string) {
    s != "" && AnyLetter(s[0]) && Marked(s)
  }

  predicate EncodedText(s: string) {
    s != "" && forall i :: 0 <= i < |s| ==> LetterOrDigit(s[i]) || s[i] == '=' || s[i] == '_' || s[i] == '-'
  }

  const MARKED_PART_RE := Cat(Class(AlgorithmSeparator), ALGORITHM_PART_RE)

  lemma {:induction false} AlgorithmPartIff(s: string)
    ensures In(ALGORITHM_PART_RE, s) <==>
            s != "" && AnyLetter(s[0]) && forall i :: 0 <= i < |s| ==> LetterOrDigit(s[i])
  {
    OneThen(Letter, Star(Class(Alnum)), s);
    if s != "" {
      StarIff(Alnum, s[1..]);
      assert s == [s[0]] + s[1..];
    }
  }

  lemma {:induction false} MarkedPartIff(s: string)
    ensures In(MARKED_PART_RE, s) <==>
            && |s| > 1 && AlgorithmMark(s[0]) && AnyLetter(s[1])
            && forall i :: 1 <= i < |s| ==> LetterOrDigit(s[i])
  {
    OneThen(AlgorithmSeparator, ALGORITHM_PART_RE, s);
    if s != "" {
      AlgorithmPartIff(s[1..]);
      assert s == [s[0]] + s[1..];
    }
  }

  lemma {:induction false} MarkedAppend(part: string, rest: string)
    requires Marked(part) && Marked(rest)
    ensures Marked(part + rest)
  {
    var s, n := part + rest, |part|;
    assert forall i :: 0 <= i < n ==> s[i] == part[i];
    assert forall i :: n <= i < |s| ==> s[i] == rest[i - n];
  }

  lemma {:induction false} MarkedFrom(s: string, i: nat)
    requires Marked(s) && i <= |s|
    ensures Marked(s[i..])
  {
  }

  lemma {:induction false} MarkedPartsIff(s: string)
    ensures In(Star(MARKED_PART_RE), s) <==> Marked(s) && (s != "" ==> AlgorithmMark(s[0]))
    decreases |s|
  {
    if s != "" {
      if In(Star(MARKED_PART_RE), s) {
        var i :| 0 < i <= |s| && In(MARKED_PART_RE, s[..i]) && In(Star(MARKED_PART_RE), s[i..]);
        MarkedPartIff(s[..i]);
        MarkedPartsIff(s[i..]);
        MarkedAppend(s[..i], s[i..]);
        assert s == s[..i] + s[i..];
      }
      if Marked(s) && AlgorithmMark(s[0]) {
        var i := EndOf(s, 1, LetterOrDigit);
        MarkedPartIff(s[..i]);
        MarkedFrom(s, i);
        MarkedPartsIff(s[i..]);
      }
    }
  }

  lemma {:induction false} AlgorithmIff(s: string)
    ensures In(ALGORITHM_RE, s) <==> AlgorithmText(s)
  {
    if In(ALGORITHM_RE, s) {
      var i := CatWord(ALGORITHM_PART_RE, Star(MARKED_PART_RE), s);
      AlgorithmPartIff(s[..i]);
      MarkedPartsIff(s[i..]);
      MarkedAppend(s[..i], s[i..]);
      assert s == s[..i] + s[i..];
    }
    if AlgorithmText(s) {
      var i := EndOf(s, 0, LetterOrDigit);
      AlgorithmPartIff(s[..i]);
      MarkedFrom(s, i);
      MarkedPartsIff(s[i..]);
      CatIntro(ALGORITHM_PART_RE, Star(MARKED_PART_RE), s[..i], s[i..]);
      assert s == s[..i] + s[i..];
    }
  }

  ghost predicate DigestText(s: string) {
    exists algorithm, encoded ::
      s == algorithm + ":" + encoded && AlgorithmText(algorithm) && EncodedText(encoded)
  }

  lemma {:induction false} TakeColon(front: string, tail: string)
    requires tail != "" && tail[0] == ':'
    ensures front + tail == front + ":" + tail[1..]
  {
    assert tail == ":" + tail[1..];
  }

  lemma {:induction false} DigestIs(s: string)
    requires In(DIGEST_RE, s)
    ensures DigestText(s)
  {
    var i := CatWord(ALGORITHM_RE, ENCODED_RE, s);
    var algorithm, tail := s[..i], s[i..];
    AlgorithmIff(algorithm);
    EncodedIff(tail);
    TakeColon(algorithm, tail);
    assert s == algorithm + tail;
  }

  lemma {:induction false} AlgorithmAndCode(algorithm: string, encoded: string)
    requires AlgorithmText(algorithm) && EncodedText(encoded)
    ensures In(DIGEST_RE, algorithm + ":" + encoded)
  {
    var tail := ":" + encoded;
    AlgorithmIff(algorithm);
    assert tail[1..] == encoded;
    EncodedIff(tail);
    CatIntro(ALGORITHM_RE, ENCODED_RE, algorithm, tail);
    assert algorithm + tail == algorithm + ":" + encoded;
  }

  /** A digest: an algorithm, a colon, and what it encodes. */
  lemma {:induction false} DigestIff(s: string)
    ensures In(DIGEST_RE, s) <==> DigestText(s)
  {
    if In(DIGEST_RE, s) { DigestIs(s); }
    if algorithm, encoded :| s == algorithm + ":" + encoded && AlgorithmText(algorithm) && EncodedText(encoded) {
      AlgorithmAndCode(algorithm, encoded);
    }
  }

  lemma {:induction false} EncodedIff(s: string)
    ensures In(ENCODED_RE, s) <==> s != "" && s[0] == ':' && EncodedText(s[1..])
  {
    LitThen(':', Plus(Class(EncodedChar)), s);
    if s != "" { PlusIff(EncodedChar, s[1..]); }
  }
}
