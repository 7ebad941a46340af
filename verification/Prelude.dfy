/** Shared value types and the string functions of Go's `strings` package that ribat uses. */
module Prelude {

  datatype Option<+T> = None | Some(value: T)

  datatype Result<+T, +E> = Ok(value: T) | Err(error: E)

  function Max(a: int, b: int): int {
    if a < b then b else a
  }

  function Min(a: int, b: int): int {
    if a < b then a else b
  }

  lemma {:induction false} SomeElement(s: set<int>)
    ensures s != {} ==> exists x :: x in s
  {
    if forall x :: x !in s {
      assert s == {};
    }
  }
}

module Text {

  /** The Unicode White_Space characters, which `strings.TrimSpace` removes. */
  predicate IsSpace(c: char) {
    '\t' <= c <= '\r' || c == ' ' || c == '\U{0085}' || c == '\U{00A0}' || c == '\U{1680}'
    || '\U{2000}' <= c <= '\U{200A}' || c == '\U{2028}' || c == '\U{2029}' || c == '\U{202F}'
    || c == '\U{205F}' || c == '\U{3000}'
  }

  function TrimLeft(s: string): string {
    if s != "" && IsSpace(s[0]) then TrimLeft(s[1..]) else s
  }

  function TrimRight(s: string): string {
    if s != "" && IsSpace(s[|s| - 1]) then TrimRight(s[..|s| - 1]) else s
  }

  function TrimSpace(s: string): string {
    TrimRight(TrimLeft(s))
  }

  /** `strings.Trim(s, cut)` for a one-character cut set. */
  function TrimCharLeft(s: string, cut: char): string {
    if s != "" && s[0] == cut then TrimCharLeft(s[1..], cut) else s
  }

  function TrimCharRight(s: string, cut: char): string {
    if s != "" && s[|s| - 1] == cut then TrimCharRight(s[..|s| - 1], cut) else s
  }

  function TrimChar(s: string, cut: char): string {
    TrimCharRight(TrimCharLeft(s, cut), cut)
  }

  predicate HasPrefix(s: string, prefix: string) {
    |prefix| <= |s| && s[..|prefix|] == prefix
  }

  predicate HasSuffix(s: string, suffix: string) {
    |suffix| <= |s| && s[|s| - |suffix|..] == suffix
  }

  predicate Contains(s: string, sub: string) {
    exists i :: 0 <= i <= |s| && HasPrefix(s[i..], sub)
  }

  /** The first position of `c` in `s`, or `|s|`. */
  function IndexOf(s: string, c: char): (i: nat)
    ensures i <= |s| && (i < |s| ==> s[i] == c)
    ensures forall k :: 0 <= k < i ==> s[k] != c
  {
    if s == "" || s[0] == c then 0 else 1 + IndexOf(s[1..], c)
  }

  /** The last position of `c` in `s`, or -1. */
  function LastIndex(s: string, c: char): (i: int)
    ensures -1 <= i < |s|
    ensures i >= 0 ==> s[i] == c
    ensures forall k :: i < k < |s| ==> s[k] != c
  {
    if s == "" then -1
    else if s[|s| - 1] == c then |s| - 1
    else LastIndex(s[..|s| - 1], c)
  }

  function Split(s: string, sep: char): (parts: seq<string>)
    ensures |parts| >= 1
    ensures forall k :: 0 <= k < |parts| ==> sep !in parts[k]
  {
    var i := IndexOf(s, sep);
    if i == |s| then assert s[..i] == s; [s]
    else [s[..i]] + Split(s[i + 1..], sep)
  }

  function Join(parts: seq<string>, sep: char): string {
    if parts == [] then ""
    else if |parts| == 1 then parts[0]
    else parts[0] + [sep] + Join(parts[1..], sep)
  }

  /** Simple case folding, as far as it reaches ASCII letters. */
  function Fold(c: char): char {
    if 'a' <= c <= 'z' then c - 'a' + 'A'
    else if c == '\U{017F}' then 'S'
    else if c == '\U{212A}' then 'K'
    else c
  }

  predicate EqualFold(s: string, upper: string) {
    |s| == |upper| && forall i :: 0 <= i < |s| ==> Fold(s[i]) == upper[i]
  }

  /** `unicode.ToLower`, as far as it reaches ASCII letters. */
  function Lower(c: char): char {
    if 'A' <= c <= 'Z' then c - 'A' + 'a'
    else if c == '\U{0130}' then 'i'
    else if c == '\U{212A}' then 'k'
    else c
  }

  function ToLower(s: string): string {
    seq(|s|, i requires 0 <= i < |s| => Lower(s[i]))
  }

  lemma {:induction false} IndexOfUnique(s: string, c: char, i: nat)
    requires i <= |s| && (i < |s| ==> s[i] == c)
    requires forall k :: 0 <= k < i ==> s[k] != c
    ensures IndexOf(s, c) == i
  {
  }

  lemma {:induction false} SplitNone(s: string, sep: char)
    requires sep !in s
    ensures Split(s, sep) == [s]
  {
    assert s[..|s|] == s;
    IndexOfUnique(s, sep, |s|);
  }

  lemma {:induction false} SplitCons(a: string, sep: char, b: string)
    requires sep !in a
    ensures Split(a + [sep] + b, sep) == [a] + Split(b, sep)
  {
    var s := a + [sep] + b;
    assert s[..|a|] == a && s[|a| + 1..] == b;
    IndexOfUnique(s, sep, |a|);
  }

  lemma {:induction false} JoinCons(head: string, rest: seq<string>, sep: char)
    requires rest != []
    ensures Join([head] + rest, sep) == head + [sep] + Join(rest, sep)
  {
    assert ([head] + rest)[1..] == rest;
  }

  lemma {:induction false} SplitFirst(s: string, sep: char)
    requires sep in s
    ensures var i := IndexOf(s, sep);
            i < |s| && s == s[..i] + [sep] + s[i + 1..] && Split(s, sep) == [s[..i]] + Split(s[i + 1..], sep)
  {
  }

  lemma {:induction false} JoinOne(s: string, sep: char)
    ensures Join([s], sep) == s
  {
  }

  lemma {:induction false} JoinSplit(s: string, sep: char)
    ensures Join(Split(s, sep), sep) == s
    decreases |s|
  {
    if sep in s {
      var i := IndexOf(s, sep);
      SplitFirst(s, sep);
      JoinSplit(s[i + 1..], sep);
      JoinCons(s[..i], Split(s[i + 1..], sep), sep);
    } else {
      SplitNone(s, sep);
      JoinOne(s, sep);
    }
  }

  lemma {:induction false} SplitJoin(parts: seq<string>, sep: char)
    requires parts != [] && forall k :: 0 <= k < |parts| ==> sep !in parts[k]
    ensures Split(Join(parts, sep), sep) == parts
    decreases |parts|
  {
    if |parts| == 1 {
      SplitNone(parts[0], sep);
    } else {
      SplitJoin(parts[1..], sep);
      SplitCons(parts[0], sep, Join(parts[1..], sep));
    }
  }

  /** A path without empty components has no doubled, leading or trailing separator. */
  lemma {:induction false} NoEmptyComponent(s: string, sep: char)
    requires "" !in Split(s, sep)
    ensures s != "" && s[0] != sep && s[|s| - 1] != sep
    ensures forall i :: 0 <= i < |s| - 1 && s[i] == sep ==> s[i + 1] != sep
    decreases |s|
  {
    var i := IndexOf(s, sep);
    if i < |s| {
      var rest := s[i + 1..];
      assert Split(s, sep) == [s[..i]] + Split(rest, sep);
      assert s[..i] in Split(s, sep);
      forall p | p in Split(rest, sep) ensures p in Split(s, sep) { }
      NoEmptyComponent(rest, sep);
      forall k | 0 <= k < |s| - 1 && s[k] == sep ensures s[k + 1] != sep {
        if k == i { assert s[k + 1] == rest[0]; }
        if k > i { assert s[k] == rest[k - i - 1] && s[k + 1] == rest[k - i]; }
      }
      assert s[|s| - 1] == rest[|rest| - 1];
    } else {
      assert s[..i] == s;
      assert Split(s, sep) == [s];
      assert s in Split(s, sep);
    }
  }

  lemma {:induction false} TrimSpaceIdentity(s: string)
    requires s == "" || (!IsSpace(s[0]) && !IsSpace(s[|s| - 1]))
    ensures TrimSpace(s) == s
  {
  }

  lemma {:induction false} TrimLeftSpaces(pad: string, s: string)
    requires forall i :: 0 <= i < |pad| ==> IsSpace(pad[i])
    ensures TrimLeft(pad + s) == TrimLeft(s)
  {
    if pad != "" {
      assert (pad + s)[1..] == pad[1..] + s;
      TrimLeftSpaces(pad[1..], s);
    } else {
      assert pad + s == s;
    }
  }

  lemma {:induction false} TrimRightSpaces(s: string, white: string)
    requires forall i :: 0 <= i < |white| ==> IsSpace(white[i])
    ensures TrimRight(s + white) == TrimRight(s)
  {
    if white != "" {
      var n := |white| - 1;
      assert (s + white)[..|s + white| - 1] == s + white[..n];
      TrimRightSpaces(s, white[..n]);
    } else {
      assert s + white == s;
    }
  }

  predicate All(s: string, c: char) {
    forall i :: 0 <= i < |s| ==> s[i] == c
  }

  lemma {:induction false} TrimCharLeftSplits(s: string, cut: char) returns (a: string)
    ensures All(a, cut) && s == a + TrimCharLeft(s, cut)
    ensures TrimCharLeft(s, cut) == "" || TrimCharLeft(s, cut)[0] != cut
  {
    if s != "" && s[0] == cut {
      a := TrimCharLeftSplits(s[1..], cut);
      a := [cut] + a;
    } else {
      a := "";
    }
  }

  lemma {:induction false} TrimCharRightSplits(s: string, cut: char) returns (b: string)
    ensures All(b, cut) && s == TrimCharRight(s, cut) + b
    ensures TrimCharRight(s, cut) == "" || TrimCharRight(s, cut)[|TrimCharRight(s, cut)| - 1] != cut
  {
    if s != "" && s[|s| - 1] == cut {
      b := TrimCharRightSplits(s[..|s| - 1], cut);
      b := b + [cut];
    } else {
      b := "";
    }
  }

  lemma {:induction false} TrimCharLeftOf(a: string, s: string, cut: char)
    requires All(a, cut)
    ensures TrimCharLeft(a + s, cut) == TrimCharLeft(s, cut)
  {
    if a == "" {
      assert a + s == s;
    } else {
      assert (a + s)[1..] == a[1..] + s;
      TrimCharLeftOf(a[1..], s, cut);
    }
  }

  lemma {:induction false} TrimCharRightOf(s: string, b: string, cut: char)
    requires All(b, cut)
    ensures TrimCharRight(s + b, cut) == TrimCharRight(s, cut)
  {
    if b == "" {
      assert s + b == s;
    } else {
      assert (s + b)[..|s + b| - 1] == s + b[..|b| - 1];
      TrimCharRightOf(s, b[..|b| - 1], cut);
    }
  }

  /** What trimming leaves: the text between the characters that are cut off at both ends. */
  ghost predicate Trims(s: string, cut: char, t: string) {
    && (t != "" ==> t[0] != cut && t[|t| - 1] != cut)
    && exists a, b :: All(a, cut) && All(b, cut) && s == a + t + b
  }

  lemma {:induction false} TrimCharIff(s: string, cut: char, t: string)
    ensures TrimChar(s, cut) == t <==> Trims(s, cut, t)
  {
    var left := TrimCharLeft(s, cut);
    if TrimChar(s, cut) == t {
      var a := TrimCharLeftSplits(s, cut);
      var b := TrimCharRightSplits(left, cut);
      assert s == a + t + b;
      assert t != "" ==> t[0] == left[0];
    }
    if Trims(s, cut, t) {
      var a, b :| All(a, cut) && All(b, cut) && s == a + t + b;
      assert s == a + (t + b);
      TrimCharLeftOf(a, t + b, cut);
      if t == "" {
        assert t + b == b && b + "" == b;
        TrimCharLeftOf(b, "", cut);
      } else {
        TrimCharRightOf(t, b, cut);
      }
    }
  }
}
