/** Regular expressions: the language of an expression, and a derivative matcher proved to decide it. */
module Regex {

  datatype Re =
    | Void
    | Eps
    | Lit(c: char)
    | Class(p: char -> bool)
    | Cat(left: Re, right: Re)
    | Alt(left: Re, right: Re)
    | Star(body: Re)
    | Repeat(body: Re, max: nat)

  function Plus(r: Re): Re {
    Cat(r, Star(r))
  }

  function Opt(r: Re): Re {
    Alt(Eps, r)
  }

  /** The language of an expression, by its usual definition. */
  ghost predicate In(r: Re, s: string)
    decreases |s|, r
  {
    match r
    case Void => false
    case Eps => s == ""
    case Lit(c) => s == [c]
    case Class(p) => |s| == 1 && p(s[0])
    case Cat(a, b) => exists i :: 0 <= i <= |s| && In(a, s[..i]) && In(b, s[i..])
    case Alt(a, b) => In(a, s) || In(b, s)
    case Star(a) => s == "" || exists i :: 0 < i <= |s| && In(a, s[..i]) && In(r, s[i..])
    case Repeat(a, n) =>
      s == "" || (n > 0 && exists i :: 0 < i <= |s| && In(a, s[..i]) && In(Repeat(a, n - 1), s[i..]))
  }

  predicate Nullable(r: Re) {
    match r
    case Void => false
    case Eps => true
    case Lit(_) => false
    case Class(_) => false
    case Cat(a, b) => Nullable(a) && Nullable(b)
    case Alt(a, b) => Nullable(a) || Nullable(b)
    case Star(_) => true
    case Repeat(_, _) => true
  }

  function Derive(r: Re, c: char): Re {
    match r
    case Void => Void
    case Eps => Void
    case Lit(d) => if d == c then Eps else Void
    case Class(p) => if p(c) then Eps else Void
    case Cat(a, b) =>
      if Nullable(a) then Alt(Cat(Derive(a, c), b), Derive(b, c)) else Cat(Derive(a, c), b)
    case Alt(a, b) => Alt(Derive(a, c), Derive(b, c))
    case Star(a) => Cat(Derive(a, c), r)
    case Repeat(a, n) => if n == 0 then Void else Cat(Derive(a, c), Repeat(a, n - 1))
  }

  /** `MatchString` of an expression anchored at both ends. */
  predicate MatchString(r: Re, s: string)
    decreases |s|
  {
    if s == "" then Nullable(r) else MatchString(Derive(r, s[0]), s[1..])
  }

  lemma {:induction false} NullableIsEmptyWord(r: Re)
    ensures Nullable(r) <==> In(r, "")
  {
    match r
    case Cat(a, b) =>
      NullableIsEmptyWord(a);
      NullableIsEmptyWord(b);
      var e := "";
      assert e[..0] == "" && e[0..] == "";
    case Alt(a, b) =>
      NullableIsEmptyWord(a);
      NullableIsEmptyWord(b);
    case _ =>
  }

  /** Splits of `w` whose first part is not empty. */
  ghost predicate InParts(a: Re, b: Re, w: string) {
    exists j :: 0 < j <= |w| && In(a, w[..j]) && In(b, w[j..])
  }

  lemma {:induction false} DropFirst(c: char, s: string, i: nat)
    requires i <= |s|
    ensures ([c] + s)[..i + 1] == [c] + s[..i] && ([c] + s)[i + 1..] == s[i..]
  {
  }

  lemma {:induction false} FirstPartForward(a: Re, b: Re, c: char, s: string, i: nat)
    requires i <= |s| && In(a, [c] + s[..i]) && In(b, s[i..])
    ensures InParts(a, b, [c] + s)
  {
    DropFirst(c, s, i);
    var w := [c] + s;
    assert In(a, w[..i + 1]) && In(b, w[i + 1..]);
  }

  lemma {:induction false} FirstPartBackward(a: Re, b: Re, c: char, s: string) returns (i: nat)
    requires InParts(a, b, [c] + s)
    ensures i <= |s| && In(a, [c] + s[..i]) && In(b, s[i..])
  {
    var w := [c] + s;
    var j :| 0 < j <= |w| && In(a, w[..j]) && In(b, w[j..]);
    i := j - 1;
    DropFirst(c, s, i);
  }

  lemma {:induction false} DeriveFirstPart(a: Re, b: Re, c: char, s: string)
    requires forall i :: 0 <= i <= |s| ==> (In(Derive(a, c), s[..i]) <==> In(a, [c] + s[..i]))
    ensures In(Cat(Derive(a, c), b), s) <==> InParts(a, b, [c] + s)
  {
    if In(Cat(Derive(a, c), b), s) {
      var i :| 0 <= i <= |s| && In(Derive(a, c), s[..i]) && In(b, s[i..]);
      FirstPartForward(a, b, c, s, i);
    }
    if InParts(a, b, [c] + s) {
      var i := FirstPartBackward(a, b, c, s);
      assert In(Derive(a, c), s[..i]) && In(b, s[i..]);
    }
  }

  lemma {:induction false} CatParts(a: Re, b: Re, w: string)
    ensures In(Cat(a, b), w) <==> (In(a, "") && In(b, w)) || InParts(a, b, w)
  {
    assert w[..0] == "" && w[0..] == w;
  }

  lemma {:induction false} DeriveIsQuotient(r: Re, c: char, s: string)
    ensures In(Derive(r, c), s) <==> In(r, [c] + s)
    decreases r
  {
    var w := [c] + s;
    match r
    case Cat(a, b) =>
      forall i | 0 <= i <= |s| ensures In(Derive(a, c), s[..i]) <==> In(a, [c] + s[..i]) {
        DeriveIsQuotient(a, c, s[..i]);
      }
      DeriveFirstPart(a, b, c, s);
      CatParts(a, b, w);
      NullableIsEmptyWord(a);
      DeriveIsQuotient(b, c, s);
    case Alt(a, b) =>
      DeriveIsQuotient(a, c, s);
      DeriveIsQuotient(b, c, s);
    case Star(a) =>
      forall i | 0 <= i <= |s| ensures In(Derive(a, c), s[..i]) <==> In(a, [c] + s[..i]) {
        DeriveIsQuotient(a, c, s[..i]);
      }
      DeriveFirstPart(a, r, c, s);
    case Repeat(a, n) =>
      forall i | 0 <= i <= |s| ensures In(Derive(a, c), s[..i]) <==> In(a, [c] + s[..i]) {
        DeriveIsQuotient(a, c, s[..i]);
      }
      if n > 0 {
        DeriveFirstPart(a, Repeat(a, n - 1), c, s);
      }
    case _ =>
      assert w[0] == c && |w| == |s| + 1;
      assert s == "" ==> w == [c];
  }

  lemma {:induction false} MatchStringDecides(r: Re, s: string)
    ensures MatchString(r, s) <==> In(r, s)
    decreases |s|
  {
    if s == "" {
      NullableIsEmptyWord(r);
    } else {
      MatchStringDecides(Derive(r, s[0]), s[1..]);
      DeriveIsQuotient(r, s[0], s[1..]);
      assert s == [s[0]] + s[1..];
    }
  }

  /** Every character an expression can consume satisfies `ok`. */
  ghost predicate Over(r: Re, ok: char -> bool) {
    match r
    case Void => true
    case Eps => true
    case Lit(c) => ok(c)
    case Class(p) => forall c: char :: p(c) ==> ok(c)
    case Cat(a, b) => Over(a, ok) && Over(b, ok)
    case Alt(a, b) => Over(a, ok) && Over(b, ok)
    case Star(a) => Over(a, ok)
    case Repeat(a, _) => Over(a, ok)
  }

  lemma {:induction false} WordsOver(r: Re, ok: char -> bool, s: string)
    requires Over(r, ok) && In(r, s)
    ensures forall k :: 0 <= k < |s| ==> ok(s[k])
    decreases |s|, r
  {
    match r
    case Cat(a, b) =>
      var i :| 0 <= i <= |s| && In(a, s[..i]) && In(b, s[i..]);
      WordsOver(a, ok, s[..i]);
      WordsOver(b, ok, s[i..]);
      assert s == s[..i] + s[i..];
    case Alt(a, b) =>
      if In(a, s) { WordsOver(a, ok, s); } else { WordsOver(b, ok, s); }
    case Star(a) =>
      if s != "" {
        var i :| 0 < i <= |s| && In(a, s[..i]) && In(r, s[i..]);
        WordsOver(a, ok, s[..i]);
        WordsOver(r, ok, s[i..]);
        assert s == s[..i] + s[i..];
      }
    case Repeat(a, n) =>
      if s != "" {
        var i :| 0 < i <= |s| && In(a, s[..i]) && In(Repeat(a, n - 1), s[i..]);
        WordsOver(a, ok, s[..i]);
        WordsOver(Repeat(a, n - 1), ok, s[i..]);
        assert s == s[..i] + s[i..];
      }
    case _ =>
  }

  lemma {:induction false} OptWord(r: Re, s: string)
    requires In(Opt(r), s)
    ensures s == "" || In(r, s)
  {
  }

  lemma {:induction false} CatWord(a: Re, b: Re, s: string) returns (i: nat)
    requires In(Cat(a, b), s)
    ensures i <= |s| && In(a, s[..i]) && In(b, s[i..])
  {
    i :| 0 <= i <= |s| && In(a, s[..i]) && In(b, s[i..]);
  }

  lemma {:induction false} PlusWord(p: char -> bool, s: string)
    requires In(Plus(Class(p)), s)
    ensures s != "" && forall k :: 0 <= k < |s| ==> p(s[k])
  {
    var r := Class(p);
    var i := CatWord(r, Star(r), s);
    WordsOver(Star(r), p, s[i..]);
    assert s == s[..i] + s[i..];
  }

  lemma {:induction false} CatIntro(a: Re, b: Re, s: string, t: string)
    requires In(a, s) && In(b, t)
    ensures In(Cat(a, b), s + t)
  {
    assert (s + t)[..|s|] == s && (s + t)[|s|..] == t;
  }

  lemma {:induction false} StarIntro(p: char -> bool, s: string)
    requires forall k :: 0 <= k < |s| ==> p(s[k])
    ensures In(Star(Class(p)), s)
  {
    if s != "" {
      StarIntro(p, s[1..]);
      assert In(Class(p), s[..1]);
    }
  }

  lemma {:induction false} PlusIntro(p: char -> bool, s: string)
    requires s != "" && forall k :: 0 <= k < |s| ==> p(s[k])
    ensures In(Plus(Class(p)), s)
  {
    StarIntro(p, s[1..]);
    CatIntro(Class(p), Star(Class(p)), s[..1], s[1..]);
    assert s[..1] + s[1..] == s;
  }
}
