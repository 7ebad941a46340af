/**
 Rule matching (internal/policy/matcher.go): first matching rule, overlay, and the translation of
 `*` patterns into anchored regular expressions.
 */
module RegexText {
  import opened Prelude

  /** The fragment of RE2 syntax that `wildcardMatch` writes. */
  datatype Atom = Any | One(c: char)
  datatype Item = Begin | End | Once(atom: Atom) | Many(atom: Atom)

  const META := ['\\', '.', '+', '*', '?', '(', ')', '|', '[', ']', '{', '}', '^', '$']

  function QuoteMeta(c: char): string {
    if c in META then ['\\', c] else [c]
  }

  /** Reads a source text of the fragment; `None` is anything outside of it, or an error. */
  function Compile(src: string): Option<seq<Item>>
    decreases |src|, 0
  {
    if src == "" then Some([])
    else if src[0] == '^' then Prepend(Begin, Compile(src[1..]))
    else if src[0] == '$' then Prepend(End, Compile(src[1..]))
    else if src[0] == '.' then CompileRepeat(Any, src[1..])
    else if src[0] == '\\' then
      if |src| > 1 && src[1] in META then CompileRepeat(One(src[1]), src[2..]) else None
    else if src[0] in META then None
    else CompileRepeat(One(src[0]), src[1..])
  }

  function CompileRepeat(atom: Atom, rest: string): Option<seq<Item>>
    decreases |rest|, 1
  {
    if rest != "" && rest[0] == '*' then Prepend(Many(atom), Compile(rest[1..]))
    else Prepend(Once(atom), Compile(rest))
  }

  function Prepend(item: Item, tail: Option<seq<Item>>): Option<seq<Item>> {
    if tail.Some? then Some([item] + tail.value) else None
  }

  predicate Accepts(atom: Atom, c: char) {
    match atom
    case Any => c != '\n'
    case One(d) => c == d
  }

  predicate MatchAt(items: seq<Item>, v: string, i: nat)
    requires i <= |v|
    decreases |items|
  {
    if items == [] then true
    else
      match items[0]
      case Begin => i == 0 && MatchAt(items[1..], v, i)
      case End => i == |v| && MatchAt(items[1..], v, i)
      case Once(a) => i < |v| && Accepts(a, v[i]) && MatchAt(items[1..], v, i + 1)
      case Many(a) =>
        exists j: nat :: i <= j <= |v| && Spans(a, v, i, j) && MatchAt(items[1..], v, j)
  }

  predicate Spans(a: Atom, v: string, i: nat, j: nat)
    requires i <= j <= |v|
  {
    forall k :: i <= k < j ==> Accepts(a, v[k])
  }

  /** `MatchString`: some place in the text matches. */
  predicate MatchString(items: seq<Item>, v: string) {
    exists i: nat :: i <= |v| && MatchAt(items, v, i)
  }
}

module Matcher {
  import opened Prelude
  import opened Text
  import opened Policy
  import opened RegexText
  import opened Image

  // ---------------------------------------------------------------- wildcards

  /** The regular expression text for a pattern, without the anchors. */
  function WildcardBody(pattern: string): string {
    if pattern == "" then ""
    else (if pattern[0] == '*' then ".*" else QuoteMeta(pattern[0])) + WildcardBody(pattern[1..])
  }

  function WildcardSource(pattern: string): string {
    "^" + WildcardBody(pattern) + "$"
  }

  /** `None` stands for the compile error. */
  function WildcardMatch(pattern: string, value: string): Option<bool> {
    match Compile(WildcardSource(pattern))
    case None => None
    case Some(items) => Some(MatchString(items, value))
  }

  lemma {:induction false} WildcardBodyAppend(p: string, c: char)
    ensures WildcardBody(p + [c]) == WildcardBody(p) + if c == '*' then ".*" else QuoteMeta(c)
    decreases |p|
  {
    if p == "" {
      assert p + [c] == [c];
      assert WildcardBody([c][1..]) == "";
    } else {
      assert (p + [c])[1..] == p[1..] + [c];
      WildcardBodyAppend(p[1..], c);
    }
  }

  /** matcher.go:83-100, with its loop over the builder. */
  method WildcardMatchLoop(pattern: string, value: string) returns (matched: Option<bool>)
    ensures matched == WildcardMatch(pattern, value)
  {
    var builder := "^";
    for i := 0 to |pattern|
      invariant builder == "^" + WildcardBody(pattern[..i])
    {
      assert pattern[..i + 1] == pattern[..i] + [pattern[i]];
      WildcardBodyAppend(pattern[..i], pattern[i]);
      if pattern[i] == '*' {
        builder := builder + ".*";
      } else {
        builder := builder + QuoteMeta(pattern[i]);
      }
    }
    assert pattern[..|pattern|] == pattern;
    builder := builder + "$";
    var compiled := Compile(builder);
    matched := if compiled.None? then None else Some(MatchString(compiled.value, value));
  }

  function Stars(p: string): nat {
    if p == "" then 0 else (if p[0] == '*' then 1 else 0) + Stars(p[1..])
  }

  /** The pattern with its n-th `*` replaced by the n-th filler. */
  function Fill(p: string, fillers: seq<string>): string
    requires |fillers| == Stars(p)
  {
    if p == "" then ""
    else if p[0] == '*' then fillers[0] + Fill(p[1..], fillers[1..])
    else [p[0]] + Fill(p[1..], fillers)
  }

  ghost predicate NewlineFree(fillers: seq<string>) {
    forall k :: 0 <= k < |fillers| ==> '\n' !in fillers[k]
  }

  /** What a `*` pattern means. */
  ghost predicate GlobMatches(p: string, v: string) {
    exists fillers :: |fillers| == Stars(p) && v == Fill(p, fillers)
  }

  ghost predicate GlobMatchesByLine(p: string, v: string) {
    exists fillers :: |fillers| == Stars(p) && NewlineFree(fillers) && v == Fill(p, fillers)
  }

  /** The compiled form of a pattern after its first anchor. */
  function Items(p: string): seq<Item> {
    if p == "" then [End]
    else [if p[0] == '*' then Many(Any) else Once(One(p[0]))] + Items(p[1..])
  }

  /** No pattern can make the compilation fail, and none is read as anything but literals and `*`. */
  lemma {:induction false} CompiledWildcard(p: string)
    ensures Compile(WildcardSource(p)) == Some([Begin] + Items(p))
  {
    assert WildcardSource(p)[1..] == WildcardBody(p) + "$";
    CompiledBody(p);
  }

  lemma {:induction false} CompiledBody(p: string)
    ensures Compile(WildcardBody(p) + "$") == Some(Items(p))
    decreases |p|
  {
    var src := WildcardBody(p) + "$";
    if p == "" {
      assert src == "$" && src[1..] == "";
      assert Compile(src[1..]) == Some([]);
      assert Compile(src) == Prepend(End, Some([])) == Some([End] + []);
      assert [End] + [] == [End] == Items(p);
    } else {
      var rest := WildcardBody(p[1..]) + "$";
      CompiledBody(p[1..]);
      assert rest[0] != '*' by { WildcardHead(p[1..]); }
      if p[0] == '*' {
        assert src == ".*" + rest;
        assert src[1..] == "*" + rest && src[1..][1..] == rest;
      } else if p[0] in META {
        assert src == ['\\', p[0]] + rest && src[2..] == rest;
      } else {
        assert src == [p[0]] + rest && src[1..] == rest;
        assert p[0] != '^' && p[0] != '$' && p[0] != '.' && p[0] != '\\' by { MetaMembers(); }
      }
    }
  }

  lemma {:induction false} MetaMembers()
    ensures '^' in META && '$' in META && '.' in META && '\\' in META && '*' in META
  {
    assert META[12] == '^' && META[13] == '$' && META[1] == '.' && META[0] == '\\' && META[3] == '*';
  }

  /** What follows a literal is never a repetition operator. */
  lemma {:induction false} WildcardHead(p: string)
    ensures (WildcardBody(p) + "$")[0] != '*'
  {
    MetaMembers();
  }

  lemma {:induction false} GlobLiteral(p: string, w: string)
    requires p != "" && p[0] != '*'
    ensures GlobMatchesByLine(p, w) <==> w != "" && w[0] == p[0] && GlobMatchesByLine(p[1..], w[1..])
  {
    if GlobMatchesByLine(p, w) {
      var f :| |f| == Stars(p) && NewlineFree(f) && w == Fill(p, f);
      assert w[1..] == Fill(p[1..], f);
    }
    if w != "" && w[0] == p[0] && GlobMatchesByLine(p[1..], w[1..]) {
      var f :| |f| == Stars(p[1..]) && NewlineFree(f) && w[1..] == Fill(p[1..], f);
      assert Fill(p, f) == w;
    }
  }

  lemma {:induction false} GlobStarTaken(p: string, w: string) returns (j: nat)
    requires p != "" && p[0] == '*' && GlobMatchesByLine(p, w)
    ensures j <= |w| && Spans(Any, w, 0, j) && GlobMatchesByLine(p[1..], w[j..])
  {
    var g :| |g| == Stars(p) && NewlineFree(g) && w == Fill(p, g);
    j := |g[0]|;
    assert w == g[0] + Fill(p[1..], g[1..]);
    assert w[..j] == g[0] && w[j..] == Fill(p[1..], g[1..]);
    assert NewlineFree(g[1..]);
    assert forall k :: 0 <= k < j ==> w[k] == g[0][k];
  }

  lemma {:induction false} GlobStarGiven(p: string, w: string, j: nat)
    requires p != "" && p[0] == '*' && j <= |w| && Spans(Any, w, 0, j) && GlobMatchesByLine(p[1..], w[j..])
    ensures GlobMatchesByLine(p, w)
  {
    var f :| |f| == Stars(p[1..]) && NewlineFree(f) && w[j..] == Fill(p[1..], f);
    var g := [w[..j]] + f;
    assert g[1..] == f && NewlineFree(g);
    assert Fill(p, g) == w[..j] + w[j..] == w;
  }

  lemma {:induction false} GlobStar(p: string, w: string)
    requires p != "" && p[0] == '*'
    ensures GlobMatchesByLine(p, w) <==>
            exists j: nat :: j <= |w| && Spans(Any, w, 0, j) && GlobMatchesByLine(p[1..], w[j..])
  {
    if GlobMatchesByLine(p, w) {
      var j := GlobStarTaken(p, w);
    }
    if j: nat :| j <= |w| && Spans(Any, w, 0, j) && GlobMatchesByLine(p[1..], w[j..]) {
      GlobStarGiven(p, w, j);
    }
  }

  lemma {:induction false} MatchIsFill(p: string, v: string, i: nat)
    requires i <= |v|
    ensures MatchAt(Items(p), v, i) <==> GlobMatchesByLine(p, v[i..])
    decreases |p|
  {
    var w := v[i..];
    if p == "" {
      var none: seq<string> := [];
      assert NewlineFree(none) && Fill(p, none) == "";
    } else if p[0] == '*' {
      GlobStar(p, w);
      forall j: nat | i <= j <= |v|
        ensures MatchAt(Items(p[1..]), v, j) <==> GlobMatchesByLine(p[1..], w[j - i..])
        ensures Spans(Any, v, i, j) <==> Spans(Any, w, 0, j - i)
      {
        MatchIsFill(p[1..], v, j);
        assert w[j - i..] == v[j..];
        assert forall k: nat :: i <= k < j ==> v[k] == w[k - i];
        assert forall k: nat :: 0 <= k < j - i ==> w[k] == v[k + i];
      }
      StarChoices(p, v, i);
    } else {
      GlobLiteral(p, w);
      assert Items(p)[0] == Once(One(p[0])) && Items(p)[1..] == Items(p[1..]);
      if i < |v| {
        MatchIsFill(p[1..], v, i + 1);
        assert w[1..] == v[i + 1..];
      }
    }
  }

  lemma {:induction false} StarChoices(p: string, v: string, i: nat)
    requires i <= |v| && p != "" && p[0] == '*'
    requires forall j: nat :: i <= j <= |v| ==>
               (MatchAt(Items(p[1..]), v, j) <==> GlobMatchesByLine(p[1..], v[i..][j - i..]))
               && (Spans(Any, v, i, j) <==> Spans(Any, v[i..], 0, j - i))
    ensures MatchAt(Items(p), v, i) <==>
            exists j: nat :: j <= |v| - i && Spans(Any, v[i..], 0, j) && GlobMatchesByLine(p[1..], v[i..][j..])
  {
    assert Items(p)[0] == Many(Any) && Items(p)[1..] == Items(p[1..]);
    if MatchAt(Items(p), v, i) {
      var j: nat :| i <= j <= |v| && Spans(Any, v, i, j) && MatchAt(Items(p[1..]), v, j);
      assert Spans(Any, v[i..], 0, j - i) && GlobMatchesByLine(p[1..], v[i..][j - i..]);
    }
    if j: nat :| j <= |v| - i && Spans(Any, v[i..], 0, j) && GlobMatchesByLine(p[1..], v[i..][j..]) {
      assert Spans(Any, v, i, i + j) && MatchAt(Items(p[1..]), v, i + j);
    }
  }

  /** For every pattern and every value: matching is filling the stars with newline-free text. */
  lemma {:induction false} WildcardMeaning(p: string, v: string)
    ensures WildcardMatch(p, v) == Some(GlobMatchesByLine(p, v))
  {
    CompiledWildcard(p);
    var items := [Begin] + Items(p);
    assert items[1..] == Items(p);
    MatchIsFill(p, v, 0);
    assert v[0..] == v;
    assert MatchAt(items, v, 0) <==> MatchAt(items[1..], v, 0);
  }

  lemma {:induction false} FillersInside(p: string, fillers: seq<string>)
    requires |fillers| == Stars(p) && '\n' !in Fill(p, fillers)
    ensures NewlineFree(fillers)
    decreases |p|
  {
    if p != "" {
      if p[0] == '*' {
        var rest := Fill(p[1..], fillers[1..]);
        assert Fill(p, fillers) == fillers[0] + rest;
        assert forall c :: c in fillers[0] || c in rest ==> c in Fill(p, fillers);
        FillersInside(p[1..], fillers[1..]);
        assert fillers == [fillers[0]] + fillers[1..];
      } else {
        assert forall c :: c in Fill(p[1..], fillers) ==> c in Fill(p, fillers);
        FillersInside(p[1..], fillers);
      }
    }
  }

  /** For newline-free values the anchored expression means exactly what the pattern means. */
  lemma {:induction false} WildcardPreservesMeaning(p: string, v: string)
    requires '\n' !in v
    ensures WildcardMatch(p, v) == Some(GlobMatches(p, v))
  {
    WildcardMeaning(p, v);
    if GlobMatches(p, v) {
      var fillers :| |fillers| == Stars(p) && v == Fill(p, fillers);
      FillersInside(p, fillers);
    }
  }

  lemma {:induction false} LiteralGlob(p: string, v: string)
    requires '*' !in p
    ensures Stars(p) == 0 && Fill(p, []) == p
    ensures GlobMatches(p, v) <==> v == p
  {
    LiteralFill(p);
    if GlobMatches(p, v) {
      var f :| |f| == Stars(p) && v == Fill(p, f);
      assert f == [];
    }
  }

  lemma {:induction false} LiteralFill(p: string)
    requires '*' !in p
    ensures Stars(p) == 0 && Fill(p, []) == p
  {
    if p != "" {
      assert forall c :: c in p[1..] ==> c in p;
      LiteralFill(p[1..]);
    }
  }

  lemma {:induction false} TrailingStar(p: string, rest: string)
    requires '*' !in p
    ensures Stars(p + "*") == 1 && Fill(p + "*", [rest]) == p + rest
  {
    if p != "" {
      assert forall c :: c in p[1..] ==> c in p;
      TrailingStar(p[1..], rest);
      assert (p + "*")[1..] == p[1..] + "*";
    } else {
      var star := "*";
      var none: seq<string> := [];
      assert p + "*" == star && star[1..] == "" && [rest][1..] == none;
      assert Stars("") == 0 && Fill("", none) == "";
    }
  }

  lemma {:induction false} PrefixGlob(p: string, v: string)
    requires '*' !in p
    ensures GlobMatches(p + "*", v) <==> HasPrefix(v, p)
  {
    TrailingStar(p, "");
    if GlobMatches(p + "*", v) {
      var f :| |f| == Stars(p + "*") && v == Fill(p + "*", f);
      assert f == [f[0]];
      TrailingStar(p, f[0]);
    }
    if HasPrefix(v, p) {
      TrailingStar(p, v[|p|..]);
      assert v == p + v[|p|..];
    }
  }

  // ---------------------------------------------------------------- rules

  /** What a pattern with a path is matched against: a bare digest is matched by its name alone. */
  function Target(ref: Reference): string {
    if ref.isDigestPinned && ref.tag == "" then ref.registry + "/" + ref.repository else ref.canonicalRef
  }

  function MatchPattern(pattern: string, ref: Reference): Option<bool> {
    if pattern == "*" then Some(true)
    else if '/' !in pattern && ':' in pattern then
      WildcardMatch(pattern[IndexOf(pattern, ':') + 1..], ref.tag)
    else
      WildcardMatch(pattern, Target(ref))
  }

  /** A pattern with a colon and no slash is about the tag: the part after its first colon. */
  predicate OnlyTag(pattern: string) {
    '/' !in pattern && ':' in pattern
  }

  function TagPart(pattern: string): string
    requires OnlyTag(pattern)
  {
    pattern[IndexOf(pattern, ':') + 1..]
  }

  lemma {:induction false} LoneStar(v: string)
    ensures GlobMatches("*", v)
  {
    TrailingStar("", v);
    assert "" + "*" == "*" && "" + v == v;
  }

  /** What a rule's pattern means, for every pattern: its stars stand for any text, in the tag or in the whole name. */
  lemma {:induction false} PatternMeaning(pattern: string, ref: Reference)
    requires '\n' !in Target(ref) && '\n' !in ref.tag
    ensures MatchPattern(pattern, ref)
            == Some(if OnlyTag(pattern) then GlobMatches(TagPart(pattern), ref.tag)
                    else GlobMatches(pattern, Target(ref)))
  {
    if pattern == "*" {
      LoneStar(Target(ref));
      assert pattern[0] == '*';
    } else if OnlyTag(pattern) {
      WildcardPreservesMeaning(TagPart(pattern), ref.tag);
    } else {
      WildcardPreservesMeaning(pattern, Target(ref));
    }
  }

  /** What patterns are matched against: for a bare digest the name, otherwise all that the reference says. */
  function FullName(ref: Reference): string {
    ref.registry + "/" + ref.repository
    + if ref.tag == "" then "" else ":" + ref.tag + if ref.digest == "" then "" else "@" + ref.digest
  }

  lemma {:induction false} CanonicalIsOneLine(ref: Reference)
    requires WellFormed(ref)
    ensures '\n' !in ref.canonicalRef
  {
    PrintThenParse(ref);
    ParseStages(ref.canonicalRef);
  }

  lemma {:induction false} TargetText(ref: Reference)
    requires ref == MakeReference(ref.registry, ref.repository, ref.tag, ref.digest)
    requires ref.tag != "" || ref.digest != ""
    ensures Target(ref) == FullName(ref)
  {
    var name, tag := ref.registry + "/" + ref.repository, ":" + ref.tag;
    var tail := if ref.digest == "" then "" else "@" + ref.digest;
    assert name + "" == name;
    assert name + tag + tail == name + (tag + tail);
  }

  lemma {:induction false} TargetIsName(ref: Reference)
    requires WellFormed(ref)
    ensures Target(ref) == FullName(ref) && '\n' !in Target(ref) && '\n' !in ref.tag
  {
    CanonicalIsOneLine(ref);
    NameIsOneLine(ref);
    TargetText(ref);
  }

  lemma {:induction false} NameIsOneLine(ref: Reference)
    requires WellFormed(ref) && '\n' !in ref.canonicalRef
    ensures '\n' !in ref.registry + "/" + ref.repository && '\n' !in ref.tag
  {
    var name, s := ref.registry + "/" + ref.repository, ref.canonicalRef;
    forall i | 0 <= i < |name| ensures name[i] != '\n' { assert name[i] == s[i]; }
    forall i | 0 <= i < |ref.tag| ensures ref.tag[i] != '\n' { assert ref.tag[i] == s[|name| + 1 + i]; }
  }

  /**
   Which references a rule is about, for every pattern and every reference: by the tag alone, if the pattern has a
   colon and no slash, and otherwise by the whole name.
   */
  lemma {:induction false} RuleIsAbout(pattern: string, ref: Reference)
    requires WellFormed(ref)
    ensures MatchPattern(pattern, ref)
            == Some(if '/' !in pattern && ':' in pattern then GlobMatches(pattern[IndexOf(pattern, ':') + 1..], ref.tag)
                    else GlobMatches(pattern, FullName(ref)))
  {
    TargetIsName(ref);
    PatternMeaning(pattern, ref);
  }

  /** A rule without a star matches exactly one target, or exactly one tag. */
  lemma {:induction false} ExactPattern(pattern: string, ref: Reference)
    requires '*' !in pattern && '\n' !in Target(ref) && '\n' !in ref.tag
    ensures MatchPattern(pattern, ref)
            == Some(if OnlyTag(pattern) then ref.tag == TagPart(pattern) else Target(ref) == pattern)
  {
    PatternMeaning(pattern, ref);
    if OnlyTag(pattern) {
      LiteralGlob(TagPart(pattern), ref.tag);
    } else {
      LiteralGlob(pattern, Target(ref));
    }
  }

  /** A rule that ends in its only star matches exactly the targets, or the tags, that begin with the rest of it. */
  lemma {:induction false} PrefixPattern(p: string, ref: Reference)
    requires '*' !in p && '\n' !in Target(ref) && '\n' !in ref.tag
    ensures MatchPattern(p + "*", ref)
            == Some(if OnlyTag(p) then HasPrefix(ref.tag, TagPart(p)) else HasPrefix(Target(ref), p))
  {
    PatternMeaning(p + "*", ref);
    StarKeepsKind(p);
    if OnlyTag(p) {
      PrefixGlob(TagPart(p), ref.tag);
    } else {
      PrefixGlob(p, Target(ref));
    }
  }

  lemma {:induction false} StarKeepsKind(p: string)
    ensures OnlyTag(p + "*") <==> OnlyTag(p)
    ensures OnlyTag(p) ==> TagPart(p + "*") == TagPart(p) + "*"
  {
    if ':' in p {
      var i := IndexOf(p, ':');
      IndexOfUnique(p + "*", ':', i);
      assert (p + "*")[i + 1..] == p[i + 1..] + "*";
    }
    forall c: char | c != '*' ensures c in p + "*" <==> c in p { }
  }

  lemma {:induction false} MatchingNeverFails(pattern: string, ref: Reference)
    ensures MatchPattern(pattern, ref).Some?
  {
    if pattern != "*" && '/' !in pattern && ':' in pattern {
      CompiledWildcard(pattern[IndexOf(pattern, ':') + 1..]);
    } else {
      CompiledWildcard(pattern);
    }
  }

  datatype MatchResult = MatchResult(policy: EffectivePolicy, matchedRule: string)

  /** The match-time overlay, field by field. */
  function Overlay(base: EffectivePolicy, rule: Rule): EffectivePolicy {
    base.(mutableTags := MutableTagPolicy(
            OrElse(rule.mutableTags.action, base.mutableTags.action),
            OrElse(rule.mutableTags.minDigestAge, base.mutableTags.minDigestAge),
            OrElse(rule.mutableTags.allowFirstSeenPull, base.mutableTags.allowFirstSeenPull)),
          cosign := EffectiveCosign(rule.cosign, base.cosign))
  }

  /** matcher.go:36-64: the second copy of the overlay, which writes one field at a time. */
  method ApplyRule(base: EffectivePolicy, rule: Rule) returns (effective: EffectivePolicy)
    ensures effective == Overlay(base, rule)
  {
    var action := base.mutableTags.action;
    if rule.mutableTags.action.Some? { action := rule.mutableTags.action.value; }
    var minDigestAge := base.mutableTags.minDigestAge;
    if rule.mutableTags.minDigestAge.Some? { minDigestAge := rule.mutableTags.minDigestAge.value; }
    var allowFirstSeenPull := base.mutableTags.allowFirstSeenPull;
    if rule.mutableTags.allowFirstSeenPull.Some? { allowFirstSeenPull := rule.mutableTags.allowFirstSeenPull.value; }
    var cosign := ApplyCosign(base.cosign, rule.cosign);
    effective := base.(mutableTags := MutableTagPolicy(action, minDigestAge, allowFirstSeenPull), cosign := cosign);
  }

  method ApplyCosign(base: CosignPolicy, rule: RuleCosignPolicy) returns (cosign: CosignPolicy)
    ensures cosign == EffectiveCosign(rule, base)
  {
    var required := base.required;
    if rule.required.Some? { required := rule.required.value; }
    var mode := base.mode;
    if rule.mode.Some? { mode := rule.mode.value; }
    var key := base.key;
    if rule.key.Some? { key := rule.key.value; }
    var issuer := base.issuer;
    if rule.issuer.Some? { issuer := rule.issuer.value; }
    var identity := base.identity;
    if rule.identity.Some? { identity := rule.identity.value; }
    var identityRegex := base.identityRegex;
    if rule.identityRegex.Some? { identityRegex := rule.identityRegex.value; }
    cosign := CosignPolicy(required, mode, key, issuer, identity, identityRegex);
  }

  /** The index of the first rule that matches, or `|rules|`. */
  function FirstMatch(rules: seq<Rule>, ref: Reference): (k: nat)
    ensures k <= |rules|
    ensures forall j :: 0 <= j < k ==> MatchPattern(rules[j].pattern, ref) == Some(false)
    ensures k < |rules| ==> MatchPattern(rules[k].pattern, ref) == Some(true)
  {
    if rules == [] then 0
    else
      MatchingNeverFails(rules[0].pattern, ref);
      if MatchPattern(rules[0].pattern, ref) == Some(true) then 0 else 1 + FirstMatch(rules[1..], ref)
  }

  function EffectivePolicyFor(c: Config, ref: Reference): MatchResult {
    var k := FirstMatch(c.rules, ref);
    if k == |c.rules| then MatchResult(c.defaultPolicy, "default_policy")
    else MatchResult(Overlay(c.defaultPolicy, c.rules[k]), c.rules[k].pattern)
  }

  /** matcher.go:16-34, with its loop; the error return is never taken. */
  method EffectivePolicyLoop(c: Config, ref: Reference) returns (result: Option<MatchResult>)
    ensures result == Some(EffectivePolicyFor(c, ref))
  {
    var effective := c.defaultPolicy;
    var matched := "default_policy";
    for k := 0 to |c.rules|
      invariant k <= FirstMatch(c.rules, ref)
    {
      var ok := MatchPattern(c.rules[k].pattern, ref);
      AtFirstMatch(c.rules, ref, k);
      if ok.None? { return None; }
      if !ok.value { continue; }
      effective := ApplyRule(effective, c.rules[k]);
      matched := c.rules[k].pattern;
      return Some(MatchResult(effective, matched));
    }
    result := Some(MatchResult(effective, matched));
  }

  lemma {:induction false} AtFirstMatch(rules: seq<Rule>, ref: Reference, k: nat)
    requires k < |rules| && k <= FirstMatch(rules, ref)
    ensures MatchPattern(rules[k].pattern, ref) == Some(k == FirstMatch(rules, ref))
  {
  }

  /** No rule before the `k`th matches, and that one does, if there is one. */
  predicate MatchesFirst(rules: seq<Rule>, ref: Reference, k: nat) {
    && k <= |rules|
    && (forall j :: 0 <= j < k ==> MatchPattern(rules[j].pattern, ref) == Some(false))
    && (k < |rules| ==> MatchPattern(rules[k].pattern, ref) == Some(true))
  }

  /**
   The effective policy, field by field: what the first matching rule says if it says something, otherwise what the
   default policy says; the three other actions are always those of the default policy.
   */
  lemma {:induction false} EffectiveFields(c: Config, ref: Reference, k: nat)
    requires MatchesFirst(c.rules, ref, k)
    ensures var MatchResult(p, matched) := EffectivePolicyFor(c, ref);
            var base := c.defaultPolicy;
            && p.digestPinnedImages == base.digestPinnedImages
            && p.failedRegistryResolution == base.failedRegistryResolution
            && p.failedSignatureCheck == base.failedSignatureCheck
            && if k == |c.rules| then
                 matched == "default_policy" && p.mutableTags == base.mutableTags && p.cosign == base.cosign
               else
                 var rule := c.rules[k];
                 && matched == rule.pattern
                 && Takes(p.mutableTags.action, rule.mutableTags.action, base.mutableTags.action)
                 && Takes(p.mutableTags.minDigestAge, rule.mutableTags.minDigestAge, base.mutableTags.minDigestAge)
                 && Takes(p.mutableTags.allowFirstSeenPull, rule.mutableTags.allowFirstSeenPull,
                          base.mutableTags.allowFirstSeenPull)
                 && CosignTakes(p.cosign, rule.cosign, base.cosign)
  {
    var first := FirstMatch(c.rules, ref);
    assert first == k;
    if k < |c.rules| {
      OverlayTakes(c.rules[k].cosign, c.defaultPolicy.cosign, EffectivePolicyFor(c, ref).policy.cosign);
    }
  }

  /** There always is such a rule, or the end of the list, and only one. */
  lemma {:induction false} SomethingMatchesFirst(rules: seq<Rule>, ref: Reference) returns (k: nat)
    ensures MatchesFirst(rules, ref, k) && forall j: nat :: MatchesFirst(rules, ref, j) ==> j == k
  {
    k := FirstMatch(rules, ref);
  }

  /** A validated configuration only ever yields valid effective policies, whatever rule matches. */
  lemma {:induction false} ValidationSurvivesOverlay(c: Config, ref: Reference)
    requires Validate(c).None?
    ensures var p := EffectivePolicyFor(c, ref).policy;
            && ValidateCosign(p.cosign).None?
            && p.mutableTags.action in {ACTION_QUARANTINE, ACTION_ALLOW, ACTION_DENY}
            && p.digestPinnedImages in {ACTION_ALLOW, ACTION_DENY}
            && p.failedRegistryResolution in {ACTION_ALLOW, ACTION_DENY}
  {
    var k := FirstMatch(c.rules, ref);
    if k < |c.rules| {
      ValidRule(c.rules, c.defaultPolicy.cosign, k);
    }
  }
}
