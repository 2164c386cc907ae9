/** From a subscription pattern to a regular expression, and the meaning of the result. */
module TopicPattern {
  import opened Wrappers
  import opened Regex

  /** Global replacement of one character by a text, as a one-character regex_replace does it. */
  function Replace(s: string, c: char, text: string): string {
    if s == "" then ""
    else (if s[0] == c then text else [s[0]]) + Replace(s[1..], c, text)
  }

  const ONE_LEVEL := "[^/]+"
  const MANY_LEVELS := ".*"

  /** The text the broker compiles: two passes, then the anchors. */
  function RegexText(pattern: string): string {
    "^" + Replace(Replace(pattern, '+', ONE_LEVEL), '*', MANY_LEVELS) + "$"
  }

  /** matches_topic; text outside the modelled grammar counts as no match. */
  predicate MatchesTopic(topic: string, pattern: string) {
    var re := Parse(RegexText(pattern));
    re.Some? && Denotes(re.value, true, topic)
  }

  // ---------------------------------------------------------------------------
  // The two passes are one simultaneous translation

  /** Every character translated on its own, both wildcards at once. */
  function Translate(s: string): string {
    if s == "" then ""
    else (if s[0] == '+' then ONE_LEVEL else if s[0] == '*' then MANY_LEVELS else [s[0]]) + Translate(s[1..])
  }

  lemma Associate(a: string, b: string, c: string)
    ensures (a + b) + c == a + (b + c)
  {}

  lemma ReplaceCons(head: char, tail: string, c: char, text: string)
    ensures Replace([head] + tail, c, text) == (if head == c then text else [head]) + Replace(tail, c, text)
  {
    assert ([head] + tail)[1..] == tail;
  }

  lemma {:induction false} ReplaceConcat(s: string, t: string, c: char, text: string)
    ensures Replace(s + t, c, text) == Replace(s, c, text) + Replace(t, c, text)
  {
    if s == "" {
      assert s + t == t;
    } else {
      ReplaceConcat(s[1..], t, c, text);
      ReplaceCons(s[0], s[1..] + t, c, text);
      ReplaceCons(s[0], s[1..], c, text);
      assert s == [s[0]] + s[1..];
      Associate([s[0]], s[1..], t);
      Associate(if s[0] == c then text else [s[0]], Replace(s[1..], c, text), Replace(t, c, text));
    }
  }

  lemma {:induction false} ReplaceAbsent(s: string, c: char, text: string)
    requires c !in s
    ensures Replace(s, c, text) == s
  {
    if s != "" {
      ReplaceAbsent(s[1..], c, text);
    }
  }

  /** The first replacement text contains `+` itself, and still neither pass disturbs the other. */
  lemma {:induction false} PassesAreSimultaneous(s: string)
    ensures Replace(Replace(s, '+', ONE_LEVEL), '*', MANY_LEVELS) == Translate(s)
    ensures Replace(Replace(s, '*', MANY_LEVELS), '+', ONE_LEVEL) == Translate(s)
  {
    if s != "" {
      PassesAreSimultaneous(s[1..]);
      var plusHead := if s[0] == '+' then ONE_LEVEL else [s[0]];
      var starHead := if s[0] == '*' then MANY_LEVELS else [s[0]];
      ReplaceConcat(plusHead, Replace(s[1..], '+', ONE_LEVEL), '*', MANY_LEVELS);
      ReplaceConcat(starHead, Replace(s[1..], '*', MANY_LEVELS), '+', ONE_LEVEL);
      if s[0] == '+' {
        ReplaceAbsent(ONE_LEVEL, '*', MANY_LEVELS);
      } else if s[0] == '*' {
        ReplaceAbsent(MANY_LEVELS, '+', ONE_LEVEL);
      }
    }
  }

  // ---------------------------------------------------------------------------
  // What the generated regular expression means

  /** No metacharacter besides the two wildcards. */
  predicate Plain(pattern: string) {
    forall i :: 0 <= i < |pattern| ==> !Meta(pattern[i]) || pattern[i] == '+' || pattern[i] == '*'
  }

  /** The wildcard meaning at character level, with no regular expression in sight:
      `+` is a non-empty run without a slash, `*` is any run without a line terminator. */
  predicate Glob(p: string, t: string)
    decreases |p|
  {
    if p == "" then t == ""
    else if p[0] == '+' then
      exists j :: 1 <= j <= |t| && AcceptsAll(NotSlash, t[..j]) && Glob(p[1..], t[j..])
    else if p[0] == '*' then
      exists j :: 0 <= j <= |t| && AcceptsAll(Dot, t[..j]) && Glob(p[1..], t[j..])
    else t != "" && t[0] == p[0] && Glob(p[1..], t[1..])
  }

  function TermOf(c: char): Term {
    if c == '+' then OneOrMore(NotSlash) else if c == '*' then ZeroOrMore(Dot) else Once(Literal(c))
  }

  function Terms(p: string): (ts: seq<Term>)
    ensures |ts| == |p|
  {
    if p == "" then [] else [TermOf(p[0])] + Terms(p[1..])
  }

  lemma ParseOneLevel(rest: string)
    ensures Parse(ONE_LEVEL + rest) == Prepend(OneOrMore(NotSlash), Parse(rest))
  {
    var text := ONE_LEVEL + rest;
    assert text[..4] == "[^/]" && text[4..][0] == '+' && text[4..][1..] == rest;
  }

  lemma ParseManyLevels(rest: string)
    ensures Parse(MANY_LEVELS + rest) == Prepend(ZeroOrMore(Dot), Parse(rest))
  {
    var text := MANY_LEVELS + rest;
    assert text[1..][0] == '*' && text[1..][1..] == rest;
  }

  lemma ParseLiteral(c: char, rest: string)
    requires !Meta(c) && rest != "" && rest[0] != '+' && rest[0] != '*'
    ensures Parse([c] + rest) == Prepend(Once(Literal(c)), Parse(rest))
  {
    var text := [c] + rest;
    assert text != "" && text[0] == c && text[1..] == rest;
    assert ParseAtom(text) == Some((Literal(c), 1)) by {
      assert |text| >= 4 ==> text[..4][0] == c;
    }
  }

  lemma {:induction false} ParseTranslated(p: string)
    requires Plain(p)
    ensures Parse(Translate(p) + "$") == Some(Terms(p) + [End])
  {
    if p == "" {
      var end := "$";
      assert Translate(p) + "$" == end && end[1..] == "";
      assert [End] + [] == [End];
      assert Terms(p) + [End] == [End];
    } else {
      var rest := Translate(p[1..]) + "$";
      ParseTranslated(p[1..]);
      assert Terms(p) + [End] == [TermOf(p[0])] + (Terms(p[1..]) + [End]);
      if p[0] == '+' {
        assert Translate(p) + "$" == ONE_LEVEL + rest;
        ParseOneLevel(rest);
      } else if p[0] == '*' {
        assert Translate(p) + "$" == MANY_LEVELS + rest;
        ParseManyLevels(rest);
      } else {
        assert Translate(p) + "$" == [p[0]] + rest;
        ParseLiteral(p[0], rest);
      }
    }
  }

  lemma {:induction false} TermsDenoteGlob(p: string, atStart: bool, t: string)
    ensures Denotes(Terms(p) + [End], atStart, t) <==> Glob(p, t)
    decreases |p|
  {
    var ts := Terms(p) + [End];
    if p == "" {
      assert ts[1..] == [];
    } else {
      assert ts[0] == TermOf(p[0]) && ts[1..] == Terms(p[1..]) + [End];
      forall flag: bool, j | 0 <= j <= |t|
        ensures Denotes(ts[1..], flag, t[j..]) <==> Glob(p[1..], t[j..])
      {
        TermsDenoteGlob(p[1..], flag, t[j..]);
      }
    }
  }

  /** The regular expression the broker builds accepts exactly the wildcard meaning. */
  lemma MatchIsGlob(topic: string, pattern: string)
    requires Plain(pattern)
    ensures MatchesTopic(topic, pattern) <==> Glob(pattern, topic)
  {
    PassesAreSimultaneous(pattern);
    ParseTranslated(pattern);
    var text := RegexText(pattern);
    assert text[1..] == Translate(pattern) + "$";
    var ts := Parse(text).value;
    assert ts[1..] == Terms(pattern) + [End];
    TermsDenoteGlob(pattern, true, topic);
  }

  // ---------------------------------------------------------------------------
  // Three patterns, in literal characters

  lemma OneWildcard(wildcard: char, t: string)
    requires wildcard == '+' || wildcard == '*'
    ensures Glob([wildcard], t) <==>
      if wildcard == '+' then t != "" && AcceptsAll(NotSlash, t) else AcceptsAll(Dot, t)
  {
    var p := [wildcard];
    assert p[1..] == "" && t[..|t|] == t && t[|t|..] == "";
    assert forall j :: 0 <= j <= |t| && Glob(p[1..], t[j..]) ==> j == |t|;
    assert Glob(p[1..], t[|t|..]);
  }

  /** `*` alone takes everything but line feeds and carriage returns. */
  lemma StarMatches(t: string)
    ensures MatchesTopic(t, "*") <==> '\n' !in t && '\r' !in t
  {
    MatchIsGlob(t, "*");
    OneWildcard('*', t);
    assert AcceptsAll(Dot, t) <==> '\n' !in t && '\r' !in t;
  }

  /** `+` alone takes everything but slashes, and not nothing. */
  lemma PlusMatches(t: string)
    ensures MatchesTopic(t, "+") <==> t != "" && '/' !in t
  {
    MatchIsGlob(t, "+");
    OneWildcard('+', t);
    assert AcceptsAll(NotSlash, t) <==> '/' !in t;
  }

  /** The characters topics are made of. */
  predicate Ordinary(c: char) {
    'a' <= c <= 'z' || 'A' <= c <= 'Z' || '0' <= c <= '9' || c == '_' || c == '-' || c == ' ' || c == '/'
  }

  lemma {:induction false} GlobOfText(p: string, t: string)
    requires '+' !in p && '*' !in p
    ensures Glob(p, t) <==> t == p
  {
    if p != "" && t != "" {
      GlobOfText(p[1..], t[1..]);
      assert p == [p[0]] + p[1..] && t == [t[0]] + t[1..];
    }
  }

  /** Text without wildcards takes itself and nothing else. */
  lemma TextMatches(p: string, t: string)
    requires forall i :: 0 <= i < |p| ==> Ordinary(p[i])
    ensures MatchesTopic(t, p) <==> t == p
  {
    MatchIsGlob(t, p);
    GlobOfText(p, t);
  }

  // ---------------------------------------------------------------------------
  // Widening `+` to `*`

  /** `q` is `p` with some of its `+` replaced by `*`. */
  predicate Widens(p: string, q: string) {
    |p| == |q| && forall i :: 0 <= i < |p| ==> q[i] == p[i] || (p[i] == '+' && q[i] == '*')
  }

  predicate NoLineTerminator(t: string) {
    AcceptsAll(Dot, t)
  }

  lemma {:induction false} WideningGlob(p: string, q: string, t: string)
    requires Widens(p, q) && NoLineTerminator(t) && Glob(p, t)
    ensures Glob(q, t)
    decreases |p|
  {
    if p != "" {
      if p[0] == '+' || p[0] == '*' {
        var j :| 0 <= j <= |t| && (p[0] == '+' ==> j >= 1 && AcceptsAll(NotSlash, t[..j])) && Glob(p[1..], t[j..]);
        WideningGlob(p[1..], q[1..], t[j..]);
        assert AcceptsAll(Dot, t[..j]);
      } else {
        WideningGlob(p[1..], q[1..], t[1..]);
      }
    }
  }

  /** A pattern of slashes and `*` alone cannot get past a line terminator. */
  lemma {:induction false} StarsStopAtLineTerminator(q: string, t: string)
    requires forall i :: 0 <= i < |q| ==> q[i] == '*' || q[i] == '/'
    requires Glob(q, t)
    ensures NoLineTerminator(t)
    decreases |q|
  {
    if q != "" {
      if q[0] == '*' {
        var j :| 0 <= j <= |t| && AcceptsAll(Dot, t[..j]) && Glob(q[1..], t[j..]);
        StarsStopAtLineTerminator(q[1..], t[j..]);
        assert t == t[..j] + t[j..];
      } else {
        StarsStopAtLineTerminator(q[1..], t[1..]);
        assert t == [t[0]] + t[1..];
      }
    }
  }

  /** One wildcard for every maximal slash-free run of `t`, and its slashes as they are. */
  function Shape(t: string, wildcard: char): string {
    if t == "" then ""
    else if t[0] == '/' then "/" + Shape(t[1..], wildcard)
    else if |t| > 1 && t[1] != '/' then Shape(t[1..], wildcard)
    else [wildcard] + Shape(t[1..], wildcard)
  }

  lemma {:induction false} ShapeFacts(t: string)
    ensures Widens(Shape(t, '+'), Shape(t, '*')) && Plain(Shape(t, '+'))
    ensures forall i :: 0 <= i < |Shape(t, '*')| ==> Shape(t, '*')[i] == '*' || Shape(t, '*')[i] == '/'
    ensures Glob(Shape(t, '+'), t)
    ensures t != "" && t[0] != '/' ==> Shape(t, '+') != "" && Shape(t, '+')[0] == '+'
  {
    if t != "" {
      ShapeFacts(t[1..]);
      var p := Shape(t, '+');
      if t[0] != '/' {
        if |t| > 1 && t[1] != '/' {
          var u := t[1..];
          var j :| 1 <= j <= |u| && AcceptsAll(NotSlash, u[..j]) && Glob(p[1..], u[j..]);
          assert t[..j + 1] == [t[0]] + u[..j] && t[j + 1..] == u[j..];
        } else {
          assert AcceptsAll(NotSlash, t[..1]) && p[1..] == Shape(t[1..], '+');
        }
      }
    }
  }

  lemma WideningMatch(p: string, q: string, topic: string)
    requires Plain(p) && Widens(p, q) && NoLineTerminator(topic) && MatchesTopic(topic, p)
    ensures MatchesTopic(topic, q)
  {
    MatchIsGlob(topic, p);
    MatchIsGlob(topic, q);
    WideningGlob(p, q, topic);
  }

  /** Widening never loses `topic`, whatever the pattern, exactly when `topic` has no line terminator. */
  lemma WideningIsLosslessExactly(topic: string)
    ensures NoLineTerminator(topic) <==>
      forall p, q :: Plain(p) && Widens(p, q) && MatchesTopic(topic, p) ==> MatchesTopic(topic, q)
  {
    if NoLineTerminator(topic) {
      forall p, q | Plain(p) && Widens(p, q) && MatchesTopic(topic, p)
        ensures MatchesTopic(topic, q)
      {
        WideningMatch(p, q, topic);
      }
    } else {
      var p, q := Shape(topic, '+'), Shape(topic, '*');
      ShapeFacts(topic);
      MatchIsGlob(topic, p);
      MatchIsGlob(topic, q);
      if Glob(q, topic) {
        StarsStopAtLineTerminator(q, topic);
      }
      assert Plain(p) && Widens(p, q) && MatchesTopic(topic, p) && !MatchesTopic(topic, q);
    }
  }
}
