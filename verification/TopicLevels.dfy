/** The intended meaning of a pattern, level by level, and its agreement with the regular expression. */
module TopicLevels {
  import opened Regex
  import opened TopicPattern

  /** The levels of a topic or a pattern: the text cut at every slash. */
  function Split(t: string): (levels: seq<string>)
    ensures |levels| >= 1
  {
    if t == "" then [""]
    else
      var rest := Split(t[1..]);
      if t[0] == '/' then [""] + rest else [[t[0]] + rest[0]] + rest[1..]
  }

  function Join(levels: seq<string>): string
    requires |levels| >= 1
  {
    if |levels| == 1 then levels[0] else levels[0] + "/" + Join(levels[1..])
  }

  predicate SlashFree(levels: seq<string>) {
    forall i :: 0 <= i < |levels| ==> AcceptsAll(NotSlash, levels[i])
  }

  lemma JoinPrepend(head: string, tail: seq<string>)
    requires |tail| >= 1
    ensures Join([head] + tail) == head + "/" + Join(tail)
  {
    assert ([head] + tail)[1..] == tail;
  }

  lemma Reassociate(c: char, head: string, tail: string)
    ensures [c] + head + "/" + tail == [c] + (head + "/" + tail)
  {}

  lemma JoinExtend(c: char, levels: seq<string>)
    requires |levels| >= 1
    ensures Join([[c] + levels[0]] + levels[1..]) == [c] + Join(levels)
  {
    var first := [c] + levels[0];
    if |levels| == 1 {
      assert [first] + levels[1..] == [first];
    } else {
      JoinPrepend(first, levels[1..]);
      Reassociate(c, levels[0], Join(levels[1..]));
    }
  }

  lemma {:induction false} JoinSplit(t: string)
    ensures SlashFree(Split(t)) && Join(Split(t)) == t
  {
    if t != "" {
      JoinSplit(t[1..]);
      if t[0] == '/' {
        JoinPrepend("", Split(t[1..]));
      } else {
        JoinExtend(t[0], Split(t[1..]));
      }
      assert t == [t[0]] + t[1..];
    }
  }

  /** A wildcard fills its whole level. */
  predicate WholeLevel(level: string) {
    level == "+" || level == "*" || ('+' !in level && '*' !in level)
  }

  predicate WholeLevels(levels: seq<string>) {
    forall i :: 0 <= i < |levels| ==> WholeLevel(levels[i])
  }

  predicate NoTerminators(levels: seq<string>) {
    forall i :: 0 <= i < |levels| ==> NoLineTerminator(levels[i])
  }

  /** `+` is exactly one non-empty level, `*` is one or more levels (none of which holds a line
      terminator), and any other level is itself. */
  predicate LevelMatch(ps: seq<string>, ts: seq<string>)
    decreases |ps|
  {
    if ps == [] then ts == []
    else if ts == [] then false
    else if ps[0] == "+" then ts[0] != "" && LevelMatch(ps[1..], ts[1..])
    else if ps[0] == "*" then
      exists k :: 1 <= k <= |ts| && NoTerminators(ts[..k]) && LevelMatch(ps[1..], ts[k..])
    else ps[0] == ts[0] && LevelMatch(ps[1..], ts[1..])
  }

  // ---------------------------------------------------------------------------

  lemma {:induction false} GlobLiteral(lit: string, p: string, t: string)
    requires '+' !in lit && '*' !in lit
    ensures Glob(lit + p, t) <==> lit <= t && Glob(p, t[|lit|..])
  {
    if lit == "" {
      assert lit + p == p && t[0..] == t;
    } else {
      assert (lit + p)[1..] == lit[1..] + p;
      if t != "" && t[0] == lit[0] {
        GlobLiteral(lit[1..], p, t[1..]);
        if lit[1..] <= t[1..] {
          assert lit == [lit[0]] + lit[1..] && t == [t[0]] + t[1..];
          assert t[1..][|lit| - 1..] == t[|lit|..];
        }
      }
    }
  }

  lemma {:induction false} JoinSuffix(ts: seq<string>, k: nat)
    requires 1 <= k < |ts|
    ensures |Join(ts[..k])| < |Join(ts)|
    ensures Join(ts) == Join(ts[..k]) + "/" + Join(ts[k..])
  {
    if k > 1 {
      JoinSuffix(ts[1..], k - 1);
      assert ts[..k][1..] == ts[1..][..k - 1] && ts[1..][k - 1..] == ts[k..];
    } else {
      assert ts[..1] == [ts[0]];
    }
  }

  lemma SlashBetweenLevels(ts: seq<string>)
    requires |ts| >= 1
    ensures |ts| > 1 ==> !AcceptsAll(NotSlash, Join(ts))
  {
    if |ts| > 1 {
      assert Join(ts)[|ts[0]|] == '/';
    }
  }

  /** Every slash of a joined topic sits between two of its levels. */
  lemma {:induction false} SlashIsBoundary(ts: seq<string>, j: nat) returns (k: nat)
    requires |ts| >= 1 && SlashFree(ts) && j < |Join(ts)| && Join(ts)[j] == '/'
    ensures 1 <= k < |ts| && Join(ts)[..j] == Join(ts[..k]) && Join(ts)[j + 1..] == Join(ts[k..])
  {
    var t := Join(ts);
    if |ts| == 1 {
      assert false;
    } else {
      var tail := Join(ts[1..]);
      assert t == ts[0] + "/" + tail;
      if j == |ts[0]| {
        k := 1;
        assert ts[..1] == [ts[0]];
      } else {
        assert forall i :: 0 <= i < |ts[0]| ==> t[i] == ts[0][i];
        var i := j - |ts[0]| - 1;
        var k' := SlashIsBoundary(ts[1..], i);
        k := k' + 1;
        assert ts[..k][1..] == ts[1..][..k'] && ts[1..][k'..] == ts[k..];
        assert t[..j] == ts[0] + "/" + tail[..i];
        assert t[j + 1..] == tail[i + 1..];
      }
    }
  }

  lemma {:induction false} TerminatorsJoin(ts: seq<string>)
    requires |ts| >= 1
    ensures NoLineTerminator(Join(ts)) <==> NoTerminators(ts)
  {
    if |ts| == 1 {
    } else {
      var tail := Join(ts[1..]);
      var t := Join(ts);
      TerminatorsJoin(ts[1..]);
      assert t == ts[0] + "/" + tail;
      if NoLineTerminator(t) {
        forall i | 0 <= i < |ts[0]| ensures Accepts(Dot, ts[0][i]) { assert t[i] == ts[0][i]; }
        forall i | 0 <= i < |tail| ensures Accepts(Dot, tail[i]) { assert t[|ts[0]| + 1 + i] == tail[i]; }
        forall i | 0 <= i < |ts| ensures NoLineTerminator(ts[i]) {
          if i > 0 { assert ts[i] == ts[1..][i - 1]; }
        }
      }
      if NoTerminators(ts) {
        assert NoTerminators(ts[1..]);
      }
    }
  }

  // ---------------------------------------------------------------------------
  // The three kinds of level, with more levels to follow

  lemma GlobSlash(p: string, t: string, j: nat)
    requires j <= |t|
    ensures Glob("/" + p, t[j..]) <==> j < |t| && t[j] == '/' && Glob(p, t[j + 1..])
  {
    assert ("/" + p)[1..] == p;
    assert j < |t| ==> t[j..][1..] == t[j + 1..];
  }

  lemma OneLevelThenMore(p: string, ts: seq<string>)
    requires |ts| >= 1 && SlashFree(ts)
    ensures Glob("+/" + p, Join(ts)) <==> |ts| > 1 && ts[0] != "" && Glob(p, Join(ts[1..]))
  {
    var t := Join(ts);
    assert ("+/" + p)[1..] == "/" + p;
    forall j: nat | j <= |t|
      ensures Glob("/" + p, t[j..]) <==> j < |t| && t[j] == '/' && Glob(p, t[j + 1..])
    {
      GlobSlash(p, t, j);
    }
    if Glob("+/" + p, t) {
      var j :| 1 <= j <= |t| && AcceptsAll(NotSlash, t[..j]) && Glob("/" + p, t[j..]);
      var k := SlashIsBoundary(ts, j);
      SlashBetweenLevels(ts[..k]);
      assert ts[..1] == [ts[0]];
    }
    if |ts| > 1 && ts[0] != "" && Glob(p, Join(ts[1..])) {
      var j := |ts[0]|;
      assert t == ts[0] + "/" + Join(ts[1..]);
      assert t[..j] == ts[0] && t[j + 1..] == Join(ts[1..]);
      assert Glob("/" + p, t[j..]);
    }
  }

  lemma ManyLevelsSplit(p: string, ts: seq<string>, j: nat) returns (k: nat)
    requires |ts| >= 1 && SlashFree(ts) && j <= |Join(ts)|
    requires AcceptsAll(Dot, Join(ts)[..j]) && Glob("/" + p, Join(ts)[j..])
    ensures 1 <= k < |ts| && NoTerminators(ts[..k]) && Glob(p, Join(ts[k..]))
  {
    GlobSlash(p, Join(ts), j);
    k := SlashIsBoundary(ts, j);
    TerminatorsJoin(ts[..k]);
  }

  lemma ManyLevelsMerge(p: string, ts: seq<string>, k: nat) returns (j: nat)
    requires 1 <= k < |ts| && NoTerminators(ts[..k]) && Glob(p, Join(ts[k..]))
    ensures j <= |Join(ts)| && AcceptsAll(Dot, Join(ts)[..j]) && Glob("/" + p, Join(ts)[j..])
  {
    var t := Join(ts);
    JoinSuffix(ts, k);
    TerminatorsJoin(ts[..k]);
    j := |Join(ts[..k])|;
    assert t[..j] == Join(ts[..k]) && t[j] == '/' && t[j + 1..] == Join(ts[k..]);
    GlobSlash(p, t, j);
  }

  lemma ManyLevelsThenMore(p: string, ts: seq<string>)
    requires |ts| >= 1 && SlashFree(ts)
    ensures Glob("*/" + p, Join(ts)) <==>
      exists k :: 1 <= k < |ts| && NoTerminators(ts[..k]) && Glob(p, Join(ts[k..]))
  {
    var t := Join(ts);
    assert ("*/" + p)[1..] == "/" + p;
    if Glob("*/" + p, t) {
      var j :| 0 <= j <= |t| && AcceptsAll(Dot, t[..j]) && Glob("/" + p, t[j..]);
      var k := ManyLevelsSplit(p, ts, j);
    }
    if k :| 1 <= k < |ts| && NoTerminators(ts[..k]) && Glob(p, Join(ts[k..])) {
      var j := ManyLevelsMerge(p, ts, k);
    }
  }

  lemma LiteralThenMore(lit: string, p: string, ts: seq<string>)
    requires '+' !in lit && '*' !in lit && AcceptsAll(NotSlash, lit)
    requires |ts| >= 1 && SlashFree(ts)
    ensures Glob(lit + "/" + p, Join(ts)) <==> |ts| > 1 && ts[0] == lit && Glob(p, Join(ts[1..]))
  {
    var t := Join(ts);
    var n := |lit|;
    assert lit + "/" + p == lit + ("/" + p);
    assert ("/" + p)[1..] == p;
    GlobLiteral(lit, "/" + p, t);
    if lit <= t && Glob("/" + p, t[n..]) {
      var k := SlashIsBoundary(ts, n);
      assert t[..n] == lit && t[n..][1..] == t[n + 1..];
      SlashBetweenLevels(ts[..k]);
      assert ts[..1] == [ts[0]];
    }
    if |ts| > 1 && ts[0] == lit {
      assert t == lit + "/" + Join(ts[1..]);
      assert t[n..][1..] == Join(ts[1..]);
    }
  }

  /** The last level of a pattern. */
  lemma LastLevel(level: string, ts: seq<string>)
    requires WholeLevel(level) && AcceptsAll(NotSlash, level)
    requires |ts| >= 1 && SlashFree(ts)
    ensures Glob(level, Join(ts)) <==> LevelMatch([level], ts)
  {
    var t := Join(ts);
    assert t[|t|..] == "" && t[..|t|] == t && level[|level|..] == "";
    SlashBetweenLevels(ts);
    if level == "+" {
      assert Glob("", t[|t|..]);
      assert Glob(level, t) <==> t != "" && AcceptsAll(NotSlash, t);
    } else if level == "*" {
      TerminatorsJoin(ts);
      assert ts[..|ts|] == ts && ts[|ts|..] == [];
      assert Glob("", t[|t|..]) && LevelMatch([], ts[|ts|..]);
      assert Glob(level, t) <==> NoLineTerminator(t);
    } else {
      assert level + "" == level;
      GlobLiteral(level, "", t);
    }
  }

  lemma {:induction false} GlobIsLevelMatch(ps: seq<string>, ts: seq<string>)
    requires |ps| >= 1 && SlashFree(ps) && WholeLevels(ps)
    requires |ts| >= 1 && SlashFree(ts)
    ensures Glob(Join(ps), Join(ts)) <==> LevelMatch(ps, ts)
    decreases |ps|
  {
    if |ps| == 1 {
      assert ps == [ps[0]];
      LastLevel(ps[0], ts);
    } else {
      var more := Join(ps[1..]);
      forall k | 1 <= k < |ts|
        ensures Glob(more, Join(ts[k..])) <==> LevelMatch(ps[1..], ts[k..])
      {
        GlobIsLevelMatch(ps[1..], ts[k..]);
      }
      assert !LevelMatch(ps[1..], ts[|ts|..]);
      if ps[0] == "+" {
        assert Join(ps) == "+/" + more;
        OneLevelThenMore(more, ts);
      } else if ps[0] == "*" {
        assert Join(ps) == "*/" + more;
        ManyLevelsThenMore(more, ts);
      } else {
        LiteralThenMore(ps[0], more, ts);
      }
    }
  }

  /** The regular expression the broker builds agrees with the level-by-level meaning, for every topic. */
  lemma MatchIsLevelMatch(topic: string, pattern: string)
    requires Plain(pattern) && WholeLevels(Split(pattern))
    ensures MatchesTopic(topic, pattern) <==> LevelMatch(Split(pattern), Split(topic))
  {
    MatchIsGlob(topic, pattern);
    JoinSplit(topic);
    JoinSplit(pattern);
    GlobIsLevelMatch(Split(pattern), Split(topic));
  }

  // ---------------------------------------------------------------------------
  // Wildcards inside a level

  /** A topic of the pattern's shape, with a letter for every wildcard. */
  function Filled(p: string): string {
    if p == "" then "" else [if p[0] == '+' || p[0] == '*' then 'x' else p[0]] + Filled(p[1..])
  }

  lemma {:induction false} FilledMatches(p: string)
    ensures Glob(p, Filled(p)) && '+' !in Filled(p) && '*' !in Filled(p)
  {
    if p != "" {
      var t := Filled(p);
      FilledMatches(p[1..]);
      assert t[1..] == Filled(p[1..]);
      if p[0] == '+' || p[0] == '*' {
        assert AcceptsAll(NotSlash, t[..1]) && AcceptsAll(Dot, t[..1]);
      }
    }
  }

  lemma {:induction false} LevelsHaveNoWildcards(t: string)
    requires '+' !in t && '*' !in t
    ensures forall i :: 0 <= i < |Split(t)| ==> '+' !in Split(t)[i] && '*' !in Split(t)[i]
  {
    if t != "" {
      LevelsHaveNoWildcards(t[1..]);
    }
  }

  /** A level with a wildcard inside can only be met literally. */
  lemma {:induction false} MetLiterally(ps: seq<string>, ts: seq<string>, i: nat)
    requires LevelMatch(ps, ts) && i < |ps| && !WholeLevel(ps[i])
    ensures ps[i] in ts
    decreases |ps|
  {
    if i > 0 {
      if ps[0] == "*" {
        var k :| 1 <= k <= |ts| && NoTerminators(ts[..k]) && LevelMatch(ps[1..], ts[k..]);
        MetLiterally(ps[1..], ts[k..], i - 1);
      } else {
        MetLiterally(ps[1..], ts[1..], i - 1);
      }
    }
  }

  /** The level-by-level meaning is that of the regular expression for exactly the plain patterns whose
      wildcards fill whole levels. */
  lemma LevelMeaningExactly(pattern: string)
    requires Plain(pattern)
    ensures WholeLevels(Split(pattern)) <==>
      forall topic :: MatchesTopic(topic, pattern) <==> LevelMatch(Split(pattern), Split(topic))
  {
    if WholeLevels(Split(pattern)) {
      forall topic
        ensures MatchesTopic(topic, pattern) <==> LevelMatch(Split(pattern), Split(topic))
      {
        MatchIsLevelMatch(topic, pattern);
      }
    } else {
      var i :| 0 <= i < |Split(pattern)| && !WholeLevel(Split(pattern)[i]);
      var topic := Filled(pattern);
      FilledMatches(pattern);
      MatchIsGlob(topic, pattern);
      LevelsHaveNoWildcards(topic);
      if LevelMatch(Split(pattern), Split(topic)) {
        MetLiterally(Split(pattern), Split(topic), i);
      }
      assert MatchesTopic(topic, pattern) && !LevelMatch(Split(pattern), Split(topic));
    }
  }
}
