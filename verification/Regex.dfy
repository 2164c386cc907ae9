/** The fragment of ECMAScript regular expressions that the broker generates:
    a parser from pattern text and the language each parsed expression denotes. */
module Regex {
  import opened Wrappers

  datatype Atom = Literal(c: char) | Dot | NotSlash

  /** `Once(a)` is a bare atom, `OneOrMore` and `ZeroOrMore` carry the quantifiers `+` and `*`. */
  datatype Term = Begin | End | Once(a: Atom) | OneOrMore(a: Atom) | ZeroOrMore(a: Atom)

  /** The characters `.` refuses. */
  predicate LineTerminator(c: char) {
    c == '\n' || c == '\r'
  }

  /** Characters with a special meaning in the pattern text. */
  predicate Meta(c: char) {
    || c == '^' || c == '$' || c == '\\' || c == '.' || c == '*' || c == '+' || c == '?'
    || c == '(' || c == ')' || c == '[' || c == ']' || c == '{' || c == '}' || c == '|'
  }

  predicate Accepts(a: Atom, c: char) {
    match a
    case Literal(d) => c == d
    case Dot => !LineTerminator(c)
    case NotSlash => c != '/'
  }

  predicate AcceptsAll(a: Atom, s: string) {
    forall i :: 0 <= i < |s| ==> Accepts(a, s[i])
  }

  /** Does the whole of `s` belong to the language of `ts`?  `atStart` tells whether `s` begins
      where the subject string begins, which is what `^` asks. */
  predicate Denotes(ts: seq<Term>, atStart: bool, s: string)
    decreases |ts|
  {
    if ts == [] then s == ""
    else
      match ts[0]
      case Begin => atStart && Denotes(ts[1..], atStart, s)
      case End => s == "" && Denotes(ts[1..], atStart, s)
      case Once(a) => s != "" && Accepts(a, s[0]) && Denotes(ts[1..], false, s[1..])
      case OneOrMore(a) =>
        exists j :: 1 <= j <= |s| && AcceptsAll(a, s[..j]) && Denotes(ts[1..], false, s[j..])
      case ZeroOrMore(a) =>
        exists j :: 0 <= j <= |s| && AcceptsAll(a, s[..j]) && Denotes(ts[1..], atStart && j == 0, s[j..])
  }

  /** The atom at the head of `s` and its width; `None` when the text leaves the modelled grammar. */
  function ParseAtom(s: string): (r: Option<(Atom, nat)>)
    requires s != ""
    ensures r.Some? ==> 1 <= r.value.1 <= |s|
  {
    if s[0] == '.' then Some((Dot, 1))
    else if |s| >= 4 && s[..4] == "[^/]" then Some((NotSlash, 4))
    else if Meta(s[0]) then None
    else Some((Literal(s[0]), 1))
  }

  function Prepend(t: Term, r: Option<seq<Term>>): Option<seq<Term>> {
    if r.None? then None else Some([t] + r.value)
  }

  /** Reads pattern text; `None` when it uses syntax outside the modelled grammar. */
  function Parse(s: string): Option<seq<Term>>
    decreases |s|
  {
    if s == "" then Some([])
    else if s[0] == '^' then Prepend(Begin, Parse(s[1..]))
    else if s[0] == '$' then Prepend(End, Parse(s[1..]))
    else
      var atom := ParseAtom(s);
      if atom.None? then None
      else
        var (a, width) := atom.value;
        var rest := s[width..];
        if rest != "" && rest[0] == '*' then Prepend(ZeroOrMore(a), Parse(rest[1..]))
        else if rest != "" && rest[0] == '+' then Prepend(OneOrMore(a), Parse(rest[1..]))
        else Prepend(Once(a), Parse(rest))
  }
}
