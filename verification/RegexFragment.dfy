/** The part of the regular-expression language that compiled globs use: its syntax, read from text,
    and its meaning as the set of strings it accepts. */
module RegexFragment {
  import opened Prelude

  datatype Re =
    | Chr(c: char)
    | Any
    | NotSlash
    | Star(r: Re)
    | Opt(r: Re)
    | Group(alts: seq<Alt>)

  datatype Alt = Alt(terms: seq<Re>)

  // ---------------------------------------------------------------- meaning

  /** The dot does not match these: LF, CR, line separator, paragraph separator. */
  predicate LineTerminator(c: char) { c as int == 10 || c as int == 13 || c as int == 0x2028 || c as int == 0x2029 }

  /** Does the expression accept the whole string? */
  predicate In(r: Re, v: string)
    decreases r, |v|, 0
  {
    match r
    case Chr(c) => v == [c]
    case Any => |v| == 1 && !LineTerminator(v[0])
    case NotSlash => |v| == 1 && v[0] != '/'
    case Star(x) => v == [] || exists k :: 0 < k <= |v| && In(x, v[..k]) && In(r, v[k..])
    case Opt(x) => v == [] || In(x, v)
    case Group(alts) => exists i :: 0 <= i < |alts| && InSeq(alts[i].terms, v)
  }

  predicate InSeq(rs: seq<Re>, v: string)
    decreases rs, |v|, 1
  {
    if rs == [] then v == [] else exists k :: 0 <= k <= |v| && In(rs[0], v[..k]) && InSeq(rs[1..], v[k..])
  }

  // ---------------------------------------------------------------- syntax

  /** The characters escaped in literals. */
  predicate Special(c: char) {
    c == '.' || c == '+' || c == '^' || c == '$' || c == '{' || c == '}' || c == '(' || c == ')' || c == '|'
    || c == '[' || c == ']' || c == '\\'
  }

  predicate Quantifier(c: char) { c == '*' || c == '?' }

  const OPEN: string := ['(', '?', ':']
  const CLASS: string := ['[', '^', '/', ']']

  function ParseAtom(s: string): (p: Option<(Re, string)>)
    ensures p.Some? ==> |p.value.1| < |s|
    decreases |s|, 0
  {
    if s == [] then None
    else if s[0] == '\\' then (if |s| >= 2 && Special(s[1]) then Some((Chr(s[1]), s[2..])) else None)
    else if s[0] == '.' then Some((Any, s[1..]))
    else if s[0] == '[' then (if CLASS <= s then Some((NotSlash, s[4..])) else None)
    else if s[0] == '(' then
      if OPEN <= s then
        match ParseAlts(s[3..])
        case None => None
        case Some((alts, rest)) => if rest != [] && rest[0] == ')' then Some((Group(alts), rest[1..])) else None
      else None
    else if Special(s[0]) || Quantifier(s[0]) then None
    else Some((Chr(s[0]), s[1..]))
  }

  /** A question mark after a quantifier makes it lazy, which changes no answer of a whole-string test. */
  function AfterMark(s: string): (r: string)
    ensures |r| <= |s|
  {
    if s != [] && s[0] == '?' then s[1..] else s
  }

  /** An atom and its quantifier, if any. A quantifier with nothing before it is an error. */
  function ParseTerm(s: string): (p: Option<(Re, string)>)
    ensures p.Some? ==> |p.value.1| < |s|
    decreases |s|, 1
  {
    match ParseAtom(s)
    case None => None
    case Some((r, rest)) =>
      if rest != [] && rest[0] == '*' then Some((Star(r), AfterMark(rest[1..])))
      else if rest != [] && rest[0] == '?' then Some((Opt(r), AfterMark(rest[1..])))
      else Some((r, rest))
  }

  predicate Stops(s: string) { s == [] || s[0] == '|' || s[0] == ')' }

  function ParseSeq(s: string): (p: Option<(seq<Re>, string)>)
    ensures p.Some? ==> |p.value.1| <= |s|
    decreases |s|, 2
  {
    if Stops(s) then Some(([], s))
    else
      match ParseTerm(s)
      case None => None
      case Some((r, rest)) =>
        match ParseSeq(rest)
        case None => None
        case Some((rs, rest')) => Some(([r] + rs, rest'))
  }

  function ParseAlts(s: string): (p: Option<(seq<Alt>, string)>)
    ensures p.Some? ==> |p.value.1| <= |s|
    decreases |s|, 3
  {
    match ParseSeq(s)
    case None => None
    case Some((rs, rest)) =>
      if rest != [] && rest[0] == '|' then
        match ParseAlts(rest[1..])
        case None => None
        case Some((more, rest')) => Some(([Alt(rs)] + more, rest'))
      else Some(([Alt(rs)], rest))
  }

  /** An anchored expression without alternatives at the top. */
  function RegExp(text: string): Option<seq<Re>> {
    if |text| < 2 || text[0] != '^' || text[|text| - 1] != '$' then None
    else
      match ParseSeq(text[1..|text| - 1])
      case None => None
      case Some((rs, rest)) => if rest == [] then Some(rs) else None
  }

  // ---------------------------------------------------------------- what the pieces accept

  ghost predicate Each(p: char -> bool, v: string) { forall i :: 0 <= i < |v| ==> p(v[i]) }

  /** A repeated one-character expression accepts the strings of such characters. */
  lemma {:induction false} StarOfOne(x: Re, p: char -> bool, v: string)
    requires forall w :: In(x, w) <==> |w| == 1 && p(w[0])
    ensures In(Star(x), v) <==> Each(p, v)
    decreases |v|
  {
    if v != [] {
      StarOfOne(x, p, v[1..]);
      assert v[..1] == [v[0]];
      if Each(p, v) {
        assert In(x, v[..1]) && In(Star(x), v[1..]);
      }
      if In(Star(x), v) {
        var k :| 0 < k <= |v| && In(x, v[..k]) && In(Star(x), v[k..]);
        assert k == 1;
        assert forall i :: 1 <= i < |v| ==> v[i] == v[1..][i - 1];
      }
    }
  }

  function Chars(s: string): (r: seq<Re>)
    ensures |r| == |s| && forall i :: 0 <= i < |s| ==> r[i] == Chr(s[i])
  {
    seq(|s|, i requires 0 <= i < |s| => Chr(s[i]))
  }

  /** A sequence of characters accepts just itself. */
  lemma {:induction false} CharsAccept(s: string, v: string)
    ensures InSeq(Chars(s), v) <==> v == s
  {
    if s != [] {
      assert Chars(s)[1..] == Chars(s[1..]);
      forall k | 0 <= k <= |v| ensures In(Chr(s[0]), v[..k]) && InSeq(Chars(s[1..]), v[k..]) <==> k == 1 && v == s {
        CharsAccept(s[1..], v[k..]);
        assert v == v[..k] + v[k..] && s == [s[0]] + s[1..];
      }
      if v == s { assert In(Chr(s[0]), v[..1]) && InSeq(Chars(s)[1..], v[1..]); }
    }
  }
}
