/** Compiling a glob to the text of a regular expression, and why the meaning survives. */
module Glob {
  import opened Prelude
  import opened RegexFragment

  // ---------------------------------------------------------------- what a glob means

  ghost predicate NoTerminator(v: string) { forall i :: 0 <= i < |v| ==> !LineTerminator(v[i]) }

  ghost predicate NoSlash(v: string) { forall i :: 0 <= i < |v| ==> v[i] != '/' }

  /** Text a double star may cover: anything, or, when `across` is false, anything on one line. */
  ghost predicate Spans(v: string, across: bool) { across || NoTerminator(v) }

  /** One of the comma-separated pieces of a brace list. */
  ghost predicate IsPart(inner: string, part: string) {
    exists a, b ::
      && 0 <= a <= b <= |inner| && part == inner[a..b] && ',' !in part
      && (a == 0 || inner[a - 1] == ',') && (b == |inner| || inner[b] == ',')
  }

  /** The first closing brace. */
  ghost predicate ClosesAt(g: string, e: nat) { e < |g| && g[e] == '}' && '}' !in g[..e] }

  const DEEP: string := ['*', '*', '/']
  const WHOLE: string := ['*', '*']

  /** The direct matcher, on the glob itself. */
  ghost predicate GlobMatch(g: string, v: string, across: bool)
    decreases |g|
  {
    if g == [] then v == []
    else if DEEP <= g then
      exists k :: 0 <= k <= |v| && (k == 0 || v[k - 1] == '/') && Spans(v[..k], across)
          && GlobMatch(g[3..], v[k..], across)
    else if WHOLE <= g then exists k :: 0 <= k <= |v| && Spans(v[..k], across) && GlobMatch(g[2..], v[k..], across)
    else if g[0] == '*' then exists k :: 0 <= k <= |v| && NoSlash(v[..k]) && GlobMatch(g[1..], v[k..], across)
    else if g[0] == '?' then v != [] && v[0] != '/' && GlobMatch(g[1..], v[1..], across)
    else if g[0] == '{' && '}' in g then
      exists e, k :: 0 < e && ClosesAt(g, e) && 0 <= k <= |v| && IsPart(g[1..e], v[..k])
          && GlobMatch(g[e + 1..], v[k..], across)
    else v != [] && v[0] == g[0] && GlobMatch(g[1..], v[1..], across)
  }

  // ---------------------------------------------------------------- tokens and their text

  datatype Token = Deep | Whole | Part | One | Choice(parts: seq<string>) | Lit(c: char)

  function CloseIndex(g: string): (r: Option<nat>)
    ensures r.Some? ==> ClosesAt(g, r.value)
    ensures r.None? ==> '}' !in g
  {
    if g == [] then None
    else if g[0] == '}' then Some(0)
    else
      assert g == [g[0]] + g[1..];
      match CloseIndex(g[1..])
      case None => None
      case Some(i) =>
        assert g[..i + 1] == [g[0]] + g[1..][..i];
        Some(i + 1)
  }

  /** Split at commas. */
  function Parts(s: string): (r: seq<string>)
    ensures |r| >= 1
  {
    if s == [] then [[]]
    else
      var rest := Parts(s[1..]);
      if s[0] == ',' then [[]] + rest else [[s[0]] + rest[0]] + rest[1..]
  }

  /** The first token of a nonempty glob and its length. */
  function FirstToken(g: string): (r: (Token, nat))
    requires g != []
    ensures 0 < r.1 <= |g|
  {
    if g[0] == '*' then
      if |g| > 1 && g[1] == '*' then (if |g| > 2 && g[2] == '/' then (Deep, 3) else (Whole, 2))
      else (Part, 1)
    else if g[0] == '?' then (One, 1)
    else if g[0] == '{' then
      match CloseIndex(g)
      case Some(e) => (Choice(Parts(g[1..e])), e + 1)
      case None => (Lit('{'), 1)
    else (Lit(g[0]), 1)
  }

  function Tokens(g: string): seq<Token>
    decreases |g|
  {
    if g == [] then [] else [FirstToken(g).0] + Tokens(g[FirstToken(g).1..])
  }

  function EscapeLiteral(s: string): string {
    if s == [] then [] else (if Special(s[0]) then ['\\', s[0]] else [s[0]]) + EscapeLiteral(s[1..])
  }

  /** The parts, escaped and joined by bars. */
  function JoinParts(parts: seq<string>): string {
    if parts == [] then []
    else if |parts| == 1 then EscapeLiteral(parts[0])
    else EscapeLiteral(parts[0]) + ['|'] + JoinParts(parts[1..])
  }

  const DEEP_TEXT: string := ['(', '?', ':', '.', '*', '/', ')', '?']
  const WHOLE_TEXT: string := ['.', '*']
  const PART_TEXT: string := ['[', '^', '/', ']', '*']

  function TokenText(t: Token): string {
    match t
    case Deep => DEEP_TEXT
    case Whole => WHOLE_TEXT
    case Part => PART_TEXT
    case One => CLASS
    case Choice(parts) => OPEN + JoinParts(parts) + [')']
    case Lit(c) => EscapeLiteral([c])
  }

  function TokensText(ts: seq<Token>): string {
    if ts == [] then [] else TokenText(ts[0]) + TokensText(ts[1..])
  }

  function CompiledText(g: string): string { ['^'] + TokensText(Tokens(g)) + ['$'] }

  /** The text for the token at `i`, and the index of its last character. */
  method Emit(glob: string, i: nat) returns (piece: string, last: nat)
    requires i < |glob|
    ensures piece == TokenText(FirstToken(glob[i..]).0) && last + 1 == i + FirstToken(glob[i..]).1
  {
    hide CloseIndex;
    hide Parts;
    hide JoinParts;
    hide EscapeLiteral;
    ghost var rest := glob[i..];
    last := i;
    var c := glob[i];
    assert rest[0] == c;
    if c == '*' {
      if i + 1 < |glob| && glob[i + 1] == '*' {
        assert rest[1] == '*';
        if i + 2 < |glob| && glob[i + 2] == '/' {
          assert rest[2] == '/';
          piece := DEEP_TEXT;
          last := i + 2;
        } else {
          assert |rest| > 2 ==> rest[2] == glob[i + 2];
          piece := WHOLE_TEXT;
          last := i + 1;
        }
      } else {
        assert |rest| > 1 ==> rest[1] == glob[i + 1];
        piece := PART_TEXT;
      }
    } else if c == '?' {
      piece := CLASS;
    } else if c == '{' {
      var end := CloseIndex(glob[i..]);
      if end.Some? {
        piece := OPEN + JoinParts(Parts(glob[i..][1..end.value])) + [')'];
        last := i + end.value;
      } else {
        EscapeOne('{');
        piece := ['\\', '{'];
      }
    } else {
      piece := EscapeLiteral([c]);
    }
  }

  /** The compiler: one pass over the glob, skipping ahead over longer tokens. */
  method GlobToRegExp(glob: string) returns (text: string)
    ensures text == CompiledText(glob)
  {
    hide TokenText;
    hide FirstToken;
    var re: string := [];
    var i := 0;
    assert glob[0..] == glob;
    while i < |glob|
      invariant 0 <= i <= |glob|
      invariant TokensText(Tokens(glob)) == re + TokensText(Tokens(glob[i..]))
    {
      TextSteps(glob, i);
      var piece, last := Emit(glob, i);
      Appended(re, piece, TokensText(Tokens(glob[last + 1..])));
      re := re + piece;
      i := last + 1;
    }
    assert glob[i..] == [] && re + [] == re;
    text := ['^'] + re + ['$'];
  }

  lemma EscapeOne(c: char)
    ensures EscapeLiteral([c]) == if Special(c) then ['\\', c] else [c]
  {
    assert [c][1..] == [];
  }

  lemma Appended(a: string, b: string, c: string)
    ensures a + (b + c) == a + b + c
  {
  }

  lemma TextSteps(g: string, i: nat)
    requires i < |g|
    ensures var r := FirstToken(g[i..]);
            TokensText(Tokens(g[i..])) == TokenText(r.0) + TokensText(Tokens(g[i + r.1..]))
  {
    hide TokenText;
    hide FirstToken;
    var r := FirstToken(g[i..]);
    assert g[i..][r.1..] == g[i + r.1..];
    var ts := [r.0] + Tokens(g[i + r.1..]);
    assert Tokens(g[i..]) == ts && ts[1..] == Tokens(g[i + r.1..]);
  }

  // ---------------------------------------------------------------- reading the text back

  function Ast(t: Token): Re {
    match t
    case Deep => Opt(Group([Alt([Star(Any), Chr('/')])]))
    case Whole => Star(Any)
    case Part => Star(NotSlash)
    case One => NotSlash
    case Choice(parts) => Group(Alts(parts))
    case Lit(c) => Chr(c)
  }

  function Alts(parts: seq<string>): (r: seq<Alt>)
    ensures |r| == |parts| && forall i :: 0 <= i < |parts| ==> r[i] == Alt(Chars(parts[i]))
  {
    seq(|parts|, i requires 0 <= i < |parts| => Alt(Chars(parts[i])))
  }

  function Asts(ts: seq<Token>): seq<Re> { if ts == [] then [] else [Ast(ts[0])] + Asts(ts[1..]) }

  /** No star or question mark. */
  predicate Plain(s: string) { forall i :: 0 <= i < |s| ==> !Quantifier(s[i]) }

  predicate Unquantified(s: string) { s == [] || !Quantifier(s[0]) }

  function Quantified(c: char, q: char): Re { if q == '*' then Star(Chr(c)) else Opt(Chr(c)) }

  function Cons<T>(x: T, rest: Option<seq<T>>): Option<seq<T>> { if rest.None? then None else Some([x] + rest.value) }

  /** How the text of a brace alternative is read: stars and question marks, which are not escaped, apply
      to the character before them. No reading when one of them has nothing to apply to. */
  function Terms(s: string): Option<seq<Re>>
    decreases |s|
  {
    if s == [] then Some([])
    else if Quantifier(s[0]) then None
    else if |s| > 1 && Quantifier(s[1]) then Cons(Quantified(s[0], s[1]), Terms(AfterMark(s[2..])))
    else Cons(Chr(s[0]), Terms(s[1..]))
  }

  function AltTerms(parts: seq<string>): Option<seq<Alt>> {
    if parts == [] then Some([])
    else if Terms(parts[0]).None? then None
    else Cons(Alt(Terms(parts[0]).value), AltTerms(parts[1..]))
  }

  function TokenRe(t: Token): Option<Re> {
    if !t.Choice? then Some(Ast(t))
    else if AltTerms(t.parts).None? then None
    else Some(Group(AltTerms(t.parts).value))
  }

  /** The expression a list of tokens compiles to, if it compiles. */
  function TokensRe(ts: seq<Token>): Option<seq<Re>> {
    if ts == [] then Some([]) else if TokenRe(ts[0]).None? then None else Cons(TokenRe(ts[0]).value, TokensRe(ts[1..]))
  }

  function Before<T>(r: Option<T>, rest: string): Option<(T, string)> {
    if r.None? then None else Some((r.value, rest))
  }

  /** An escaped character reads back as itself. */
  lemma EscapedAtom(c: char, rest: string)
    requires !Quantifier(c)
    ensures ParseAtom(EscapeLiteral([c]) + rest) == Some((Chr(c), rest))
    ensures !Stops(EscapeLiteral([c]) + rest) && Unquantified(EscapeLiteral([c]) + rest)
  {
    hide EscapeLiteral;
    EscapeOne(c);
    var s := EscapeLiteral([c]) + rest;
    if Special(c) {
      assert s[0] == '\\' && s[1] == c && s[2..] == rest;
    } else {
      assert s[0] == c && s[1..] == rest;
    }
  }

  lemma EscapedCharParses(c: char, rest: string)
    requires !Quantifier(c) && Unquantified(rest)
    ensures ParseTerm(EscapeLiteral([c]) + rest) == Some((Chr(c), rest))
  {
    hide ParseAtom;
    EscapedAtom(c, rest);
  }

  lemma QuantifiedParses(c: char, q: char, rest: string)
    requires !Quantifier(c) && Quantifier(q)
    ensures ParseTerm(EscapeLiteral([c]) + ([q] + rest)) == Some((Quantified(c, q), AfterMark(rest)))
  {
    hide ParseAtom;
    EscapedAtom(c, [q] + rest);
    assert ([q] + rest)[1..] == rest;
  }

  lemma EscapeSplits(s: string)
    requires s != []
    ensures EscapeLiteral(s) == EscapeLiteral([s[0]]) + EscapeLiteral(s[1..])
  {
    assert [s[0]][1..] == [];
  }

  lemma EscapedStart(s: string, rest: string)
    requires Unquantified(s) && Unquantified(rest)
    ensures Unquantified(EscapeLiteral(s) + rest)
  {
  }

  /** The lazy mark is looked for in the text as in the alternative. */
  lemma MarkInText(s: string, rest: string)
    requires Stops(rest)
    ensures AfterMark(EscapeLiteral(s) + rest) == EscapeLiteral(AfterMark(s)) + rest
  {
    if s != [] {
      EscapeSplits(s);
      EscapeOne(s[0]);
      var t := EscapeLiteral(s) + rest;
      assert t[0] == EscapeLiteral([s[0]])[0];
      if s[0] == '?' { assert t[1..] == EscapeLiteral(s[1..]) + rest; }
    }
  }

  lemma QuantifierFails(s: string, rest: string)
    requires s != [] && Quantifier(s[0])
    ensures ParseSeq(EscapeLiteral(s) + rest) == None
  {
    hide EscapeLiteral;
    EscapeSplits(s);
    EscapeOne(s[0]);
    var t := EscapeLiteral(s) + rest;
    assert t[0] == s[0] && !Stops(t) && ParseAtom(t) == None;
  }

  lemma {:induction false} EscapedParses(s: string, rest: string)
    requires Stops(rest)
    ensures ParseSeq(EscapeLiteral(s) + rest) == Before(Terms(s), rest)
    decreases |s|
  {
    hide ParseTerm;
    hide AfterMark;
    hide EscapeLiteral;
    if s == [] {
      EscapeNothing();
      assert EscapeLiteral(s) + rest == rest;
    } else if Quantifier(s[0]) {
      QuantifierFails(s, rest);
    } else {
      EscapeSplits(s);
      Appended(EscapeLiteral([s[0]]), EscapeLiteral(s[1..]), rest);
      EscapedAtom(s[0], EscapeLiteral(s[1..]) + rest);
      if |s| > 1 && Quantifier(s[1]) {
        QuantifiedStep(s, rest);
        EscapedParses(AfterMark(s[2..]), rest);
      } else {
        EscapedStart(s[1..], rest);
        EscapedCharParses(s[0], EscapeLiteral(s[1..]) + rest);
        EscapedParses(s[1..], rest);
      }
    }
  }

  lemma EscapeNothing()
    ensures EscapeLiteral([]) == []
  {
  }

  lemma QuantifiedStep(s: string, rest: string)
    requires |s| > 1 && !Quantifier(s[0]) && Quantifier(s[1]) && Stops(rest)
    ensures ParseTerm(EscapeLiteral(s) + rest)
            == Some((Quantified(s[0], s[1]), EscapeLiteral(AfterMark(s[2..])) + rest))
  {
    hide ParseTerm;
    hide AfterMark;
    hide EscapeLiteral;
    var after := EscapeLiteral(s[2..]) + rest;
    EscapeSplits(s);
    EscapeSplits(s[1..]);
    EscapeOne(s[1]);
    assert s[1..][1..] == s[2..] && s[1..][0] == s[1];
    assert EscapeLiteral(s) + rest == EscapeLiteral([s[0]]) + ([s[1]] + after);
    QuantifiedParses(s[0], s[1], after);
    MarkInText(s[2..], rest);
  }

  lemma {:induction false} PartsParse(parts: seq<string>, rest: string)
    requires parts != [] && rest != [] && rest[0] == ')'
    ensures ParseAlts(JoinParts(parts) + rest) == Before(AltTerms(parts), rest)
  {
    hide ParseSeq;
    hide EscapeLiteral;
    hide Terms;
    var first := EscapeLiteral(parts[0]);
    if |parts| == 1 {
      EscapedParses(parts[0], rest);
      OneAlternative(parts);
    } else {
      var tail := JoinParts(parts[1..]) + rest;
      PartsParse(parts[1..], rest);
      BarParse(parts[0], tail);
      assert first + ['|'] + JoinParts(parts[1..]) + rest == first + (['|'] + tail);
    }
  }

  lemma OneAlternative(parts: seq<string>)
    requires |parts| == 1
    ensures AltTerms(parts) == if Terms(parts[0]).None? then None else Some([Alt(Terms(parts[0]).value)])
  {
    hide Terms;
    assert parts[1..] == [];
    if Terms(parts[0]).Some? { assert [Alt(Terms(parts[0]).value)] + [] == [Alt(Terms(parts[0]).value)]; }
  }

  lemma BarParse(part: string, tail: string)
    ensures ParseSeq(EscapeLiteral(part) + (['|'] + tail)) == Before(Terms(part), ['|'] + tail)
    ensures (['|'] + tail)[1..] == tail
  {
    EscapedParses(part, ['|'] + tail);
  }

  lemma ChoiceParses(parts: seq<string>, rest: string)
    requires parts != [] && Unquantified(rest)
    ensures ParseTerm(TokenText(Choice(parts)) + rest) == Before(TokenRe(Choice(parts)), rest)
  {
    hide ParseAlts;
    hide JoinParts;
    hide AltTerms;
    var tail := JoinParts(parts) + ([')'] + rest);
    var s := OPEN + tail;
    PartsParse(parts, [')'] + rest);
    assert TokenText(Choice(parts)) + rest == s;
    assert s[0] == '(' && s[..3] == OPEN && s[3..] == tail && OPEN <= s;
    assert ([')'] + rest)[1..] == rest;
  }

  lemma DeepParses(rest: string)
    requires Unquantified(rest)
    ensures ParseTerm(DEEP_TEXT + rest) == Some((Ast(Deep), rest))
  {
    hide ParseAlts;
    var s := DEEP_TEXT + rest;
    assert OPEN <= s && s[0] == '(' && s[3..] == ['.', '*', '/', ')', '?'] + rest;
    DeepInside(['?'] + rest);
    assert ['.', '*', '/'] + ([')'] + (['?'] + rest)) == ['.', '*', '/', ')', '?'] + rest;
    assert ([')'] + (['?'] + rest))[1..] == ['?'] + rest && (['?'] + rest)[1..] == rest;
  }

  lemma DeepInside(rest: string)
    ensures ParseAlts(['.', '*', '/'] + ([')'] + rest)) == Some(([Alt([Star(Any), Chr('/')])], [')'] + rest))
  {
    var closing := [')'] + rest;
    var slash := ['/'] + closing;
    var s := ['.', '*', '/'] + closing;
    assert s[0] == '.' && s[1..] == ['*'] + slash && (['*'] + slash)[1..] == slash;
    assert ParseTerm(s) == Some((Star(Any), slash));
    assert slash[1..] == closing;
    assert ParseTerm(slash) == Some((Chr('/'), closing));
    assert ParseSeq(closing) == Some(([], closing));
    SeqStep(slash, Chr('/'), closing);
    SeqStep(s, Star(Any), slash);
    assert [Star(Any)] + ([Chr('/')] + []) == [Star(Any), Chr('/')];
    assert ParseSeq(s) == Some(([Star(Any), Chr('/')], closing));
  }

  lemma SeqStep(s: string, r: Re, rest: string)
    requires !Stops(s) && ParseTerm(s) == Some((r, rest)) && ParseSeq(rest).Some?
    ensures ParseSeq(s) == Some(([r] + ParseSeq(rest).value.0, ParseSeq(rest).value.1))
  {
  }

  /** What every token of a glob satisfies. */
  predicate ProperToken(t: Token) {
    (t.Lit? ==> !Quantifier(t.c)) && (t.Choice? ==> t.parts != [])
  }

  /** Every token's text reads back as its expression, or not at all when it has none. */
  lemma TokenParses(t: Token, rest: string)
    requires ProperToken(t) && Unquantified(rest)
    ensures ParseTerm(TokenText(t) + rest) == Before(TokenRe(t), rest)
    ensures !Stops(TokenText(t) + rest) && Unquantified(TokenText(t) + rest)
  {
    hide AltTerms;
    match t
    case Deep => DeepParses(rest);
    case Whole =>
      var s := WHOLE_TEXT + rest;
      assert s[0] == '.' && s[1..] == ['*'] + rest && (['*'] + rest)[1..] == rest;
    case Part =>
      var s := PART_TEXT + rest;
      assert CLASS <= s && s[4..] == ['*'] + rest && (['*'] + rest)[1..] == rest;
    case One =>
      var s := CLASS + rest;
      assert CLASS <= s && s[4..] == rest;
    case Choice(parts) =>
      ChoiceParses(parts, rest);
      assert (TokenText(t) + rest)[0] == '(';
    case Lit(c) =>
      EscapedAtom(c, rest);
      EscapedCharParses(c, rest);
  }

  lemma {:induction false} TokensParse(ts: seq<Token>)
    requires forall t <- ts :: ProperToken(t)
    ensures ParseSeq(TokensText(ts)) == Before(TokensRe(ts), []) && Unquantified(TokensText(ts))
  {
    hide ParseTerm;
    hide TokenText;
    hide TokenRe;
    if ts != [] {
      TokensParse(ts[1..]);
      TokenParses(ts[0], TokensText(ts[1..]));
    }
  }

  /** Literal tokens are never quantifiers, and a brace list always has a part. */
  lemma {:induction false} TokensProper(g: string)
    ensures forall t <- Tokens(g) :: ProperToken(t)
    decreases |g|
  {
    if g != [] {
      FirstProper(g);
      TokensProper(g[FirstToken(g).1..]);
    }
  }

  lemma FirstProper(g: string)
    requires g != []
    ensures ProperToken(FirstToken(g).0)
  {
  }

  /** Read as a regular expression, the compiled text of every glob is the expected expression, and is
      no expression exactly when the glob has none. */
  lemma CompiledParses(g: string)
    ensures RegExp(CompiledText(g)) == TokensRe(Tokens(g))
  {
    hide ParseSeq;
    TokensProper(g);
    TokensParse(Tokens(g));
    var text := CompiledText(g);
    assert text[1..|text| - 1] == TokensText(Tokens(g));
  }

  // ---------------------------------------------------------------- when it compiles

  /** The star or question mark at `i + 1` does not follow another, unless it is a lazy mark. */
  predicate PairLegal(s: string, i: nat) {
    i + 1 < |s| && Quantifier(s[i]) && Quantifier(s[i + 1]) ==>
        s[i + 1] == '?' && (i + 2 < |s| ==> !Quantifier(s[i + 2]))
  }

  /** Every star and question mark has something to apply to. */
  predicate Legal(s: string) { Unquantified(s) && forall i: nat :: i < |s| ==> PairLegal(s, i) }

  lemma {:induction false} TermsIffLegal(s: string)
    ensures Terms(s).Some? <==> Legal(s)
    decreases |s|
  {
    if s != [] && !Quantifier(s[0]) {
      if |s| > 1 && Quantifier(s[1]) {
        TermsIffLegal(AfterMark(s[2..]));
        LegalAfter(s);
      } else {
        TermsIffLegal(s[1..]);
        LegalShift(s, 1);
      }
    }
  }

  /** Dropping a prefix keeps the pairs behind it. */
  lemma LegalShift(s: string, n: nat)
    requires n <= |s|
    ensures (forall i: nat :: i < |s[n..]| ==> PairLegal(s[n..], i)) <==>
            (forall i: nat :: n <= i < |s| ==> PairLegal(s, i))
  {
    forall i: nat | i < |s[n..]| ensures PairLegal(s[n..], i) <==> PairLegal(s, i + n) { }
    if forall i: nat :: i < |s[n..]| ==> PairLegal(s[n..], i) {
      forall i: nat | n <= i < |s| ensures PairLegal(s, i) { assert PairLegal(s[n..], i - n); }
    }
  }

  lemma LegalAfter(s: string)
    requires |s| > 1 && !Quantifier(s[0]) && Quantifier(s[1])
    ensures Legal(AfterMark(s[2..])) <==> Legal(s)
  {
    assert PairLegal(s, 0);
    if |s| > 2 && s[2] == '?' {
      assert s[2..][1..] == s[3..];
      LegalShift(s, 3);
      assert PairLegal(s, 1) <==> Unquantified(s[3..]);
      assert Unquantified(s[3..]) ==> PairLegal(s, 2);
    } else {
      LegalShift(s, 2);
      assert PairLegal(s, 1) <==> Unquantified(s[2..]);
    }
  }

  lemma {:induction false} AltTermsIff(parts: seq<string>)
    ensures AltTerms(parts).Some? <==> forall i :: 0 <= i < |parts| ==> Legal(parts[i])
  {
    hide Legal;
    hide Terms;
    if parts != [] {
      TermsIffLegal(parts[0]);
      AltTermsIff(parts[1..]);
      assert parts == [parts[0]] + parts[1..];
    }
  }

  ghost predicate LegalToken(t: Token) { t.Choice? ==> forall i :: 0 <= i < |t.parts| ==> Legal(t.parts[i]) }

  lemma {:induction false} TokensReIff(ts: seq<Token>)
    ensures TokensRe(ts).Some? <==> forall t <- ts :: LegalToken(t)
  {
    hide Legal;
    if ts != [] {
      if ts[0].Choice? { AltTermsIff(ts[0].parts); }
      TokensReIff(ts[1..]);
      assert ts[0] in ts && forall t :: t in ts <==> t == ts[0] || t in ts[1..];
      assert TokenRe(ts[0]).Some? <==> LegalToken(ts[0]);
    }
  }

  /** Compiling a glob throws exactly when a star or question mark in one of its brace alternatives has
      nothing to repeat: it begins the alternative, or follows another that it cannot make lazy. */
  lemma CompilesIff(g: string)
    ensures RegExp(CompiledText(g)).Some? <==> forall t <- Tokens(g) :: LegalToken(t)
  {
    hide RegExp;
    CompiledParses(g);
    TokensReIff(Tokens(g));
  }

  // ---------------------------------------------------------------- plain braces

  lemma {:induction false} PlainTerms(s: string)
    requires Plain(s)
    ensures Terms(s) == Some(Chars(s))
  {
    if s != [] {
      PlainTerms(s[1..]);
      assert Chars(s) == [Chr(s[0])] + Chars(s[1..]);
    }
  }

  lemma {:induction false} PlainAltTerms(parts: seq<string>)
    requires forall i :: 0 <= i < |parts| ==> Plain(parts[i])
    ensures AltTerms(parts) == Some(Alts(parts))
  {
    hide Terms;
    if parts != [] {
      PlainTerms(parts[0]);
      PlainAltTerms(parts[1..]);
      assert Alts(parts) == [Alt(Chars(parts[0]))] + Alts(parts[1..]);
    }
  }

  ghost predicate PlainToken(t: Token) { t.Choice? ==> forall i :: 0 <= i < |t.parts| ==> Plain(t.parts[i]) }

  lemma {:induction false} PlainTokensRe(ts: seq<Token>)
    requires forall t <- ts :: PlainToken(t)
    ensures TokensRe(ts) == Some(Asts(ts))
  {
    hide AltTerms;
    if ts != [] {
      assert PlainToken(ts[0]);
      if ts[0].Choice? { PlainAltTerms(ts[0].parts); }
      PlainTokensRe(ts[1..]);
    }
  }

  // ---------------------------------------------------------------- meaning preserved

  /** The text one token may cover. */
  ghost predicate Covers(t: Token, w: string, across: bool) {
    match t
    case Deep => w == [] || (w[|w| - 1] == '/' && Spans(w, across))
    case Whole => Spans(w, across)
    case Part => NoSlash(w)
    case One => |w| == 1 && w[0] != '/'
    case Choice(parts) => w in parts
    case Lit(c) => w == [c]
  }

  function OneLineChar(): char -> bool { c => !LineTerminator(c) }

  function NotSlashChar(): char -> bool { c => c != '/' }

  lemma StarAny(w: string)
    ensures In(Star(Any), w) <==> NoTerminator(w)
  {
    StarOfOne(Any, OneLineChar(), w);
  }

  lemma StarNotSlash(w: string)
    ensures In(Star(NotSlash), w) <==> NoSlash(w)
  {
    StarOfOne(NotSlash, NotSlashChar(), w);
  }

  lemma InSeqOne(r: Re, w: string)
    ensures InSeq([r], w) <==> In(r, w)
  {
    assert [r][1..] == [];
    assert w[..|w|] == w && w[|w|..] == [];
    forall k | 0 <= k <= |w| ensures In(r, w[..k]) && InSeq([], w[k..]) <==> k == |w| && In(r, w) {
    }
  }

  lemma DeepAccepts(w: string)
    ensures InSeq([Star(Any), Chr('/')], w) <==> w != [] && w[|w| - 1] == '/' && NoTerminator(w)
  {
    hide In;
    var rs := [Star(Any), Chr('/')];
    assert rs[1..] == [Chr('/')];
    forall k | 0 <= k <= |w|
      ensures In(rs[0], w[..k]) && InSeq(rs[1..], w[k..]) <==> k == |w| - 1 && w[k] == '/' && NoTerminator(w)
    {
      StarAny(w[..k]);
      InSeqOne(Chr('/'), w[k..]);
      SlashOnly(w[k..]);
      if k == |w| - 1 && w[k] == '/' {
        assert forall i :: 0 <= i < k ==> w[..k][i] == w[i];
      }
    }
  }

  lemma SlashOnly(w: string)
    ensures In(Chr('/'), w) <==> |w| == 1 && w[0] == '/'
  {
  }

  lemma ChoiceAccepts(parts: seq<string>, w: string)
    ensures In(Group(Alts(parts)), w) <==> w in parts
  {
    forall i | 0 <= i < |parts| ensures InSeq(Alts(parts)[i].terms, w) <==> w == parts[i] {
      CharsAccept(parts[i], w);
    }
    if w in parts {
      var i :| 0 <= i < |parts| && parts[i] == w;
      assert InSeq(Alts(parts)[i].terms, w);
    }
  }

  lemma GroupOne(rs: seq<Re>, w: string)
    ensures In(Group([Alt(rs)]), w) <==> InSeq(rs, w)
  {
    if InSeq(rs, w) { assert InSeq([Alt(rs)][0].terms, w); }
  }

  lemma TokenAccepts(t: Token, w: string)
    ensures In(Ast(t), w) <==> Covers(t, w, false)
  {
    match t
    case Deep =>
      DeepAccepts(w);
      GroupOne([Star(Any), Chr('/')], w);
    case Whole => StarAny(w);
    case Part => StarNotSlash(w);
    case One =>
    case Choice(parts) => ChoiceAccepts(parts, w);
    case Lit(c) =>
  }

  /** The piece before the first comma. */
  ghost predicate IsFirstPart(s: string, part: string) {
    part <= s && ',' !in part && (|part| == |s| || s[|part|] == ',')
  }

  ghost predicate PartAt(s: string, part: string, a: int, b: int) {
    && 0 <= a <= b <= |s| && part == s[a..b] && ',' !in part
    && (a == 0 || s[a - 1] == ',') && (b == |s| || s[b] == ',')
  }

  lemma {:induction false} PartsHead(s: string)
    ensures IsFirstPart(s, Parts(s)[0])
    ensures Parts(s)[1..] == if |Parts(s)[0]| == |s| then [] else Parts(s[|Parts(s)[0]| + 1..])
  {
    if s != [] {
      var rest := Parts(s[1..]);
      PartsHead(s[1..]);
      assert s == [s[0]] + s[1..];
      if s[0] != ',' && |rest[0]| < |s[1..]| { assert s[|rest[0]| + 2..] == s[1..][|rest[0]| + 1..]; }
    }
  }

  lemma NoCommaIn(s: string, part: string, a: nat)
    requires a + |part| <= |s| && part == s[a..a + |part|] && ',' !in part
    ensures forall i :: a <= i < a + |part| ==> s[i] != ','
  {
    forall i | a <= i < a + |part| ensures s[i] != ',' { assert part[i - a] in part; }
  }

  lemma FirstPartOnly(s: string, first: string, part: string, b: int)
    requires IsFirstPart(s, first)
    ensures PartAt(s, part, 0, b) <==> b == |first| && part == first
  {
    var n := |first|;
    assert s[0..n] == first;
    NoCommaIn(s, first, 0);
    if PartAt(s, part, 0, b) { NoCommaIn(s, part, 0); }
  }

  lemma LaterPart(s: string, first: string, part: string, a: int, b: int)
    requires IsFirstPart(s, first) && 0 < a
    ensures PartAt(s, part, a, b) <==>
              |first| < |s| && |first| < a && PartAt(s[|first| + 1..], part, a - |first| - 1, b - |first| - 1)
  {
    var n := |first|;
    NoCommaIn(s, first, 0);
    if n < |s| && n < a && a <= b <= |s| {
      var t := s[n + 1..];
      assert t[a - n - 1..b - n - 1] == s[a..b];
      assert a - 1 > n ==> t[a - n - 2] == s[a - 1];
      assert b < |s| ==> t[b - n - 1] == s[b];
    }
  }

  lemma PartUnfolds(s: string, first: string, part: string)
    requires IsFirstPart(s, first)
    ensures IsPart(s, part) <==> part == first || (|first| < |s| && IsPart(s[|first| + 1..], part))
  {
    hide IsFirstPart;
    hide PartAt;
    PartIs(s, part);
    if IsPart(s, part) {
      var a, b :| PartAt(s, part, a, b);
      AtInRange(s, part, a, b);
      if a == 0 {
        FirstPartOnly(s, first, part, b);
      } else {
        LaterPart(s, first, part, a, b);
        PartIs(s[|first| + 1..], part);
      }
    }
    FirstPartOnly(s, first, first, |first|);
    if |first| < |s| {
      PartIs(s[|first| + 1..], part);
      if IsPart(s[|first| + 1..], part) {
        var a, b :| PartAt(s[|first| + 1..], part, a, b);
        AtInRange(s[|first| + 1..], part, a, b);
        LaterPart(s, first, part, a + |first| + 1, b + |first| + 1);
      }
    }
  }

  lemma AtInRange(s: string, part: string, a: int, b: int)
    requires PartAt(s, part, a, b)
    ensures 0 <= a <= b <= |s|
  {
  }

  lemma PartIs(s: string, part: string)
    ensures IsPart(s, part) <==> exists a, b :: PartAt(s, part, a, b)
  {
    if IsPart(s, part) {
      var a, b :|
        && 0 <= a <= b <= |s| && part == s[a..b] && ',' !in part
        && (a == 0 || s[a - 1] == ',') && (b == |s| || s[b] == ',');
      assert PartAt(s, part, a, b);
    }
  }

  /** Splitting at commas gives exactly the comma-separated pieces. */
  lemma {:induction false} PartsAre(s: string, part: string)
    ensures part in Parts(s) <==> IsPart(s, part)
    decreases |s|
  {
    hide IsFirstPart;
    hide IsPart;
    hide Parts;
    var first := Parts(s)[0];
    PartsHead(s);
    FirstIsShort(s, first);
    PartUnfolds(s, first, part);
    assert Parts(s) == [first] + Parts(s)[1..];
    if |first| < |s| { PartsAre(s[|first| + 1..], part); }
  }

  lemma FirstIsShort(s: string, first: string)
    requires IsFirstPart(s, first)
    ensures |first| <= |s|
  {
  }
}
