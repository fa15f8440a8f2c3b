/** The compiled expression accepts what the glob matches, and the cached matcher agrees. */
module GlobMeaning {
  import opened Prelude
  import opened RegexFragment
  import opened Glob

  /** No brace alternative contains a star or a question mark. */
  ghost predicate PlainBraces(g: string) { forall t <- Tokens(g) :: PlainToken(t) }

  // ---------------------------------------------------------------- one token at a time

  /** The first token covers a prefix and the rest of the glob matches what remains. */
  ghost predicate Steps(g: string, v: string, across: bool, k: int)
    requires g != []
  {
    0 <= k <= |v| && Covers(FirstToken(g).0, v[..k], across) && GlobMatch(g[FirstToken(g).1..], v[k..], across)
  }

  lemma {:induction false} DirectStep(g: string, v: string, across: bool)
    requires g != []
    ensures GlobMatch(g, v, across) <==> exists k :: Steps(g, v, across, k)
  {
    if g[0] == '*' {
      StarStep(g, v, across);
    } else if g[0] == '{' && CloseIndex(g).Some? {
      ChoiceStep(g, v, across);
    } else {
      CharStep(g, v, across);
    }
  }

  lemma StarStep(g: string, v: string, across: bool)
    requires g != [] && g[0] == '*'
    ensures GlobMatch(g, v, across) <==> exists k :: Steps(g, v, across, k)
  {
    if |g| > 1 && g[1] == '*' {
      assert WHOLE <= g;
      if |g| > 2 && g[2] == '/' {
        assert DEEP <= g;
        DeepStep(g, v, across);
      } else {
        assert !(DEEP <= g);
        WholeStep(g, v, across);
      }
    } else {
      assert !(DEEP <= g) && !(WHOLE <= g);
      PartStep(g, v, across);
    }
  }

  lemma DeepStep(g: string, v: string, across: bool)
    requires DEEP <= g
    ensures GlobMatch(g, v, across) <==> exists k :: Steps(g, v, across, k)
  {
    hide GlobMatch;
    GlobDeep(g, v, across);
    assert FirstToken(g) == (Deep, 3);
    forall k | 0 <= k <= |v|
      ensures (k == 0 || v[k - 1] == '/') && Spans(v[..k], across) <==> Covers(Deep, v[..k], across)
    {
    }
    if exists k :: DeepAt(g, v, across, k) {
      var k :| DeepAt(g, v, across, k);
      assert Steps(g, v, across, k);
    }
    if exists k :: Steps(g, v, across, k) {
      var k :| Steps(g, v, across, k);
      assert DeepAt(g, v, across, k);
    }
  }

  ghost predicate DeepAt(g: string, v: string, across: bool, k: int)
    requires DEEP <= g
  {
    0 <= k <= |v| && (k == 0 || v[k - 1] == '/') && Spans(v[..k], across) && GlobMatch(g[3..], v[k..], across)
  }

  lemma GlobDeep(g: string, v: string, across: bool)
    requires DEEP <= g
    ensures GlobMatch(g, v, across) <==> exists k :: DeepAt(g, v, across, k)
  {
    if exists k :: DeepAt(g, v, across, k) {
      var k :| DeepAt(g, v, across, k);
      assert GlobMatch(g[3..], v[k..], across);
    }
    if GlobMatch(g, v, across) {
      var k :| 0 <= k <= |v| && (k == 0 || v[k - 1] == '/') && Spans(v[..k], across)
          && GlobMatch(g[3..], v[k..], across);
      assert DeepAt(g, v, across, k);
    }
  }

  lemma WholeStep(g: string, v: string, across: bool)
    requires WHOLE <= g && !(DEEP <= g)
    ensures GlobMatch(g, v, across) <==> exists k :: Steps(g, v, across, k)
  {
    assert |g| > 2 ==> g[2] != '/';
    assert FirstToken(g) == (Whole, 2);
    if GlobMatch(g, v, across) {
      var k :| 0 <= k <= |v| && Spans(v[..k], across) && GlobMatch(g[2..], v[k..], across);
      assert Steps(g, v, across, k);
    }
    if exists k :: Steps(g, v, across, k) {
      var k :| Steps(g, v, across, k);
      assert Spans(v[..k], across) && GlobMatch(g[2..], v[k..], across);
    }
  }

  lemma PartStep(g: string, v: string, across: bool)
    requires g != [] && g[0] == '*' && !(WHOLE <= g) && !(DEEP <= g)
    ensures GlobMatch(g, v, across) <==> exists k :: Steps(g, v, across, k)
  {
    assert |g| > 1 ==> g[1] != '*';
    assert FirstToken(g) == (Part, 1);
    if GlobMatch(g, v, across) {
      var k :| 0 <= k <= |v| && NoSlash(v[..k]) && GlobMatch(g[1..], v[k..], across);
      assert Steps(g, v, across, k);
    }
    if exists k :: Steps(g, v, across, k) {
      var k :| Steps(g, v, across, k);
      assert NoSlash(v[..k]) && GlobMatch(g[1..], v[k..], across);
    }
  }

  ghost predicate ChoiceAt(g: string, v: string, across: bool, e: int, k: int) {
    0 < e && ClosesAt(g, e) && 0 <= k <= |v| && IsPart(g[1..e], v[..k]) && GlobMatch(g[e + 1..], v[k..], across)
  }

  lemma GlobChoice(g: string, v: string, across: bool)
    requires g != [] && g[0] == '{' && '}' in g
    ensures GlobMatch(g, v, across) <==> exists e, k :: ChoiceAt(g, v, across, e, k)
  {
    hide IsPart;
    if GlobMatch(g, v, across) {
      var e, k :| 0 < e && ClosesAt(g, e) && 0 <= k <= |v| && IsPart(g[1..e], v[..k])
          && GlobMatch(g[e + 1..], v[k..], across);
      assert ChoiceAt(g, v, across, e, k);
    }
    if exists e, k :: ChoiceAt(g, v, across, e, k) {
      var e, k :| ChoiceAt(g, v, across, e, k);
      assert IsPart(g[1..e], v[..k]) && GlobMatch(g[e + 1..], v[k..], across);
    }
  }

  lemma NoneBefore(g: string, e: nat)
    requires ClosesAt(g, e)
    ensures forall i :: 0 <= i < e ==> g[i] != '}'
  {
    assert forall i :: 0 <= i < e ==> g[i] == g[..e][i] && g[i] in g[..e];
  }

  lemma ClosesOnce(g: string, d: nat, e: nat)
    requires ClosesAt(g, d) && ClosesAt(g, e)
    ensures d == e
  {
    NoneBefore(g, d);
    NoneBefore(g, e);
  }

  lemma ChoiceStep(g: string, v: string, across: bool)
    requires g != [] && g[0] == '{' && CloseIndex(g).Some?
    ensures GlobMatch(g, v, across) <==> exists k :: Steps(g, v, across, k)
  {
    hide GlobMatch;
    hide IsPart;
    hide Parts;
    var e := CloseIndex(g).value;
    assert g[e] == '}' && '}' in g && e > 0;
    GlobChoice(g, v, across);
    assert FirstToken(g) == (Choice(Parts(g[1..e])), e + 1);
    if exists d, k :: ChoiceAt(g, v, across, d, k) {
      var d, k :| ChoiceAt(g, v, across, d, k);
      ClosesOnce(g, d, e);
      PartsAre(g[1..e], v[..k]);
      assert Steps(g, v, across, k);
    }
    if exists k :: Steps(g, v, across, k) {
      var k :| Steps(g, v, across, k);
      PartsAre(g[1..e], v[..k]);
      assert ChoiceAt(g, v, across, e, k);
    }
  }

  /** A question mark or a literal covers one character. */
  lemma CharStep(g: string, v: string, across: bool)
    requires g != [] && g[0] != '*' && !(g[0] == '{' && CloseIndex(g).Some?)
    ensures GlobMatch(g, v, across) <==> exists k :: Steps(g, v, across, k)
  {
    assert !(DEEP <= g) && !(WHOLE <= g);
    var t := FirstToken(g);
    assert t.1 == 1 && t.0 == if g[0] == '?' then One else Lit(g[0]);
    assert g[0] == '{' ==> '}' !in g;
    if GlobMatch(g, v, across) {
      assert v[..1] == [v[0]];
      assert Steps(g, v, across, 1);
    }
    if exists k :: Steps(g, v, across, k) {
      var k :| Steps(g, v, across, k);
      assert |v[..k]| == 1;
      assert v[..k] == [v[0]] && v[k..] == v[1..];
    }
  }

  // ---------------------------------------------------------------- the theorem

  lemma RegexStep(ts: seq<Token>, v: string)
    requires ts != []
    ensures InSeq(Asts(ts), v) <==>
            exists k :: 0 <= k <= |v| && Covers(ts[0], v[..k], false) && InSeq(Asts(ts[1..]), v[k..])
  {
    hide In;
    hide Covers;
    hide Ast;
    var rs := Asts(ts);
    assert rs[0] == Ast(ts[0]) && rs[1..] == Asts(ts[1..]);
    if InSeq(rs, v) {
      var k :| 0 <= k <= |v| && In(rs[0], v[..k]) && InSeq(rs[1..], v[k..]);
      TokenAccepts(ts[0], v[..k]);
    }
    if exists k :: 0 <= k <= |v| && Covers(ts[0], v[..k], false) && InSeq(Asts(ts[1..]), v[k..]) {
      var k :| 0 <= k <= |v| && Covers(ts[0], v[..k], false) && InSeq(Asts(ts[1..]), v[k..]);
      TokenAccepts(ts[0], v[..k]);
      assert In(rs[0], v[..k]) && InSeq(rs[1..], v[k..]);
    }
  }

  lemma {:induction false} ExpressionMatches(g: string, v: string)
    ensures InSeq(Asts(Tokens(g)), v) <==> GlobMatch(g, v, false)
    decreases |g|
  {
    if g != [] {
      hide GlobMatch;
      hide InSeq;
      hide Covers;
      hide FirstToken;
      hide Asts;
      var t := FirstToken(g);
      var rest := g[t.1..];
      var ts := Tokens(g);
      assert ts[0] == t.0 && ts[1..] == Tokens(rest);
      RegexStep(ts, v);
      DirectStep(g, v, false);
      forall k | 0 <= k <= |v| ensures InSeq(Asts(ts[1..]), v[k..]) <==> GlobMatch(rest, v[k..], false) {
        ExpressionMatches(rest, v[k..]);
      }
      if exists k :: 0 <= k <= |v| && Covers(ts[0], v[..k], false) && InSeq(Asts(ts[1..]), v[k..]) {
        var k :| 0 <= k <= |v| && Covers(ts[0], v[..k], false) && InSeq(Asts(ts[1..]), v[k..]);
        assert Steps(g, v, false, k);
      }
      if exists k :: Steps(g, v, false, k) {
        var k :| Steps(g, v, false, k);
        assert 0 <= k <= |v| && Covers(ts[0], v[..k], false) && InSeq(Asts(ts[1..]), v[k..]);
      }
    }
  }

  /** What the program's test of a pattern gives; nothing when compiling it throws. */
  function Test(pattern: string, value: string): Option<bool> {
    match RegExp(CompiledText(pattern))
    case None => None
    case Some(rs) => Some(InSeq(rs, value))
  }

  /** For every glob without star or question mark inside braces and every value, the compiled
      expression accepts exactly what the direct matcher does, where `**` stays on one line. */
  lemma CompilationPreservesMeaning(g: string, v: string)
    requires PlainBraces(g)
    ensures Test(g, v) == Some(GlobMatch(g, v, false))
  {
    hide GlobMatch;
    hide InSeq;
    hide RegExp;
    hide CompiledText;
    CompiledParses(g);
    PlainTokensRe(Tokens(g));
    ExpressionMatches(g, v);
  }

  lemma SameCoverOneLine(t: Token, w: string)
    requires NoTerminator(w)
    ensures Covers(t, w, true) == Covers(t, w, false)
  {
  }

  /** On values without line terminators, `**` matches anything. */
  lemma {:induction false} OneLineValues(g: string, v: string)
    requires NoTerminator(v)
    ensures GlobMatch(g, v, true) == GlobMatch(g, v, false)
    decreases |g|
  {
    if g != [] {
      hide GlobMatch;
      hide Covers;
      hide FirstToken;
      DirectStep(g, v, true);
      DirectStep(g, v, false);
      forall k ensures Steps(g, v, true, k) == Steps(g, v, false, k) {
        if 0 <= k <= |v| {
          SameCoverOneLine(FirstToken(g).0, v[..k]);
          OneLineValues(g[FirstToken(g).1..], v[k..]);
        }
      }
    }
  }

  /** The promise as documented: on values without line terminators the compiled expression accepts
      exactly what the direct matcher accepts. */
  lemma CompilationPreservesDocumentedMeaning(g: string, v: string)
    requires PlainBraces(g) && NoTerminator(v)
    ensures Test(g, v) == Some(GlobMatch(g, v, true))
  {
    hide GlobMatch;
    hide Test;
    CompilationPreservesMeaning(g, v);
    OneLineValues(g, v);
  }

  /** A value gets the documented answer from every such glob exactly when it has no line terminator. */
  lemma DocumentedIffOneLine(v: string)
    ensures (forall g :: PlainBraces(g) ==> Test(g, v) == Some(GlobMatch(g, v, true))) <==> NoTerminator(v)
  {
    hide GlobMatch;
    hide Test;
    hide PlainBraces;
    if NoTerminator(v) {
      forall g | PlainBraces(g) ensures Test(g, v) == Some(GlobMatch(g, v, true)) {
        CompilationPreservesDocumentedMeaning(g, v);
      }
    }
    WholeIsPlain();
    WholeMatches(v, true);
    WholeMatches(v, false);
    CompilationPreservesMeaning(WHOLE, v);
  }

  lemma WholeIsPlain()
    ensures FirstToken(WHOLE) == (Whole, 2) && Tokens(WHOLE) == [Whole] && PlainBraces(WHOLE)
  {
    assert WHOLE[2..] == [];
  }

  lemma WholeMatches(v: string, across: bool)
    ensures GlobMatch(WHOLE, v, across) <==> Spans(v, across)
  {
    hide Spans;
    WholeIsPlain();
    DirectStep(WHOLE, v, across);
    assert WHOLE[2..] == [] && v[..|v|] == v && v[|v|..] == [];
    if Spans(v, across) { assert Steps(WHOLE, v, across, |v|); }
    if exists k :: Steps(WHOLE, v, across, k) {
      var k :| Steps(WHOLE, v, across, k);
      assert k == |v|;
    }
  }

  /** A value with a line feed on which the two differ. */
  lemma LineFeedDiffers()
    ensures GlobMatch(WHOLE, ['\n'], true) && Test(WHOLE, ['\n']) == Some(false)
  {
    hide GlobMatch;
    hide Test;
    WholeIsPlain();
    WholeMatches(['\n'], true);
    WholeMatches(['\n'], false);
    CompilationPreservesMeaning(WHOLE, ['\n']);
    assert LineTerminator(['\n'][0]);
  }

  // ---------------------------------------------------------------- which globs keep the documented meaning

  predicate DoubleStar(t: Token) { t.Deep? || t.Whole? }

  lemma SameCover(t: Token, w: string)
    requires !DoubleStar(t)
    ensures Covers(t, w, true) == Covers(t, w, false)
  {
  }

  lemma {:induction false} NoDoubleStarAgrees(g: string, v: string)
    requires forall t <- Tokens(g) :: !DoubleStar(t)
    ensures GlobMatch(g, v, true) == GlobMatch(g, v, false)
    decreases |g|
  {
    if g != [] {
      hide GlobMatch;
      hide Covers;
      hide FirstToken;
      var t, rest := FirstToken(g).0, g[FirstToken(g).1..];
      assert t in Tokens(g) && forall x <- Tokens(rest) :: x in Tokens(g);
      DirectStep(g, v, true);
      DirectStep(g, v, false);
      forall k ensures Steps(g, v, true, k) == Steps(g, v, false, k) {
        if 0 <= k <= |v| {
          SameCover(t, v[..k]);
          NoDoubleStarAgrees(rest, v[k..]);
        }
      }
    }
  }

  /** Many line feeds, each before a slash. */
  function Block(n: nat): (r: string)
    ensures |r| == 2 * n && (n > 0 ==> r[|r| - 1] == '/')
  {
    if n == 0 then [] else Block(n - 1) + ['\n', '/']
  }

  /** The line feeds directly before a slash. */
  function Pairs(v: string): nat {
    if |v| < 2 then 0 else Pairs(v[1..]) + (if v[0] == '\n' && v[1] == '/' then 1 else 0)
  }

  lemma {:induction false} PairsOfConcat(a: string, b: string)
    ensures Pairs(a) + Pairs(b) <= Pairs(a + b) <= Pairs(a) + Pairs(b) + 1
  {
    if a == [] {
      assert a + b == b;
    } else if |a| == 1 {
      assert (a + b)[1..] == b;
    } else {
      PairsOfConcat(a[1..], b);
      assert (a + b)[1..] == a[1..] + b;
    }
  }

  lemma {:induction false} PairsOfBlock(n: nat)
    ensures Pairs(Block(n)) >= n
  {
    if n > 0 {
      PairsOfBlock(n - 1);
      PairsOfConcat(Block(n - 1), ['\n', '/']);
      assert ['\n', '/'][1..] == ['/'] && Pairs(['\n', '/']) == 1;
    }
  }

  lemma {:induction false} PairsWithin(v: string)
    ensures Pairs(v) <= |v|
    ensures NoTerminator(v) || NoSlash(v) ==> Pairs(v) == 0
  {
    if |v| >= 2 {
      PairsWithin(v[1..]);
      assert forall i :: 0 <= i < |v[1..]| ==> v[1..][i] == v[i + 1];
      assert LineTerminator('\n');
    }
  }

  function Lengths(parts: seq<string>): nat { if parts == [] then 0 else |parts[0]| + Lengths(parts[1..]) }

  lemma {:induction false} PartWithin(parts: seq<string>, p: string)
    requires p in parts
    ensures |p| <= Lengths(parts)
  {
    if p != parts[0] { PartWithin(parts[1..], p); }
  }

  /** How many such pairs a token can cover when `**` stays on one line. */
  function Cost(t: Token): nat { if t.Choice? then Lengths(t.parts) else 0 }

  lemma CoverCost(t: Token, w: string)
    requires Covers(t, w, false)
    ensures Pairs(w) <= Cost(t)
  {
    PairsWithin(w);
    if t.Choice? { PartWithin(t.parts, w); }
  }

  function TotalCost(ts: seq<Token>): nat { if ts == [] then 0 else Cost(ts[0]) + 1 + TotalCost(ts[1..]) }

  lemma CostSteps(g: string)
    requires g != []
    ensures TotalCost(Tokens(g)) == Cost(FirstToken(g).0) + 1 + TotalCost(Tokens(g[FirstToken(g).1..]))
  {
    hide Cost;
    hide FirstToken;
    assert Tokens(g)[0] == FirstToken(g).0 && Tokens(g)[1..] == Tokens(g[FirstToken(g).1..]);
  }

  /** A glob matches no value with too many pairs while `**` stays on one line. */
  lemma {:induction false} PairsBounded(g: string, v: string)
    requires GlobMatch(g, v, false)
    ensures Pairs(v) <= TotalCost(Tokens(g))
    decreases |g|
  {
    if g != [] {
      hide GlobMatch;
      hide Covers;
      hide FirstToken;
      hide Cost;
      hide Pairs;
      DirectStep(g, v, false);
      var k :| Steps(g, v, false, k);
      var t, rest := FirstToken(g).0, g[FirstToken(g).1..];
      CostSteps(g);
      CoverCost(t, v[..k]);
      PairsBounded(rest, v[k..]);
      PairsOfConcat(v[..k], v[k..]);
      assert v[..k] + v[k..] == v;
    }
  }

  /** A text the token covers: the block for `**`, the least for the others. */
  function Piece(t: Token, n: nat): string
    requires ProperToken(t)
  {
    match t
    case Deep => Block(n)
    case Whole => Block(n)
    case Part => []
    case One => ['a']
    case Choice(parts) => parts[0]
    case Lit(c) => [c]
  }

  lemma PieceCovered(t: Token, n: nat)
    requires ProperToken(t) && n > 0
    ensures Covers(t, Piece(t, n), true)
  {
  }

  function Sample(ts: seq<Token>, n: nat): string
    requires forall t <- ts :: ProperToken(t)
  {
    if ts == [] then [] else Piece(ts[0], n) + Sample(ts[1..], n)
  }

  lemma {:induction false} SampleMatches(g: string, n: nat)
    requires n > 0 && forall t <- Tokens(g) :: ProperToken(t)
    ensures GlobMatch(g, Sample(Tokens(g), n), true)
    decreases |g|
  {
    if g != [] {
      hide GlobMatch;
      hide Covers;
      hide FirstToken;
      hide Piece;
      var t, rest := FirstToken(g).0, g[FirstToken(g).1..];
      var ts := Tokens(g);
      assert ts[0] == t && ts[1..] == Tokens(rest);
      var piece, after := Piece(t, n), Sample(Tokens(rest), n);
      PieceCovered(t, n);
      SampleMatches(rest, n);
      DirectStep(g, piece + after, true);
      assert (piece + after)[..|piece|] == piece && (piece + after)[|piece|..] == after;
      assert Steps(g, piece + after, true, |piece|);
    }
  }

  lemma {:induction false} SamplePairs(ts: seq<Token>, n: nat)
    requires (forall t <- ts :: ProperToken(t)) && exists t :: t in ts && DoubleStar(t)
    ensures Pairs(Sample(ts, n)) >= n
  {
    PairsOfConcat(Piece(ts[0], n), Sample(ts[1..], n));
    if DoubleStar(ts[0]) {
      PairsOfBlock(n);
    } else {
      SamplePairs(ts[1..], n);
    }
  }

  /** A glob with plain braces keeps the documented meaning on all values exactly when it has no `**`. */
  lemma DocumentedIffNoDoubleStar(g: string)
    requires PlainBraces(g)
    ensures (forall v :: Test(g, v) == Some(GlobMatch(g, v, true))) <==> forall t <- Tokens(g) :: !DoubleStar(t)
  {
    hide GlobMatch;
    hide Test;
    if forall t <- Tokens(g) :: !DoubleStar(t) {
      forall v ensures Test(g, v) == Some(GlobMatch(g, v, true)) {
        CompilationPreservesMeaning(g, v);
        NoDoubleStarAgrees(g, v);
      }
    } else {
      var n := TotalCost(Tokens(g)) + 1;
      TokensProper(g);
      var v := Sample(Tokens(g), n);
      SampleMatches(g, n);
      SamplePairs(Tokens(g), n);
      CompilationPreservesMeaning(g, v);
      if GlobMatch(g, v, false) { PairsBounded(g, v); }
    }
  }

  // ---------------------------------------------------------------- brace lists

  function BraceList(inner: string): string { ['{'] + inner + ['}'] }

  lemma BraceTokens(inner: string)
    requires '}' !in inner
    ensures Tokens(BraceList(inner)) == [Choice(Parts(inner))]
  {
    hide Parts;
    var g := BraceList(inner);
    var e := |inner| + 1;
    assert g[..e] == ['{'] + inner && ClosesAt(g, e);
    assert g[e] in g;
    ClosesOnce(g, CloseIndex(g).value, e);
    assert g[1..e] == inner && g[e + 1..] == [];
    assert FirstToken(g) == (Choice(Parts(inner)), e + 1);
  }

  /** Every character but the commas is in some alternative. */
  lemma {:induction false} CharInPart(s: string, c: char) returns (p: string)
    requires c in s && c != ','
    ensures p in Parts(s) && c in p
  {
    var rest := Parts(s[1..]);
    assert s == [s[0]] + s[1..];
    if s[0] == c {
      p := Parts(s)[0];
    } else {
      p := CharInPart(s[1..], c);
      if s[0] != ',' && p == rest[0] { p := [s[0]] + p; }
    }
  }

  /** What a quantified or plain character accepts never contains a star or a question mark. */
  lemma TermAccepts(c: char, q: char, w: string)
    requires !Quantifier(c)
    ensures In(Chr(c), w) ==> Plain(w)
    ensures In(Quantified(c, q), w) ==> Plain(w)
  {
    StarOfOne(Chr(c), x => x == c, w);
  }

  lemma {:induction false} TermsAccept(s: string, v: string)
    requires Terms(s).Some? && InSeq(Terms(s).value, v)
    ensures Plain(v)
    decreases |s|
  {
    if s != [] {
      hide In;
      hide Quantified;
      var rs := Terms(s).value;
      var k :| 0 <= k <= |v| && In(rs[0], v[..k]) && InSeq(rs[1..], v[k..]);
      assert v == v[..k] + v[k..];
      if |s| > 1 && Quantifier(s[1]) {
        TermAccepts(s[0], s[1], v[..k]);
        assert rs[1..] == Terms(AfterMark(s[2..])).value;
        TermsAccept(AfterMark(s[2..]), v[k..]);
      } else {
        TermAccepts(s[0], '*', v[..k]);
        assert rs[1..] == Terms(s[1..]).value;
        TermsAccept(s[1..], v[k..]);
      }
    }
  }

  lemma {:induction false} AltTermsAt(parts: seq<string>, i: nat)
    requires AltTerms(parts).Some?
    ensures |AltTerms(parts).value| == |parts|
    ensures i < |parts| ==> Terms(parts[i]).Some? && AltTerms(parts).value[i] == Alt(Terms(parts[i]).value)
  {
    hide Terms;
    if parts != [] { AltTermsAt(parts[1..], if i == 0 then 0 else i - 1); }
  }

  lemma ChoiceAcceptsPlain(parts: seq<string>, v: string)
    requires AltTerms(parts).Some? && In(Group(AltTerms(parts).value), v)
    ensures Plain(v)
  {
    hide AltTerms;
    hide Terms;
    var alts := AltTerms(parts).value;
    AltTermsAt(parts, 0);
    var i :| 0 <= i < |alts| && InSeq(alts[i].terms, v);
    AltTermsAt(parts, i);
    TermsAccept(parts[i], v);
  }

  lemma BraceTest(inner: string, v: string)
    requires '}' !in inner
    ensures Test(BraceList(inner), v) ==
            var alts := AltTerms(Parts(inner)); if alts.None? then None else Some(In(Group(alts.value), v))
  {
    hide In;
    hide InSeq;
    hide AltTerms;
    hide Parts;
    hide CompiledText;
    hide RegExp;
    hide BraceList;
    BraceTokens(inner);
    CompiledParses(BraceList(inner));
    var ts := [Choice(Parts(inner))];
    assert ts[1..] == [];
    var alts := AltTerms(Parts(inner));
    if alts.Some? {
      assert [Group(alts.value)] + [] == [Group(alts.value)];
      InSeqOne(Group(alts.value), v);
    }
  }

  lemma PlainPart(inner: string, p: string)
    requires Plain(inner) && p in Parts(inner)
    ensures Plain(p)
  {
    hide Parts;
    PartsAre(inner, p);
    var a, b :| 0 <= a <= b <= |inner| && p == inner[a..b];
    assert forall i :: 0 <= i < |p| ==> p[i] == inner[a + i];
  }

  /** A brace list accepts exactly its comma-separated alternatives, whatever the value, exactly when it
      holds no star and no question mark. */
  lemma BracesLiteralIff(inner: string)
    requires '}' !in inner
    ensures (forall v :: Test(BraceList(inner), v) == Some(IsPart(inner, v))) <==> Plain(inner)
  {
    hide In;
    hide Test;
    hide AltTerms;
    hide Parts;
    hide IsPart;
    var parts := Parts(inner);
    if Plain(inner) {
      forall i | 0 <= i < |parts| ensures Plain(parts[i]) { PlainPart(inner, parts[i]); }
      PlainAltTerms(parts);
      forall v ensures Test(BraceList(inner), v) == Some(IsPart(inner, v)) {
        BraceTest(inner, v);
        ChoiceAccepts(parts, v);
        PartsAre(inner, v);
      }
    } else {
      var i :| 0 <= i < |inner| && Quantifier(inner[i]);
      var p := CharInPart(inner, inner[i]);
      QuantifiedPartRefused(inner, p);
    }
  }

  /** An alternative that holds a star or a question mark is itself never accepted. */
  lemma QuantifiedPartRefused(inner: string, p: string)
    requires '}' !in inner && p in Parts(inner) && !Plain(p)
    ensures IsPart(inner, p) && Test(BraceList(inner), p) != Some(true)
  {
    hide In;
    hide Test;
    hide AltTerms;
    hide Parts;
    hide IsPart;
    hide Plain;
    PartsAre(inner, p);
    BraceTest(inner, p);
    var alts := AltTerms(Parts(inner));
    if alts.Some? && In(Group(alts.value), p) { ChoiceAcceptsPlain(Parts(inner), p); }
  }

  /** A brace list throws when compiled exactly when one of its alternatives has a star or a question mark
      with nothing to repeat, as in `{*.ts,*.js}`. */
  lemma BraceThrowsIff(inner: string, v: string)
    requires '}' !in inner
    ensures Test(BraceList(inner), v).None? <==> exists p :: IsPart(inner, p) && !Legal(p)
  {
    hide Test;
    hide AltTerms;
    hide In;
    hide IsPart;
    hide Legal;
    hide Parts;
    var parts := Parts(inner);
    BraceTest(inner, v);
    AltTermsIff(parts);
    forall i | 0 <= i < |parts| ensures IsPart(inner, parts[i]) { PartsAre(inner, parts[i]); }
    if p :| IsPart(inner, p) && !Legal(p) {
      PartsAre(inner, p);
      var i :| 0 <= i < |parts| && parts[i] == p;
    }
  }

  const STARRED: string := ['a', '*']

  lemma StarredParts()
    ensures Parts(STARRED) == [STARRED] && AltTerms([STARRED]) == Some([Alt([Star(Chr('a'))])])
  {
    var none: seq<string> := [[]];
    var star: seq<string> := [['*']];
    assert STARRED[1..] == ['*'] && ['*'][1..] == [] && none[1..] == [] && star[1..] == [];
    assert Parts([]) == none;
    assert ['*'] + none[0] == ['*'] && ['a'] + star[0] == STARRED;
    assert Parts(['*']) == [['*'] + none[0]] + none[1..] == star;
    assert Parts(STARRED) == [['a'] + star[0]] + star[1..];
    assert STARRED[2..] == [];
    OneAlternative([STARRED]);
    assert Terms(STARRED) == Some([Star(Chr('a'))] + []);
    assert [Star(Chr('a'))] + [] == [Star(Chr('a'))];
  }

  /** The pattern `{a*}` accepts "aa", and not its own alternative "a*". */
  lemma StarInBracesDiffers()
    ensures Test(BraceList(STARRED), ['a', 'a']) == Some(true) && Test(BraceList(STARRED), STARRED) == Some(false)
    ensures IsPart(STARRED, STARRED)
  {
    hide Test;
    hide IsPart;
    hide Parts;
    hide AltTerms;
    hide In;
    StarredParts();
    BraceTest(STARRED, ['a', 'a']);
    BraceTest(STARRED, STARRED);
    GroupOne([Star(Chr('a'))], ['a', 'a']);
    InSeqOne(Star(Chr('a')), ['a', 'a']);
    OneA();
    StarOfOne(Chr('a'), IsA(), ['a', 'a']);
    assert STARRED in [STARRED] && Quantifier(STARRED[1]);
    QuantifiedPartRefused(STARRED, STARRED);
  }

  function IsA(): char -> bool { c => c == 'a' }

  lemma OneA()
    ensures forall w :: In(Chr('a'), w) <==> |w| == 1 && IsA()(w[0])
  {
  }

  // ---------------------------------------------------------------- the cached matcher

  lemma MeaningIfPlain(g: string, v: string)
    ensures PlainBraces(g) ==> Test(g, v) == Some(GlobMatch(g, v, false))
  {
    hide GlobMatch;
    hide Test;
    if PlainBraces(g) { CompilationPreservesMeaning(g, v); }
  }

  /** Compiled patterns are kept; the answer is what compiling afresh would give. */
  class GlobMatcher {
    var cache: map<string, seq<Re>>

    ghost predicate Valid()
      reads this
    {
      forall p <- cache :: RegExp(CompiledText(p)) == Some(cache[p])
    }

    constructor ()
      ensures Valid() && cache == map[]
    {
      cache := map[];
    }

    method Matches(pattern: string, value: string) returns (r: Option<bool>)
      requires Valid()
      modifies this
      ensures Valid() && r == Test(pattern, value)
      ensures PlainBraces(pattern) ==> r == Some(GlobMatch(pattern, value, false))
      ensures old(cache.Keys) <= cache.Keys && (r.Some? ==> pattern in cache)
    {
      hide RegExp;
      hide InSeq;
      hide CompiledText;
      hide GlobMatch;
      MeaningIfPlain(pattern, value);
      if pattern in cache { return Some(InSeq(cache[pattern], value)); }
      var text := GlobToRegExp(pattern);
      var compiled := RegExp(text);
      if compiled.None? { return None; }
      cache := cache[pattern := compiled.value];
      return Some(InSeq(compiled.value, value));
    }
  }
}
