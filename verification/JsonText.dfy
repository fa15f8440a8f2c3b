/** JSON values, their compact text, and the proof that the text determines the value.

    A number is an integer, or stands for itself by its printed form when that has a point or an
    exponent. `Undefined` is a value a program can hold but JSON cannot: it prints as null inside an
    array, and `Clean` gives what survives printing and parsing. */
module JsonText {
  import opened Prelude
  import Decimal

  datatype Entry<+V> = Entry(key: string, value: V)

  predicate NumeralChar(c: char) { '0' <= c <= '9' || c == '-' || c == '+' || c == '.' || c == 'e' }

  predicate IsNumeral(s: string) {
    && s != [] && ('0' <= s[0] <= '9' || s[0] == '-')
    && (forall i :: 0 <= i < |s| ==> NumeralChar(s[i]))
    && (exists i :: 0 <= i < |s| && (s[i] == '.' || s[i] == 'e'))
  }

  /** The printed form of a finite number that is not an integer numeral, such as 0.5 or 1e+21. */
  type Numeral = s: string | IsNumeral(s) witness (assert ['0', '.', '5'][1] == '.'; ['0', '.', '5'])

  datatype Js =
    | Undefined
    | Null
    | Bool(b: bool)
    | Num(n: int)
    | Frac(numeral: Numeral)
    | Str(s: string)
    | Arr(items: seq<Js>)
    | Obj(members: seq<Entry<Js>>)

  // ---------------------------------------------------------------- printing

  function HexDigit(d: nat): char
    requires d < 16
  {
    if d < 10 then ('0' as int + d) as char else ('a' as int + d - 10) as char
  }

  /** The letter after the backslash of a short escape, if the character has one. */
  function ShortEscape(c: char): Option<char> {
    if c == '\"' then Some('\"')
    else if c == '\\' then Some('\\')
    else if c as int == 8 then Some('b')
    else if c as int == 9 then Some('t')
    else if c as int == 10 then Some('n')
    else if c as int == 12 then Some('f')
    else if c as int == 13 then Some('r')
    else None
  }

  function Escape(c: char): (s: string)
    ensures |s| >= 1 && s[0] != '\"'
    ensures s[0] != '\n' && s[0] != '\r'
  {
    if ShortEscape(c).Some? then ['\\', ShortEscape(c).value]
    else if c as int < 32 then ['\\', 'u', '0', '0', HexDigit(c as int / 16), HexDigit(c as int % 16)]
    else [c]
  }

  function EscapeAll(s: string): string {
    if s == [] then [] else Escape(s[0]) + EscapeAll(s[1..])
  }

  function Quote(s: string): string { ['\"'] + EscapeAll(s) + ['\"'] }

  function DigitText(n: nat): (s: string)
    ensures |s| == |Decimal.Digits(n)|
    ensures forall i :: 0 <= i < |s| ==> s[i] as int == Decimal.Digits(n)[i]
  {
    var digits := Decimal.Digits(n);
    seq(|digits|, i requires 0 <= i < |digits| => assert Decimal.IsDigit(digits[i]); digits[i] as char)
  }

  function NumText(n: int): string { if n < 0 then ['-'] + DigitText(-n) else DigitText(n) }

  const NULL_TEXT: string := ['n', 'u', 'l', 'l']
  const TRUE_TEXT: string := ['t', 'r', 'u', 'e']
  const FALSE_TEXT: string := ['f', 'a', 'l', 's', 'e']

  /** Compact JSON text: the elements joined by commas between brackets. */
  function Text(v: Js): string
    decreases v, 1
  {
    match v
    case Undefined => NULL_TEXT
    case Null => NULL_TEXT
    case Bool(b) => if b then TRUE_TEXT else FALSE_TEXT
    case Num(n) => NumText(n)
    case Frac(f) => f
    case Str(s) => Quote(s)
    case Arr(items) => ['['] + (if items == [] then [']'] else Text(items[0]) + ItemsTail(items[1..]))
    case Obj(members) => ['{'] + (if members == [] then ['}'] else MemberText(members[0]) + MembersTail(members[1..]))
  }

  function ItemsTail(items: seq<Js>): string
    decreases items, 0
  {
    if items == [] then [']'] else [','] + Text(items[0]) + ItemsTail(items[1..])
  }

  function MemberText(m: Entry<Js>): string
    decreases m, 0
  {
    Quote(m.key) + [':'] + Text(m.value)
  }

  function MembersTail(members: seq<Entry<Js>>): string
    decreases members, 0
  {
    if members == [] then ['}'] else [','] + MemberText(members[0]) + MembersTail(members[1..])
  }

  // ---------------------------------------------------------------- what survives a round trip

  /** No `Undefined` anywhere. */
  ghost predicate Plain(v: Js)
    decreases v
  {
    match v
    case Undefined => false
    case Arr(items) => forall x <- items :: Plain(x)
    case Obj(members) => forall m <- members :: Plain(m.value)
    case _ => true
  }

  /** What printing and parsing leaves: undefined array elements become null, undefined members go. */
  function Clean(v: Js): Js
    decreases v, 1
  {
    match v
    case Arr(items) => Arr(CleanItems(items))
    case Obj(members) => Obj(CleanMembers(members))
    case _ => v
  }

  function CleanItem(v: Js): Js
    decreases v, 2
  {
    if v == Undefined then Null else Clean(v)
  }

  function CleanItems(items: seq<Js>): (r: seq<Js>)
    decreases items, 0
  {
    if items == [] then [] else [CleanItem(items[0])] + CleanItems(items[1..])
  }

  function CleanMembers(members: seq<Entry<Js>>): seq<Entry<Js>>
    decreases members, 0
  {
    if members == [] then []
    else if members[0].value == Undefined then CleanMembers(members[1..])
    else [Entry(members[0].key, Clean(members[0].value))] + CleanMembers(members[1..])
  }

  // ---------------------------------------------------------------- unique reading

  /** What may stand after a value. */
  predicate Ends(s: string) { s == [] || s[0] == ',' || s[0] == ']' || s[0] == '}' }

  lemma DropFirst(c: char, u: string, x: string)
    ensures ([c] + u + x)[0] == c && ([c] + u + x)[1..] == u + x
  {
  }

  lemma SamePrefix(c: char, u: string, v: string, x: string, y: string)
    requires [c] + u + x == [c] + v + y
    ensures u + x == v + y
  {
    DropFirst(c, u, x);
    DropFirst(c, v, y);
  }

  lemma Regroup(u: string, v: string, x: string)
    ensures u + v + x == u + (v + x)
  {
  }

  lemma HexDigitsDiffer(a: nat, b: nat)
    requires a < 16 && b < 16 && HexDigit(a) == HexDigit(b)
    ensures a == b
  {
  }

  lemma EscapeReadsBack(c: char, d: char, x: string, y: string)
    requires Escape(c) + x == Escape(d) + y
    ensures c == d && x == y
  {
    var s, t := Escape(c) + x, Escape(d) + y;
    assert s[0] == Escape(c)[0] && t[0] == Escape(d)[0];
    if s[0] == '\\' {
      assert s[1] == Escape(c)[1] && t[1] == Escape(d)[1];
      if s[1] == 'u' {
        assert s[4] == Escape(c)[4] && t[4] == Escape(d)[4] && s[5] == Escape(c)[5] && t[5] == Escape(d)[5];
        HexDigitsDiffer(c as int / 16, d as int / 16);
        HexDigitsDiffer(c as int % 16, d as int % 16);
      }
    }
    assert Escape(c) == Escape(d);
    assert x == s[|Escape(c)|..] && y == t[|Escape(d)|..];
  }

  lemma FirstOfEscapes(s: string, x: string)
    ensures (EscapeAll(s) + ['\"'] + x)[0] == '\"' <==> s == []
  {
  }

  lemma {:induction false} EscapesReadBack(s: string, t: string, x: string, y: string)
    requires EscapeAll(s) + ['\"'] + x == EscapeAll(t) + ['\"'] + y
    ensures s == t && x == y
  {
    hide Escape;
    FirstOfEscapes(s, x);
    FirstOfEscapes(t, y);
    if s == [] {
      DropFirst('\"', [], x);
      DropFirst('\"', [], y);
      assert [] + x == x && [] + y == y && [] + ['\"'] == ['\"'] + [];
    } else {
      var l', r' := EscapeAll(s[1..]) + ['\"'] + x, EscapeAll(t[1..]) + ['\"'] + y;
      assert EscapeAll(s) + ['\"'] + x == Escape(s[0]) + l' && EscapeAll(t) + ['\"'] + y == Escape(t[0]) + r';
      EscapeReadsBack(s[0], t[0], l', r');
      EscapesReadBack(s[1..], t[1..], x, y);
      assert s == [s[0]] + s[1..] && t == [t[0]] + t[1..];
    }
  }

  lemma QuoteReadsBack(s: string, t: string, x: string, y: string)
    requires Quote(s) + x == Quote(t) + y
    ensures s == t && x == y
  {
    assert (Quote(s) + x)[1..] == EscapeAll(s) + ['\"'] + x;
    assert (Quote(t) + y)[1..] == EscapeAll(t) + ['\"'] + y;
    EscapesReadBack(s, t, x, y);
  }

  lemma DigitTextIsDigits(n: nat)
    ensures forall i :: 0 <= i < |DigitText(n)| ==> Decimal.IsDigit(DigitText(n)[i] as int)
  {
    assert Decimal.AllDigits(Decimal.Digits(n));
  }

  lemma DigitsReadBack(m: nat, n: nat, x: string, y: string)
    requires Ends(x) && Ends(y) && DigitText(m) + x == DigitText(n) + y
    ensures m == n && x == y
  {
    var a, b := DigitText(m), DigitText(n);
    var l := a + x;
    DigitTextIsDigits(m);
    DigitTextIsDigits(n);
    assert |a| < |l| ==> l[|a|] == x[0] && !Decimal.IsDigit(l[|a|] as int);
    assert |b| < |l| ==> l[|b|] == (b + y)[|b|] == y[0] && !Decimal.IsDigit(l[|b|] as int);
    assert forall i :: 0 <= i < |a| ==> Decimal.IsDigit(l[i] as int);
    assert forall i :: 0 <= i < |b| ==> Decimal.IsDigit((b + y)[i] as int);
    assert |a| == |b|;
    assert a == l[..|a|] && b == (b + y)[..|b|];
    assert x == l[|a|..] && y == (b + y)[|b|..];
    assert Decimal.Digits(m) == Decimal.Digits(n);
  }

  lemma SameSign(m: int, n: int, x: string, y: string)
    requires NumText(m) + x == NumText(n) + y
    ensures m < 0 <==> n < 0
  {
    hide NumText;
    FirstOfNum(m);
    FirstOfNum(n);
    assert (NumText(m) + x)[0] == NumText(m)[0] && (NumText(n) + y)[0] == NumText(n)[0];
  }

  lemma NumReadsBack(m: int, n: int, x: string, y: string)
    requires Ends(x) && Ends(y) && NumText(m) + x == NumText(n) + y
    ensures m == n && x == y
  {
    hide DigitText;
    hide Decimal.Digits;
    hide Decimal.AllDigits;
    SameSign(m, n, x, y);
    if m < 0 {
      SamePrefix('-', DigitText(-m), DigitText(-n), x, y);
      DigitsReadBack(-m, -n, x, y);
    } else {
      DigitsReadBack(m, n, x, y);
    }
  }

  lemma FirstOfNum(n: int)
    ensures NumText(n) != [] && (NumText(n)[0] == '-' <==> n < 0)
    ensures NumText(n)[0] == '-' || '0' <= NumText(n)[0] <= '9'
  {
    var d := Decimal.Digits(if n < 0 then -n else n);
    assert Decimal.IsDigit(d[0]);
  }

  /** The first character of a value's text tells its kind. */
  function Kind(v: Js): nat {
    match v
    case Undefined => 0
    case Null => 0
    case Bool(b) => if b then 1 else 2
    case Num(n) => 3
    case Frac(f) => 3
    case Str(s) => 4
    case Arr(items) => 5
    case Obj(members) => 6
  }

  function KindOfChar(c: char): nat {
    if c == 'n' then 0 else if c == 't' then 1 else if c == 'f' then 2
    else if c == '\"' then 4 else if c == '[' then 5 else if c == '{' then 6
    else if c == '-' || '0' <= c <= '9' then 3 else 7
  }

  lemma FirstCharTells(v: Js)
    ensures |Text(v)| >= 1 && KindOfChar(Text(v)[0]) == Kind(v)
  {
    if v.Num? { FirstOfNum(v.n); }
  }

  lemma NumberChars(v: Js)
    requires v.Num? || v.Frac?
    ensures forall i :: 0 <= i < |Text(v)| ==> NumeralChar(Text(v)[i])
    ensures v.Num? ==> forall i :: 0 <= i < |Text(v)| ==> Text(v)[i] != '.' && Text(v)[i] != 'e'
  {
    if v.Num? { DigitTextIsDigits(if v.n < 0 then -v.n else v.n); }
  }

  /** A numeral reaches as far as its characters do. */
  lemma NumeralEnds(u: string, w: string, x: string, y: string)
    requires Ends(x) && Ends(y) && u + x == w + y
    requires (forall i :: 0 <= i < |u| ==> NumeralChar(u[i])) && forall i :: 0 <= i < |w| ==> NumeralChar(w[i])
    ensures u == w && x == y
  {
    var l, r := u + x, w + y;
    assert |u| < |l| ==> l[|u|] == x[0] && !NumeralChar(l[|u|]);
    assert |w| < |r| ==> r[|w|] == y[0] && !NumeralChar(r[|w|]);
    assert forall i :: 0 <= i < |u| ==> NumeralChar(l[i]);
    assert forall i :: 0 <= i < |w| ==> NumeralChar(r[i]);
    assert |u| == |w|;
    assert u == l[..|u|] && w == r[..|w|] && x == l[|u|..] && y == r[|w|..];
  }

  lemma NumbersReadBack(a: Js, b: Js, x: string, y: string)
    requires Kind(a) == Kind(b) == 3 && Ends(x) && Ends(y) && Text(a) + x == Text(b) + y
    ensures a == b && x == y
  {
    hide NumText;
    NumberChars(a);
    NumberChars(b);
    NumeralEnds(Text(a), Text(b), x, y);
    if a.Num? && b.Num? { NumReadsBack(a.n, b.n, x, y); }
  }

  /** Unique reading: two texts that agree up to what may follow a value come from the same value. */
  lemma {:induction false} ReadsBack(a: Js, b: Js, x: string, y: string)
    requires Plain(a) && Plain(b) && Ends(x) && Ends(y) && Text(a) + x == Text(b) + y
    ensures a == b && x == y
    decreases a, 1
  {
    var l, r := Text(a) + x, Text(b) + y;
    FirstCharTells(a);
    FirstCharTells(b);
    assert l[0] == Text(a)[0] && r[0] == Text(b)[0];
    match a
    case Null => assert x == l[4..] && y == r[4..];
    case Bool(v) => assert x == l[|Text(a)|..] && y == r[|Text(b)|..];
    case Num(n) => NumbersReadBack(a, b, x, y);
    case Frac(f) => NumbersReadBack(a, b, x, y);
    case Str(s) => QuoteReadsBack(s, b.s, x, y);
    case Arr(items) => ArrayReadsBack(items, b.items, x, y);
    case Obj(members) => ObjectReadsBack(members, b.members, x, y);
  }

  lemma SecondOfArray(items: seq<Js>, x: string)
    ensures |Text(Arr(items)) + x| >= 2
    ensures (Text(Arr(items)) + x)[1] == ']' <==> items == []
  {
    if items != [] { FirstCharTells(items[0]); }
  }

  lemma {:induction false} ArrayReadsBack(a: seq<Js>, b: seq<Js>, x: string, y: string)
    requires (forall v <- a :: Plain(v)) && (forall v <- b :: Plain(v))
    requires Text(Arr(a)) + x == Text(Arr(b)) + y
    ensures a == b && x == y
    decreases a, 2
  {
    var l, r := Text(Arr(a)) + x, Text(Arr(b)) + y;
    SecondOfArray(a, x);
    SecondOfArray(b, y);
    if a == [] {
      assert x == l[2..] && y == r[2..];
    } else {
      DropFirst('[', Text(a[0]) + ItemsTail(a[1..]), x);
      DropFirst('[', Text(b[0]) + ItemsTail(b[1..]), y);
      ItemThenTail(a, b, x, y);
    }
  }

  /** The common step of both array lemmas: one element, then the tail. */
  lemma {:induction false} ItemThenTail(a: seq<Js>, b: seq<Js>, x: string, y: string)
    requires a != [] && b != [] && (forall v <- a :: Plain(v)) && (forall v <- b :: Plain(v))
    requires Text(a[0]) + ItemsTail(a[1..]) + x == Text(b[0]) + ItemsTail(b[1..]) + y
    ensures a == b && x == y
    decreases a, 1
  {
    hide Text;
    Regroup(Text(a[0]), ItemsTail(a[1..]), x);
    Regroup(Text(b[0]), ItemsTail(b[1..]), y);
    ReadsBack(a[0], b[0], ItemsTail(a[1..]) + x, ItemsTail(b[1..]) + y);
    ItemsReadBack(a[1..], b[1..], x, y);
    assert a == [a[0]] + a[1..] && b == [b[0]] + b[1..];
  }

  lemma {:induction false} ItemsReadBack(a: seq<Js>, b: seq<Js>, x: string, y: string)
    requires (forall v <- a :: Plain(v)) && (forall v <- b :: Plain(v)) && ItemsTail(a) + x == ItemsTail(b) + y
    ensures a == b && x == y
    decreases a, 2
  {
    hide Text;
    var l, r := ItemsTail(a) + x, ItemsTail(b) + y;
    assert l[0] == ItemsTail(a)[0] && r[0] == ItemsTail(b)[0];
    if a == [] {
      assert x == l[1..] && y == r[1..];
    } else {
      Regroup([','], Text(a[0]), ItemsTail(a[1..]));
      Regroup([','], Text(b[0]), ItemsTail(b[1..]));
      DropFirst(',', Text(a[0]) + ItemsTail(a[1..]), x);
      DropFirst(',', Text(b[0]) + ItemsTail(b[1..]), y);
      ItemThenTail(a, b, x, y);
    }
  }

  lemma {:induction false} MemberReadsBack(a: Entry<Js>, b: Entry<Js>, x: string, y: string)
    requires Plain(a.value) && Plain(b.value) && Ends(x) && Ends(y) && MemberText(a) + x == MemberText(b) + y
    ensures a == b && x == y
    decreases a, 0
  {
    hide Quote;
    hide Text;
    var p, q := [':'] + Text(a.value) + x, [':'] + Text(b.value) + y;
    assert MemberText(a) + x == Quote(a.key) + p && MemberText(b) + y == Quote(b.key) + q;
    QuoteReadsBack(a.key, b.key, p, q);
    assert p[1..] == Text(a.value) + x && q[1..] == Text(b.value) + y;
    ReadsBack(a.value, b.value, x, y);
  }

  lemma SecondOfObject(members: seq<Entry<Js>>, x: string)
    ensures |Text(Obj(members)) + x| >= 2
    ensures (Text(Obj(members)) + x)[1] == '}' <==> members == []
  {
  }

  lemma {:induction false} ObjectReadsBack(a: seq<Entry<Js>>, b: seq<Entry<Js>>, x: string, y: string)
    requires (forall m <- a :: Plain(m.value)) && (forall m <- b :: Plain(m.value))
    requires Text(Obj(a)) + x == Text(Obj(b)) + y
    ensures a == b && x == y
    decreases a, 2
  {
    hide MemberText;
    var l, r := Text(Obj(a)) + x, Text(Obj(b)) + y;
    SecondOfObject(a, x);
    SecondOfObject(b, y);
    if a == [] {
      assert x == l[2..] && y == r[2..];
    } else {
      var p, q := MembersTail(a[1..]) + x, MembersTail(b[1..]) + y;
      assert l[1..] == MemberText(a[0]) + p && r[1..] == MemberText(b[0]) + q;
      MemberReadsBack(a[0], b[0], p, q);
      MembersReadBack(a[1..], b[1..], x, y);
      assert a == [a[0]] + a[1..] && b == [b[0]] + b[1..];
    }
  }

  lemma {:induction false} MembersReadBack(a: seq<Entry<Js>>, b: seq<Entry<Js>>, x: string, y: string)
    requires (forall m <- a :: Plain(m.value)) && (forall m <- b :: Plain(m.value))
    requires MembersTail(a) + x == MembersTail(b) + y
    ensures a == b && x == y
    decreases a, 0
  {
    hide MemberText;
    var l, r := MembersTail(a) + x, MembersTail(b) + y;
    assert l[0] == MembersTail(a)[0] && r[0] == MembersTail(b)[0];
    if a == [] {
      assert x == l[1..] && y == r[1..];
    } else {
      var p, q := MembersTail(a[1..]) + x, MembersTail(b[1..]) + y;
      assert l[1..] == MemberText(a[0]) + p && r[1..] == MemberText(b[0]) + q;
      MemberReadsBack(a[0], b[0], p, q);
      MembersReadBack(a[1..], b[1..], x, y);
      assert a == [a[0]] + a[1..] && b == [b[0]] + b[1..];
    }
  }

  /** The text determines the value. */
  lemma TextIsInjective(a: Js, b: Js)
    requires Plain(a) && Plain(b) && Text(a) == Text(b)
    ensures a == b
  {
    assert Text(a) + [] == Text(b) + [];
    ReadsBack(a, b, [], []);
  }
}
