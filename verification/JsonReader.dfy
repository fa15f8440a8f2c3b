/** A reader of compact JSON text, written from the grammar (RFC 8259, sections 3 to 7), and the round
    trip: it reads back every value the printer writes. */
module JsonReader {
  import opened Prelude
  import opened JsonText
  import opened CanonicalJson
  import Decimal

  type Read<T> = Option<(T, string)>

  // ---------------------------------------------------------------- strings

  /** The character a short escape stands for. */
  function Unescape(c: char): Option<char> {
    if c == '\"' || c == '\\' || c == '/' then Some(c)
    else if c == 'b' then Some(8 as char)
    else if c == 'f' then Some(12 as char)
    else if c == 'n' then Some(10 as char)
    else if c == 'r' then Some(13 as char)
    else if c == 't' then Some(9 as char)
    else None
  }

  function HexValue(c: char): Option<nat> {
    if '0' <= c <= '9' then Some(c as int - '0' as int)
    else if 'a' <= c <= 'f' then Some(c as int - 'a' as int + 10)
    else if 'A' <= c <= 'F' then Some(c as int - 'A' as int + 10)
    else None
  }

  /** Four hexadecimal digits, outside the surrogates. */
  function HexChar(a: char, b: char, c: char, d: char): Option<char> {
    if HexValue(a).None? || HexValue(b).None? || HexValue(c).None? || HexValue(d).None? then None
    else
      var code := ((HexValue(a).value * 16 + HexValue(b).value) * 16 + HexValue(c).value) * 16 + HexValue(d).value;
      if code < 0xD800 || 0xE000 <= code < 0x10000 then Some(code as char) else None
  }

  /** One character of a string, escaped or not. */
  function ReadChar(s: string): (r: Read<char>)
    ensures r.Some? ==> |r.value.1| < |s|
  {
    if s == [] || s[0] == '\"' || s[0] < ' ' then None
    else if s[0] != '\\' then Some((s[0], s[1..]))
    else if |s| >= 2 && Unescape(s[1]).Some? then Some((Unescape(s[1]).value, s[2..]))
    else if |s| >= 6 && s[1] == 'u' && HexChar(s[2], s[3], s[4], s[5]).Some? then
      Some((HexChar(s[2], s[3], s[4], s[5]).value, s[6..]))
    else None
  }

  /** The rest of a string, after its opening quote, with its closing quote. */
  function ReadChars(s: string): (r: Read<string>)
    ensures r.Some? ==> |r.value.1| < |s|
    decreases |s|
  {
    if s != [] && s[0] == '\"' then Some(([], s[1..]))
    else
      match ReadChar(s)
      case None => None
      case Some((c, rest)) =>
        match ReadChars(rest)
        case None => None
        case Some((cs, left)) => Some(([c] + cs, left))
  }

  // ---------------------------------------------------------------- numbers

  function NumeralLength(s: string): (n: nat)
    ensures n <= |s|
    ensures forall i :: 0 <= i < n ==> NumeralChar(s[i])
    ensures n < |s| ==> !NumeralChar(s[n])
  {
    if s != [] && NumeralChar(s[0]) then 1 + NumeralLength(s[1..]) else 0
  }

  predicate AllDecimal(s: string) { forall i :: 0 <= i < |s| ==> '0' <= s[i] <= '9' }

  function Codes(s: string): (r: seq<int>)
    ensures |r| == |s| && forall i :: 0 <= i < |s| ==> r[i] == s[i] as int
  {
    seq(|s|, i requires 0 <= i < |s| => s[i] as int)
  }

  function DecimalValue(s: string): nat
    requires AllDecimal(s)
  {
    Decimal.Value(Codes(s))
  }

  /** An integer, or another numeral taken as it stands. */
  function NumberOf(s: string): Option<Js> {
    if s == [] then None
    else if AllDecimal(s) then Some(Num(DecimalValue(s)))
    else if s[0] == '-' && |s| >= 2 && AllDecimal(s[1..]) then Some(Num(0 - DecimalValue(s[1..])))
    else if IsNumeral(s) then Some(Frac(s))
    else None
  }

  // ---------------------------------------------------------------- values

  function ReadValue(s: string): (r: Read<Js>)
    ensures r.Some? ==> |r.value.1| < |s|
    decreases |s|, 0
  {
    if s == [] then None
    else if s[0] == 'n' then (if "null" <= s then Some((Null, s[4..])) else None)
    else if s[0] == 't' then (if "true" <= s then Some((Bool(true), s[4..])) else None)
    else if s[0] == 'f' then (if "false" <= s then Some((Bool(false), s[5..])) else None)
    else if s[0] == '\"' then
      match ReadChars(s[1..])
      case None => None
      case Some((text, rest)) => Some((Str(text), rest))
    else if s[0] == '[' then
      if |s| >= 2 && s[1] == ']' then Some((Arr([]), s[2..]))
      else
        match ReadItems(s[1..])
        case None => None
        case Some((items, rest)) => Some((Arr(items), rest))
    else if s[0] == '{' then
      if |s| >= 2 && s[1] == '}' then Some((Obj([]), s[2..]))
      else
        match ReadMembers(s[1..])
        case None => None
        case Some((members, rest)) => Some((Obj(members), rest))
    else
      var n := NumeralLength(s);
      match NumberOf(s[..n])
      case None => None
      case Some(v) => Some((v, s[n..]))
  }

  /** The elements of an array and its closing bracket. */
  function ReadItems(s: string): (r: Read<seq<Js>>)
    ensures r.Some? ==> |r.value.1| < |s|
    decreases |s|, 1
  {
    match ReadValue(s)
    case None => None
    case Some((v, rest)) =>
      if rest != [] && rest[0] == ']' then Some(([v], rest[1..]))
      else if rest != [] && rest[0] == ',' then
        match ReadItems(rest[1..])
        case None => None
        case Some((vs, left)) => Some(([v] + vs, left))
      else None
  }

  function ReadMember(s: string): (r: Read<Entry<Js>>)
    ensures r.Some? ==> |r.value.1| < |s|
    decreases |s|, 1
  {
    if s == [] || s[0] != '\"' then None
    else
      match ReadChars(s[1..])
      case None => None
      case Some((key, rest)) =>
        if rest == [] || rest[0] != ':' then None
        else
          match ReadValue(rest[1..])
          case None => None
          case Some((v, left)) => Some((Entry(key, v), left))
  }

  /** The members of an object and its closing brace. */
  function ReadMembers(s: string): (r: Read<seq<Entry<Js>>>)
    ensures r.Some? ==> |r.value.1| < |s|
    decreases |s|, 2
  {
    match ReadMember(s)
    case None => None
    case Some((m, rest)) =>
      if rest != [] && rest[0] == '}' then Some(([m], rest[1..]))
      else if rest != [] && rest[0] == ',' then
        match ReadMembers(rest[1..])
        case None => None
        case Some((ms, left)) => Some(([m] + ms, left))
      else None
  }

  // ---------------------------------------------------------------- round trip: strings

  lemma HexRoundTrip(c: char)
    requires c as int < 32
    ensures HexChar('0', '0', HexDigit(c as int / 16), HexDigit(c as int % 16)) == Some(c)
  {
    HexDigitValue(c as int / 16);
    HexDigitValue(c as int % 16);
  }

  lemma HexDigitValue(d: nat)
    requires d < 16
    ensures HexValue(HexDigit(d)) == Some(d)
  {
  }

  lemma CharRoundTrip(c: char, x: string)
    ensures ReadChar(Escape(c) + x) == Some((c, x)) && (Escape(c) + x)[0] != '\"'
  {
    var s := Escape(c) + x;
    if ShortEscape(c).Some? {
      assert s[0] == '\\' && s[1] == ShortEscape(c).value && s[2..] == x;
    } else if c as int < 32 {
      HexRoundTrip(c);
      assert s[0] == '\\' && s[1] == 'u' && s[2] == '0' && s[3] == '0' && s[6..] == x;
      assert s[4] == HexDigit(c as int / 16) && s[5] == HexDigit(c as int % 16);
    } else {
      assert s[0] == c && s[1..] == x;
    }
  }

  lemma {:induction false} CharsRoundTrip(s: string, x: string)
    ensures ReadChars(EscapeAll(s) + ['\"'] + x) == Some((s, x))
  {
    hide ReadChar;
    hide Escape;
    if s == [] {
      assert EscapeAll(s) + ['\"'] + x == ['\"'] + x && (['\"'] + x)[1..] == x;
    } else {
      var rest := EscapeAll(s[1..]) + ['\"'] + x;
      assert EscapeAll(s) + ['\"'] + x == Escape(s[0]) + rest;
      CharRoundTrip(s[0], rest);
      CharsRoundTrip(s[1..], x);
      assert s == [s[0]] + s[1..];
    }
  }

  lemma QuoteRoundTrip(s: string, x: string)
    ensures (Quote(s) + x)[0] == '\"' && ReadChars((Quote(s) + x)[1..]) == Some((s, x))
  {
    assert (Quote(s) + x)[1..] == EscapeAll(s) + ['\"'] + x;
    CharsRoundTrip(s, x);
  }

  // ---------------------------------------------------------------- round trip: numbers

  lemma {:induction false} NumeralLengthIs(u: string, x: string)
    requires (forall i :: 0 <= i < |u| ==> NumeralChar(u[i])) && (x == [] || !NumeralChar(x[0]))
    ensures NumeralLength(u + x) == |u|
  {
    if u == [] {
      assert u + x == x;
    } else {
      assert (u + x)[1..] == u[1..] + x;
      NumeralLengthIs(u[1..], x);
    }
  }

  lemma DigitsRoundTrip(n: nat)
    ensures DigitText(n) != [] && AllDecimal(DigitText(n)) && DecimalValue(DigitText(n)) == n
  {
    DigitTextIsDigits(n);
    assert Codes(DigitText(n)) == Decimal.Digits(n);
  }

  lemma FractionRoundTrip(f: Numeral)
    ensures NumberOf(f) == Some(Frac(f))
  {
    var i :| 0 <= i < |f| && (f[i] == '.' || f[i] == 'e');
    assert !AllDecimal(f);
    if f[0] == '-' { assert f[1..][i - 1] == f[i] && !AllDecimal(f[1..]); }
  }

  lemma IntegerRoundTrip(n: int)
    ensures NumberOf(NumText(n)) == Some(Num(n))
  {
    hide DigitText;
    hide DecimalValue;
    hide Decimal.Value;
    DigitsRoundTrip(if n < 0 then -n else n);
    if n < 0 {
      assert NumText(n)[0] == '-' && NumText(n)[1..] == DigitText(-n);
      assert !AllDecimal(NumText(n));
    }
  }

  lemma NumberRoundTrip(v: Js)
    requires v.Num? || v.Frac?
    ensures NumberOf(Text(v)) == Some(v)
  {
    hide NumberOf;
    if v.Num? { IntegerRoundTrip(v.n); } else { FractionRoundTrip(v.numeral); }
  }

  // ---------------------------------------------------------------- round trip: values

  lemma WordRoundTrip(word: string, x: string)
    ensures word <= word + x && (word + x)[|word|..] == x && (word != [] ==> (word + x)[0] == word[0])
  {
  }

  lemma NumberValue(v: Js, x: string)
    requires (v.Num? || v.Frac?) && Ends(x)
    ensures ReadValue(Text(v) + x) == Some((v, x))
  {
    hide NumberOf;
    hide NumeralLength;
    var s := Text(v) + x;
    FirstCharTells(v);
    NumberChars(v);
    NumeralLengthIs(Text(v), x);
    NumberRoundTrip(v);
    assert s[..|Text(v)|] == Text(v) && s[|Text(v)|..] == x && s[0] == Text(v)[0];
  }

  /** Reading what was printed gives the value and leaves what follows it. */
  lemma {:induction false} ReadRoundTrip(v: Js, x: string)
    requires Plain(v) && Ends(x)
    ensures ReadValue(Text(v) + x) == Some((v, x))
    decreases v, 1
  {
    match v
    case Null => WordRoundTrip(NULL_TEXT, x);
    case Bool(b) => WordRoundTrip(if b then TRUE_TEXT else FALSE_TEXT, x);
    case Num(n) => NumberValue(v, x);
    case Frac(f) => NumberValue(v, x);
    case Str(s) => QuoteRoundTrip(s, x);
    case Arr(items) => ArrayRoundTrip(items, x);
    case Obj(members) => ObjectRoundTrip(members, x);
  }

  lemma {:induction false} ArrayRoundTrip(items: seq<Js>, x: string)
    requires (forall v <- items :: Plain(v)) && Ends(x)
    ensures ReadValue(Text(Arr(items)) + x) == Some((Arr(items), x))
    decreases items, 2
  {
    var s := Text(Arr(items)) + x;
    SecondOfArray(items, x);
    assert s[0] == '[';
    if items == [] {
      assert s[2..] == x;
    } else {
      DropFirst('[', Text(items[0]) + ItemsTail(items[1..]), x);
      ItemsRoundTrip(items, x);
    }
  }

  lemma {:induction false} ItemsRoundTrip(items: seq<Js>, x: string)
    requires items != [] && forall v <- items :: Plain(v)
    ensures ReadItems(Text(items[0]) + ItemsTail(items[1..]) + x) == Some((items, x))
    decreases items, 1
  {
    hide Text;
    hide ReadValue;
    var tail := ItemsTail(items[1..]) + x;
    Regroup(Text(items[0]), ItemsTail(items[1..]), x);
    ReadRoundTrip(items[0], tail);
    if |items| == 1 {
      assert items[1..] == [] && tail == [']'] + x && tail[1..] == x && items == [items[0]];
    } else {
      var rest := items[1..];
      ItemsRoundTrip(rest, x);
      Regroup([','], Text(rest[0]), ItemsTail(rest[1..]));
      DropFirst(',', Text(rest[0]) + ItemsTail(rest[1..]), x);
      assert tail[0] == ',' && items == [items[0]] + rest;
    }
  }

  lemma {:induction false} MemberRoundTrip(m: Entry<Js>, x: string)
    requires Plain(m.value) && Ends(x)
    ensures ReadMember(MemberText(m) + x) == Some((m, x))
    decreases m, 0
  {
    hide Quote;
    hide Text;
    hide ReadValue;
    hide ReadChars;
    var rest := [':'] + Text(m.value) + x;
    assert MemberText(m) + x == Quote(m.key) + rest;
    QuoteRoundTrip(m.key, rest);
    ReadRoundTrip(m.value, x);
    assert rest[0] == ':' && rest[1..] == Text(m.value) + x;
  }

  lemma {:induction false} ObjectRoundTrip(members: seq<Entry<Js>>, x: string)
    requires (forall m <- members :: Plain(m.value)) && Ends(x)
    ensures ReadValue(Text(Obj(members)) + x) == Some((Obj(members), x))
    decreases members, 2
  {
    hide MemberText;
    var s := Text(Obj(members)) + x;
    SecondOfObject(members, x);
    assert s[0] == '{';
    if members == [] {
      assert s[2..] == x;
    } else {
      assert s[1..] == MemberText(members[0]) + MembersTail(members[1..]) + x;
      MembersRoundTrip(members, x);
    }
  }

  lemma {:induction false} MembersRoundTrip(members: seq<Entry<Js>>, x: string)
    requires members != [] && forall m <- members :: Plain(m.value)
    ensures ReadMembers(MemberText(members[0]) + MembersTail(members[1..]) + x) == Some((members, x))
    decreases members, 0
  {
    hide MemberText;
    hide ReadMember;
    var tail := MembersTail(members[1..]) + x;
    Regroup(MemberText(members[0]), MembersTail(members[1..]), x);
    MemberRoundTrip(members[0], tail);
    if |members| == 1 {
      assert members[1..] == [] && tail == ['}'] + x && tail[1..] == x && members == [members[0]];
    } else {
      var rest := members[1..];
      MembersRoundTrip(rest, x);
      assert tail[0] == ',' && tail[1..] == MemberText(rest[0]) + MembersTail(rest[1..]) + x;
      assert members == [members[0]] + rest;
    }
  }

  /** The whole text. */
  function ReadText(s: string): Option<Js> {
    match ReadValue(s)
    case None => None
    case Some((v, rest)) => if rest == [] then Some(v) else None
  }

  /** Every value without undefined parts is read back from its text. */
  lemma TextRoundTrip(v: Js)
    requires Plain(v)
    ensures ReadText(Text(v)) == Some(v)
  {
    ReadRoundTrip(v, []);
    assert Text(v) + [] == Text(v);
  }
}
