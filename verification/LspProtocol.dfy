/** Base-protocol framing of the Language Server Protocol: an encoder and an incremental decoder.

    The content parser is a parameter: it stands for UTF-8 decoding plus `JSON.parse`, and gives
    nothing for a body that does not parse or parses to a falsy value, which is not delivered. */
module LspProtocol {
  import opened Prelude
  import opened Decimal

  type Byte = b: int | 0 <= b < 256

  const CR: Byte := 13
  const LF: Byte := 10
  const SEPARATOR: seq<Byte> := [CR, LF, CR, LF]
  /** `Content-Length:` in lower-case ASCII. */
  const FIELD: seq<Byte> := [99, 111, 110, 116, 101, 110, 116, 45, 108, 101, 110, 103, 116, 104, 58]
  /** `Content-Length: ` as the encoder writes it. */
  const FIELD_WRITTEN: seq<Byte> := [67, 111, 110, 116, 101, 110, 116, 45, 76, 101, 110, 103, 116, 104, 58, 32]

  function Pow2(n: nat): (r: nat)
    ensures r >= 1
  {
    if n == 0 then 1 else 2 * Pow2(n - 1)
  }

  /** Decimal texts from here on convert to the floating-point infinity. */
  const INFINITE: nat := Pow2(970) * (Pow2(54) - 1)

  // ---------------------------------------------------------------- header fields

  predicate SepAt(s: seq<Byte>, i: nat) {
    i + 4 <= |s| && s[i] == CR && s[i + 1] == LF && s[i + 2] == CR && s[i + 3] == LF
  }

  /** First index of the separator, searching from `from`. */
  function FindFrom(s: seq<Byte>, from: nat): (r: Option<nat>)
    ensures r.Some? ==> from <= r.value && SepAt(s, r.value) && forall k: nat :: from <= k < r.value ==> !SepAt(s, k)
    ensures r.None? ==> forall k: nat :: from <= k ==> !SepAt(s, k)
    decreases |s| - from
  {
    if from + 4 > |s| then None
    else if SepAt(s, from) then Some(from)
    else FindFrom(s, from + 1)
  }

  function FindSeparator(s: seq<Byte>): (r: Option<nat>)
    ensures r.Some? ==> r.value + 4 <= |s|
  {
    FindFrom(s, 0)
  }

  /** Decoding as ASCII drops the high bit. */
  function Ascii(s: seq<Byte>): seq<Byte> { seq(|s|, i requires 0 <= i < |s| => s[i] % 128) }

  function Lower(c: Byte): Byte { if 65 <= c <= 90 then c + 32 else c }

  predicate IsSpace(c: Byte) { 9 <= c <= 13 || c == 32 }

  /** Split at CR LF, left to right. */
  function Lines(s: seq<Byte>): seq<seq<Byte>> { LinesFrom(s, 0) }

  function LinesFrom(s: seq<Byte>, i: nat): (r: seq<seq<Byte>>)
    requires i <= |s|
    decreases |s| - i
    ensures |r| >= 1
  {
    if i + 2 > |s| then [s]
    else if s[i] == CR && s[i + 1] == LF then
      assert |s[i + 2..]| < |s| - i || i == 0;
      [s[..i]] + LinesFrom(s[i + 2..], 0)
    else LinesFrom(s, i + 1)
  }

  function SkipSpaces(s: seq<Byte>): (r: seq<Byte>)
    ensures |r| <= |s|
  {
    if s != [] && IsSpace(s[0]) then SkipSpaces(s[1..]) else s
  }

  function CountDigits(s: seq<Byte>): (n: nat)
    ensures n <= |s|
    ensures forall i :: 0 <= i < n ==> IsDigit(s[i])
    ensures n < |s| ==> !IsDigit(s[n])
  {
    if s != [] && IsDigit(s[0]) then 1 + CountDigits(s[1..]) else 0
  }

  /** The case-insensitive pattern: field name, spaces, digits, spaces, end of line. */
  function MatchLine(line: seq<Byte>): Option<nat> {
    if !NamesField(line) then None else MatchValue(line[|FIELD|..])
  }

  predicate NamesField(line: seq<Byte>) {
    |FIELD| <= |line| && forall i :: 0 <= i < |FIELD| ==> Lower(line[i]) == FIELD[i]
  }

  function MatchValue(text: seq<Byte>): Option<nat> {
    var rest := SkipSpaces(text);
    var n := CountDigits(rest);
    if n == 0 || SkipSpaces(rest[n..]) != [] then None else Some(Value(rest[..n]))
  }

  function FirstLength(lines: seq<seq<Byte>>): Option<nat> {
    if lines == [] then None
    else
      match MatchLine(lines[0])
      case Some(n) => if n < INFINITE then Some(n) else None
      case None => FirstLength(lines[1..])
  }

  function ParseContentLength(header: seq<Byte>): Option<nat> { FirstLength(Lines(Ascii(header))) }

  // ---------------------------------------------------------------- decoding

  /** One look at the front of the buffer. */
  datatype Frame = Incomplete | Malformed(next: nat) | Body(start: nat, next: nat)

  function FrontFrame(buffer: seq<Byte>): (f: Frame)
    ensures f.Malformed? ==> 4 <= f.next <= |buffer|
    ensures f.Body? ==> 4 <= f.start <= f.next <= |buffer|
  {
    match FindSeparator(buffer)
    case None => Incomplete
    case Some(end) =>
      match ParseContentLength(buffer[..end])
      case None => Malformed(end + 4)
      case Some(n) => if |buffer| < end + 4 + n then Incomplete else Body(end + 4, end + 4 + n)
  }

  function Delivered<M>(parsed: Option<M>): seq<M> { if parsed.Some? then [parsed.value] else [] }

  /** What draining a buffer delivers, and what it leaves. */
  function Drained<M>(parse: seq<Byte> -> Option<M>, buffer: seq<Byte>): (seq<M>, seq<Byte>)
    decreases |buffer|
  {
    match FrontFrame(buffer)
    case Incomplete => ([], buffer)
    case Malformed(next) => Drained(parse, buffer[next..])
    case Body(start, next) =>
      var (rest, left) := Drained(parse, buffer[next..]);
      (Delivered(parse(buffer[start..next])) + rest, left)
  }

  /** More bytes never change how a complete front frame is read. */
  lemma FrontFrameStable(a: seq<Byte>, b: seq<Byte>)
    requires !FrontFrame(a).Incomplete?
    ensures FrontFrame(a + b) == FrontFrame(a)
  {
    var end := FindSeparator(a).value;
    assert forall k: nat :: k <= end ==> SepAt(a + b, k) == SepAt(a, k);
    assert SepAt(a + b, end);
    assert FindSeparator(a + b) == Some(end);
    assert (a + b)[..end] == a[..end];
  }

  /** Draining `a + b` is draining `a`, then draining what is left followed by `b`. */
  lemma {:induction false} DrainSplits<M>(parse: seq<Byte> -> Option<M>, a: seq<Byte>, b: seq<Byte>)
    ensures var first := Drained(parse, a);
            var second := Drained(parse, first.1 + b);
            Drained(parse, a + b) == (first.0 + second.0, second.1)
    decreases |a|
  {
    hide FrontFrame;
    var second := Drained(parse, Drained(parse, a).1 + b);
    if FrontFrame(a).Incomplete? {
      assert [] + second.0 == second.0;
    } else {
      var next := FrontFrame(a).next;
      FrontFrameStable(a, b);
      assert (a + b)[next..] == a[next..] + b;
      DrainSplits(parse, a[next..], b);
      if FrontFrame(a).Body? {
        var start := FrontFrame(a).start;
        assert (a + b)[start..next] == a[start..next];
        var d, rest := Delivered(parse(a[start..next])), Drained(parse, a[next..]).0;
        assert d + rest + second.0 == d + (rest + second.0);
      }
    }
  }

  lemma Associative<T>(a: seq<T>, b: seq<T>, c: seq<T>)
    ensures (a + b) + c == a + (b + c)
  {
  }

  function Flatten<T>(parts: seq<seq<T>>): seq<T> {
    if parts == [] then [] else parts[0] + Flatten(parts[1..])
  }

  /** Appending the chunks one after the other, draining after each. */
  function Fed<M>(parse: seq<Byte> -> Option<M>, buffer: seq<Byte>, chunks: seq<seq<Byte>>): (seq<M>, seq<Byte>)
    decreases |chunks|
  {
    if chunks == [] then ([], buffer)
    else
      var (first, left) := Drained(parse, buffer + chunks[0]);
      var (second, rest) := Fed(parse, left, chunks[1..]);
      (first + second, rest)
  }

  /** A drained buffer holds no complete frame. */
  lemma {:induction false} DrainedIsStuck<M>(parse: seq<Byte> -> Option<M>, buffer: seq<Byte>)
    ensures FrontFrame(Drained(parse, buffer).1).Incomplete?
    decreases |buffer|
  {
    match FrontFrame(buffer)
    case Incomplete =>
    case Malformed(next) => DrainedIsStuck(parse, buffer[next..]);
    case Body(start, next) => DrainedIsStuck(parse, buffer[next..]);
  }

  lemma {:induction false} FedIsDrained<M>(parse: seq<Byte> -> Option<M>, buffer: seq<Byte>, chunks: seq<seq<Byte>>)
    requires FrontFrame(buffer).Incomplete?
    ensures Fed(parse, buffer, chunks) == Drained(parse, buffer + Flatten(chunks))
    decreases |chunks|
  {
    if chunks == [] {
      assert buffer + Flatten(chunks) == buffer;
    } else {
      var joined, later := buffer + chunks[0], Flatten(chunks[1..]);
      DrainedIsStuck(parse, joined);
      FedIsDrained(parse, Drained(parse, joined).1, chunks[1..]);
      DrainSplits(parse, joined, later);
      Associative(buffer, chunks[0], later);
    }
  }

  /** Chunk invariance: however a stream is cut, the delivered messages and the bytes left over are
      those of the whole stream at once. */
  lemma ChunkInvariance<M>(parse: seq<Byte> -> Option<M>, chunks: seq<seq<Byte>>)
    ensures Fed(parse, [], chunks) == Drained(parse, Flatten(chunks))
  {
    FedIsDrained(parse, [], chunks);
    assert [] + Flatten(chunks) == Flatten(chunks);
  }

  // ---------------------------------------------------------------- encoding

  function LengthText(n: nat): (s: seq<Byte>)
    ensures |s| >= 1 && AllDigits(s) && Value(s) == n
  {
    var digits := Digits(n);
    assert forall i :: 0 <= i < |digits| ==> IsDigit(digits[i]);
    digits
  }

  function Encode(body: seq<Byte>): seq<Byte> {
    FIELD_WRITTEN + LengthText(|body|) + SEPARATOR + body
  }

  lemma {:induction false} NoBreakOneLine(s: seq<Byte>, i: nat)
    requires i <= |s| && forall k :: i <= k < |s| ==> s[k] != CR
    ensures LinesFrom(s, i) == [s]
    decreases |s| - i
  {
    if i + 2 <= |s| { NoBreakOneLine(s, i + 1); }
  }

  lemma {:induction false} AllDigitsCounted(s: seq<Byte>)
    requires AllDigits(s)
    ensures CountDigits(s) == |s|
  {
    if s != [] { AllDigitsCounted(s[1..]); }
  }

  lemma WrittenValueMatches(d: seq<Byte>)
    requires d != [] && AllDigits(d)
    ensures MatchValue([32] + d) == Some(Value(d))
  {
    assert ([32] + d)[1..] == d && IsSpace(([32] + d)[0]);
    assert IsDigit(d[0]) && SkipSpaces(d) == d;
    assert SkipSpaces([32] + d) == d;
    AllDigitsCounted(d);
    assert d[..|d|] == d && d[|d|..] == [];
  }

  lemma WrittenLineMatches(d: seq<Byte>)
    requires d != [] && AllDigits(d)
    ensures MatchLine(FIELD_WRITTEN + d) == Some(Value(d))
  {
    hide MatchValue;
    var h := FIELD_WRITTEN + d;
    assert h[|FIELD|..] == [32] + d;
    WrittenValueMatches(d);
  }

  /** The header the encoder writes is read back as the length it states. */
  lemma HeaderRoundTrip(n: nat)
    requires n < INFINITE
    ensures ParseContentLength(FIELD_WRITTEN + LengthText(n)) == Some(n)
  {
    hide MatchLine;
    var h := FIELD_WRITTEN + LengthText(n);
    assert Ascii(h) == h by {
      assert forall i :: 0 <= i < |h| ==> h[i] < 128;
    }
    NoBreakOneLine(h, 0);
    WrittenLineMatches(LengthText(n));
  }

  lemma EncodedFront(body: seq<Byte>, rest: seq<Byte>)
    requires |body| < INFINITE
    ensures var s := Encode(body) + rest;
            var start := |FIELD_WRITTEN| + |LengthText(|body|)| + 4;
            FrontFrame(s) == Body(start, start + |body|) && s[start..start + |body|] == body
                && s[start + |body|..] == rest
  {
    var header := FIELD_WRITTEN + LengthText(|body|);
    var s := Encode(body) + rest;
    var end := |header|;
    assert s == header + SEPARATOR + body + rest;
    assert SepAt(s, end);
    forall k: nat | k < end ensures !SepAt(s, k) { assert s[k] == header[k] != CR; }
    assert FindSeparator(s) == Some(end);
    assert s[..end] == header;
    HeaderRoundTrip(|body|);
  }

  function Encoded<M>(render: M -> seq<Byte>, messages: seq<M>): seq<Byte> {
    if messages == [] then [] else Encode(render(messages[0])) + Encoded(render, messages[1..])
  }

  /** The printer and the content parser fit together on these messages, and every body's length is
      a finite number. */
  ghost predicate Printable<M>(parse: seq<Byte> -> Option<M>, render: M -> seq<Byte>, messages: seq<M>) {
    forall m <- messages :: parse(render(m)) == Some(m) && |render(m)| < INFINITE
  }

  lemma DrainOneFrame<M>(parse: seq<Byte> -> Option<M>, body: seq<Byte>, rest: seq<Byte>)
    requires |body| < INFINITE
    ensures Drained(parse, Encode(body) + rest) ==
            (Delivered(parse(body)) + Drained(parse, rest).0, Drained(parse, rest).1)
  {
    EncodedFront(body, rest);
  }

  /** One more message in front of a stream whose decoding is known. */
  lemma DecodeOneMore<M>(parse: seq<Byte> -> Option<M>, render: M -> seq<Byte>, m: M, encoded: seq<Byte>,
                         others: seq<M>,
                         rest: seq<Byte>, end: (seq<M>, seq<Byte>))
    requires parse(render(m)) == Some(m) && |render(m)| < INFINITE
    requires Drained(parse, encoded + rest) == (others + end.0, end.1)
    ensures Drained(parse, Encode(render(m)) + encoded + rest) == ([m] + others + end.0, end.1)
  {
    DrainOneFrame(parse, render(m), encoded + rest);
    Associative(Encode(render(m)), encoded, rest);
    Associative([m], others, end.0);
  }

  lemma {:induction false} DecodeEncoded<M>(parse: seq<Byte> -> Option<M>, render: M -> seq<Byte>, messages: seq<M>,
                                            rest: seq<Byte>)
    requires Printable(parse, render, messages)
    ensures Drained(parse, Encoded(render, messages) + rest) ==
            (messages + Drained(parse, rest).0, Drained(parse, rest).1)
    decreases |messages|
  {
    hide FrontFrame;
    hide Encode;
    var end := Drained(parse, rest);
    if messages == [] {
      assert Encoded(render, messages) + rest == rest && messages + end.0 == end.0;
    } else {
      DecodeEncoded(parse, render, messages[1..], rest);
      assert messages[0] in messages && [messages[0]] + messages[1..] == messages;
      DecodeOneMore(parse, render, messages[0], Encoded(render, messages[1..]), messages[1..], rest, end);
    }
  }

  lemma NothingToDrain<M>(parse: seq<Byte> -> Option<M>)
    ensures Drained(parse, []) == ([], [])
  {
  }

  /** Round trip: decoding the encodings of any messages, cut anywhere, delivers exactly those
      messages and leaves nothing. */
  lemma RoundTrip<M>(parse: seq<Byte> -> Option<M>, render: M -> seq<Byte>, messages: seq<M>, chunks: seq<seq<Byte>>)
    requires Printable(parse, render, messages) && Flatten(chunks) == Encoded(render, messages)
    ensures Fed(parse, [], chunks) == (messages, [])
  {
    ChunkInvariance(parse, chunks);
    DecodeEncoded(parse, render, messages, []);
    NothingToDrain(parse);
    assert Encoded(render, messages) + [] == Encoded(render, messages);
    assert messages + [] == messages;
  }

  /** A header block without a usable length, up to and including its separator. */
  ghost predicate BadBlock(block: seq<Byte>) {
    |block| >= 4 && FindSeparator(block) == Some(|block| - 4) && ParseContentLength(block[..|block| - 4]).None?
  }

  /** Resynchronisation: a bad block between frames is dropped, and every frame before and after it
      is delivered. */
  lemma Resync<M>(parse: seq<Byte> -> Option<M>, render: M -> seq<Byte>, before: seq<M>, block: seq<Byte>,
                  after: seq<M>)
    requires Printable(parse, render, before) && Printable(parse, render, after) && BadBlock(block)
    ensures Drained(parse, Encoded(render, before) + (block + Encoded(render, after))) == (before + after, [])
  {
    var rest := Encoded(render, after);
    FrontFrameStable(block, rest);
    assert (block + rest)[|block|..] == rest;
    DecodeEncoded(parse, render, after, []);
    NothingToDrain(parse);
    assert rest + [] == rest && after + [] == after;
    DecodeEncoded(parse, render, before, block + rest);
  }

  /** The incremental decoder object. `delivered` is what the message callback has received. */
  class MessageBuffer<M(!new)> {
    const parse: seq<Byte> -> Option<M>
    var buffer: seq<Byte>
    var delivered: seq<M>

    constructor (parse: seq<Byte> -> Option<M>)
      ensures this.parse == parse && buffer == [] && delivered == []
    {
      this.parse := parse;
      this.buffer := [];
      this.delivered := [];
    }

    method Append(chunk: seq<Byte>)
      modifies this
      ensures delivered == old(delivered) + Drained(parse, old(buffer) + chunk).0
      ensures buffer == Drained(parse, old(buffer) + chunk).1
    {
      buffer := buffer + chunk;
      Drain();
    }

    /** One append may complete several frames; every turn consumes at least a separator. */
    method Drain()
      modifies this
      ensures delivered == old(delivered) + Drained(parse, old(buffer)).0
      ensures buffer == Drained(parse, old(buffer)).1
    {
      hide FindSeparator;
      hide ParseContentLength;
      ghost var whole := Drained(parse, buffer);
      while true
        invariant delivered + Drained(parse, buffer).0 == old(delivered) + whole.0
        invariant Drained(parse, buffer).1 == whole.1
        decreases |buffer|
      {
        var end := FindSeparator(buffer);
        if end.None? { return; }
        var length := ParseContentLength(buffer[..end.value]);
        if length.None? {
          buffer := buffer[end.value + 4..];
          continue;
        }
        var start := end.value + 4;
        if |buffer| < start + length.value { return; }
        var parsed := parse(buffer[start..start + length.value]);
        ghost var rest := Drained(parse, buffer[start + length.value..]).0;
        Associative(delivered, Delivered(parsed), rest);
        buffer := buffer[start + length.value..];
        if parsed.Some? { delivered := delivered + [parsed.value]; }
      }
    }
  }
}
