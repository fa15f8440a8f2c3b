/** Which header blocks give a length: any letter case, blanks around the number, other fields before
    and after. */
module LspHeaders {
  import opened Prelude
  import opened Decimal
  import opened LspProtocol

  // ---------------------------------------------------------------- one header line

  ghost predicate Blank(s: seq<Byte>) { forall i :: 0 <= i < |s| ==> 9 <= s[i] <= 13 || s[i] == 32 }

  /** `Content-Length:` in any mixture of cases. */
  ghost predicate NamesLength(s: seq<Byte>) {
    |s| == |FIELD| && forall i :: 0 <= i < |s| ==> s[i] == FIELD[i] || (97 <= FIELD[i] <= 122 && s[i] == FIELD[i] - 32)
  }

  /** The field name, blanks, the number in decimal, blanks. */
  ghost predicate GivesLength(line: seq<Byte>, n: nat) {
    exists name: seq<Byte>, before: seq<Byte>, digits: seq<Byte>, after: seq<Byte> ::
      Spells(line, name, before, digits, after) && Value(digits) == n
  }

  ghost predicate Spells(line: seq<Byte>, name: seq<Byte>, before: seq<Byte>, digits: seq<Byte>, after: seq<Byte>) {
    && line == name + (before + (digits + after))
    && NamesLength(name) && Blank(before) && digits != [] && AllDigits(digits) && Blank(after)
  }

  lemma NamesFieldIff(line: seq<Byte>)
    ensures NamesField(line) <==> |FIELD| <= |line| && NamesLength(line[..|FIELD|])
  {
    assert forall i :: 0 <= i < |FIELD| ==> FIELD[i] == 45 || FIELD[i] == 58 || 97 <= FIELD[i] <= 122;
  }

  /** Skipping blanks takes away all the leading ones. */
  lemma {:induction false} SkipSpacesIs(s: seq<Byte>) returns (before: seq<Byte>)
    ensures s == before + SkipSpaces(s) && Blank(before)
    ensures SkipSpaces(s) != [] ==> !Blank([SkipSpaces(s)[0]])
  {
    if s != [] && IsSpace(s[0]) {
      before := SkipSpacesIs(s[1..]);
      assert s == [s[0]] + s[1..] == [s[0]] + (before + SkipSpaces(s[1..]));
      before := [s[0]] + before;
    } else {
      before := [];
      assert s != [] ==> [s[0]][0] == s[0];
    }
  }

  lemma {:induction false} SkipOver(before: seq<Byte>, rest: seq<Byte>)
    requires Blank(before) && (rest == [] || !IsSpace(rest[0]))
    ensures SkipSpaces(before + rest) == rest
  {
    if before == [] {
      assert before + rest == rest;
    } else {
      assert (before + rest)[1..] == before[1..] + rest;
      SkipOver(before[1..], rest);
    }
  }

  lemma {:induction false} CountOver(digits: seq<Byte>, rest: seq<Byte>)
    requires AllDigits(digits) && (rest == [] || !IsDigit(rest[0]))
    ensures CountDigits(digits + rest) == |digits|
  {
    if digits == [] {
      assert digits + rest == rest;
    } else {
      assert (digits + rest)[1..] == digits[1..] + rest;
      CountOver(digits[1..], rest);
    }
  }

  lemma BlankSkips(s: seq<Byte>)
    ensures SkipSpaces(s) == [] <==> Blank(s)
  {
    var before := SkipSpacesIs(s);
    if Blank(s) {
      SkipOver(s, []);
      assert s + [] == s;
    }
  }

  lemma SpelledMatches(line: seq<Byte>, name: seq<Byte>, before: seq<Byte>, digits: seq<Byte>, after: seq<Byte>)
    requires Spells(line, name, before, digits, after)
    ensures MatchLine(line) == Some(Value(digits))
  {
    assert line[..|FIELD|] == name && line[|FIELD|..] == before + (digits + after);
    NamesFieldIff(line);
    assert IsDigit(digits[0]);
    SkipOver(before, digits + after);
    CountOver(digits, after);
    assert (digits + after)[..|digits|] == digits && (digits + after)[|digits|..] == after;
    BlankSkips(after);
  }

  lemma MatchedSpells(line: seq<Byte>)
    requires MatchLine(line).Some?
    ensures GivesLength(line, MatchLine(line).value)
  {
    hide MatchValue;
    hide NamesLength;
    NamesFieldIff(line);
    var name, text := line[..|FIELD|], line[|FIELD|..];
    var before, digits, after := MatchedValue(text);
    assert line == name + text;
    assert Spells(line, name, before, digits, after);
  }

  lemma MatchedValue(text: seq<Byte>) returns (before: seq<Byte>, digits: seq<Byte>, after: seq<Byte>)
    requires MatchValue(text).Some?
    ensures text == before + (digits + after) && Blank(before) && digits != [] && AllDigits(digits) && Blank(after)
    ensures MatchValue(text) == Some(Value(digits))
  {
    hide SkipSpaces;
    hide CountDigits;
    hide Blank;
    hide Value;
    var rest := SkipSpaces(text);
    before := SkipSpacesIs(text);
    var n := CountDigits(rest);
    digits, after := rest[..n], rest[n..];
    BlankSkips(after);
    assert digits + after == rest;
  }

  /** The line's pattern: exactly the lines spelled that way, with the number spelled. */
  lemma MatchLineIff(line: seq<Byte>, n: nat)
    ensures MatchLine(line) == Some(n) <==> GivesLength(line, n)
  {
    hide MatchLine;
    if GivesLength(line, n) {
      var name: seq<Byte>, before: seq<Byte>, digits: seq<Byte>, after: seq<Byte> :|
        Spells(line, name, before, digits, after) && Value(digits) == n;
      SpelledMatches(line, name, before, digits, after);
    }
    if MatchLine(line) == Some(n) { MatchedSpells(line); }
  }

  // ---------------------------------------------------------------- the first that matches

  /** The first line that gives a length decides, whatever stands before or after it; a number too large
      to be finite counts as no length. */
  lemma {:induction false} FirstLengthIs(lines: seq<seq<Byte>>, i: nat, n: nat)
    requires i < |lines| && GivesLength(lines[i], n)
    requires forall k, m: nat :: 0 <= k < i ==> !GivesLength(lines[k], m)
    ensures FirstLength(lines) == if n < INFINITE then Some(n) else None
  {
    hide MatchLine;
    hide GivesLength;
    if i == 0 {
      MatchLineIff(lines[0], n);
    } else {
      if MatchLine(lines[0]).Some? { MatchLineIff(lines[0], MatchLine(lines[0]).value); }
      assert lines[1..][i - 1] == lines[i];
      forall k, m: nat | 0 <= k < i - 1 ensures !GivesLength(lines[1..][k], m) { assert lines[1..][k] == lines[k + 1]; }
      FirstLengthIs(lines[1..], i - 1, n);
    }
  }

  lemma {:induction false} NoLengthIs(lines: seq<seq<Byte>>)
    requires forall k, m: nat :: 0 <= k < |lines| ==> !GivesLength(lines[k], m)
    ensures FirstLength(lines) == None
  {
    hide MatchLine;
    hide GivesLength;
    if lines != [] {
      if MatchLine(lines[0]).Some? { MatchLineIff(lines[0], MatchLine(lines[0]).value); }
      forall k, m: nat | 0 <= k < |lines| - 1
          ensures !GivesLength(lines[1..][k], m) { assert lines[1..][k] == lines[k + 1]; }
      NoLengthIs(lines[1..]);
    }
  }

  // ---------------------------------------------------------------- header blocks

  /** Lines joined by CR LF. */
  function Block(lines: seq<seq<Byte>>): seq<Byte>
    requires lines != []
  {
    if |lines| == 1 then lines[0] else lines[0] + ([CR, LF] + Block(lines[1..]))
  }

  /** Nonempty seven-bit lines without CR. */
  ghost predicate HeaderLine(line: seq<Byte>) {
    line != [] && forall i :: 0 <= i < |line| ==> line[i] != CR && line[i] < 128
  }

  ghost predicate HeaderLines(lines: seq<seq<Byte>>) {
    lines != [] && forall i :: 0 <= i < |lines| ==> HeaderLine(lines[i])
  }

  lemma {:induction false} SkipTo(s: seq<Byte>, i: nat, n: nat)
    requires i <= n && n + 2 <= |s| && s[n] == CR && s[n + 1] == LF && forall k :: i <= k < n ==> s[k] != CR
    ensures LinesFrom(s, i) == [s[..n]] + LinesFrom(s[n + 2..], 0)
    decreases n - i
  {
    if i < n { SkipTo(s, i + 1, n); }
  }

  lemma {:induction false} BlockLines(lines: seq<seq<Byte>>)
    requires HeaderLines(lines)
    ensures Lines(Block(lines)) == lines
    ensures Block(lines)[0] != CR && forall k :: 0 <= k < |Block(lines)| ==> Block(lines)[k] < 128
    ensures forall k :: 0 <= k < |Block(lines)| && Block(lines)[k] == CR ==>
            k + 2 < |Block(lines)| && Block(lines)[k + 2] != CR
  {
    assert HeaderLine(lines[0]);
    if |lines| == 1 {
      NoBreakOneLine(lines[0], 0);
    } else {
      var first, rest := lines[0], Block(lines[1..]);
      var all := first + ([CR, LF] + rest);
      BlockLines(lines[1..]);
      SkipTo(all, 0, |first|);
      assert all[..|first|] == first && all[|first| + 2..] == rest;
      assert lines == [first] + lines[1..];
      forall k | 0 <= k < |all| && all[k] == CR ensures k + 2 < |all| && all[k + 2] != CR {
        assert k >= |first| && k != |first| + 1;
        if k > |first| + 1 { assert all[k] == rest[k - |first| - 2]; }
      }
    }
  }

  /** The separator after a block is the first in the stream. */
  lemma BlockEnds(lines: seq<seq<Byte>>, tail: seq<Byte>)
    requires HeaderLines(lines)
    ensures FindSeparator(Block(lines) + (SEPARATOR + tail)) == Some(|Block(lines)|)
  {
    var block := Block(lines);
    var s := block + (SEPARATOR + tail);
    BlockLines(lines);
    assert SepAt(s, |block|);
    forall k: nat | k < |block| ensures !SepAt(s, k) {
      if s[k] == CR { assert block[k] == CR && s[k + 2] == block[k + 2]; }
    }
  }

  lemma BlockLength(lines: seq<seq<Byte>>, i: nat, n: nat)
    requires HeaderLines(lines) && i < |lines| && GivesLength(lines[i], n) && n < INFINITE
    requires forall k, m: nat :: 0 <= k < i ==> !GivesLength(lines[k], m)
    ensures ParseContentLength(Block(lines)) == Some(n)
  {
    hide FirstLength;
    hide GivesLength;
    hide Lines;
    hide Block;
    BlockLines(lines);
    AsciiOf(Block(lines));
    FirstLengthIs(lines, i, n);
  }

  lemma BlockFrame(block: seq<Byte>, body: seq<Byte>, rest: seq<Byte>)
    requires FindSeparator(block + (SEPARATOR + (body + rest))) == Some(|block|)
             && ParseContentLength(block) == Some(|body|)
    ensures var s := block + (SEPARATOR + (body + rest));
            var start := |block| + 4;
            && FrontFrame(s) == Body(start, start + |body|)
            && s[start..start + |body|] == body && s[start + |body|..] == rest
  {
    hide FindSeparator;
    hide ParseContentLength;
    var s := block + (SEPARATOR + (body + rest));
    assert s[..|block|] == block;
  }

  lemma DrainFrame<M>(parse: seq<Byte> -> Option<M>, s: seq<Byte>, start: nat, body: seq<Byte>, rest: seq<Byte>)
    requires FrontFrame(s) == Body(start, start + |body|)
    requires s[start..start + |body|] == body && s[start + |body|..] == rest
    ensures Drained(parse, s) == (Delivered(parse(body)) + Drained(parse, rest).0, Drained(parse, rest).1)
  {
    hide FrontFrame;
  }

  /** Any header block is read by its first length field: the body of that length is delivered and
      decoding goes on behind it, whatever other fields the block has and however the field is spelled. */
  lemma AnyHeaderDelivers<M>(parse: seq<Byte> -> Option<M>, lines: seq<seq<Byte>>, i: nat, body: seq<Byte>,
                             rest: seq<Byte>)
    requires HeaderLines(lines) && i < |lines| && GivesLength(lines[i], |body|) && |body| < INFINITE
    requires forall k, m: nat :: 0 <= k < i ==> !GivesLength(lines[k], m)
    ensures Drained(parse, Block(lines) + (SEPARATOR + (body + rest)))
         == (Delivered(parse(body)) + Drained(parse, rest).0, Drained(parse, rest).1)
  {
    hide FindSeparator;
    hide FrontFrame;
    hide ParseContentLength;
    hide GivesLength;
    hide Block;
    hide Drained;
    BlockEnds(lines, body + rest);
    BlockLength(lines, i, |body|);
    BlockFrame(Block(lines), body, rest);
    DrainFrame(parse, Block(lines) + (SEPARATOR + (body + rest)), |Block(lines)| + 4, body, rest);
  }

  lemma AsciiOf(s: seq<Byte>)
    requires forall k :: 0 <= k < |s| ==> s[k] < 128
    ensures Ascii(s) == s
  {
  }

  /** A block without a length is dropped with its separator. */
  lemma LengthlessDropped<M>(parse: seq<Byte> -> Option<M>, lines: seq<seq<Byte>>, rest: seq<Byte>)
    requires HeaderLines(lines) && forall k, m: nat :: 0 <= k < |lines| ==> !GivesLength(lines[k], m)
    ensures Drained(parse, Block(lines) + (SEPARATOR + rest)) == Drained(parse, rest)
  {
    hide FindSeparator;
    hide FirstLength;
    hide GivesLength;
    hide Lines;
    var block := Block(lines);
    var s := block + (SEPARATOR + rest);
    BlockEnds(lines, rest);
    BlockLines(lines);
    assert s[..|block|] == block;
    AsciiOf(block);
    NoLengthIs(lines);
    assert s[|block| + 4..] == rest;
  }
}
