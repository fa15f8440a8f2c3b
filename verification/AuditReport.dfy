/** What the verifier's report says: every issue and every counter, in terms of the lines of the text. */
module AuditReport {
  import opened Prelude
  import opened JsonText
  import opened CanonicalJson
  import opened AuditChain
  import opened AuditProof
  import opened AuditAppend
  import opened StableSort

  // ---------------------------------------------------------------- one line

  /** The record has the version, an event with its two strings, and a known kind of source. */
  predicate Conforms(v: Js) {
    && v.Obj? && Field(v, "schemaVersion") == Num(2)
    && Field(Field(v, "event"), "ts").Str? && Field(Field(v, "event"), "type").Str?
    && Field(Field(v, "source"), "kind") in {Str("native-v2"), Str("legacy-v1-import")}
  }

  predicate Signed(v: Js) { Field(v, "signature") !in {Undefined, Null, Bool(false), Num(0), Str("")} }

  function KeyIdOf(v: Js): Js { Field(Field(v, "signature"), "keyId") }

  predicate KeyKnown(host: Host, v: Js) { KeyIdOf(v).Str? && KeyIdOf(v).s in host.keys }

  predicate WellSigned(host: Host, v: Js) {
    && KeyIdOf(v).Str? && Field(v, "recordHash").Str? && Field(Field(v, "signature"), "value").Str?
    && host.verifies(KeyIdOf(v).s, Field(v, "recordHash").s, Field(Field(v, "signature"), "value").s)
  }

  /** The hash the record should carry. */
  function RightHash(host: Host, v: Js): string {
    host.hash(Canonical(host.le, Obj([Entry("schemaVersion", Num(2)), Entry("sequence", Field(v, "sequence")),
                                      Entry("previousHash", Field(v, "previousHash")),
                                          Entry("event", Field(v, "event")),
                                      Entry("source", Field(v, "source"))])))
  }

  /** The record's number follows that of the record before it, or is 1. */
  predicate Follows(host: Host, before: Option<Js>, v: Js) {
    match before
    case None => Field(v, "sequence") == Num(1)
    case Some(u) =>
      if Field(u, "sequence").Num? then Field(v, "sequence") == Num(Field(u, "sequence").n + 1)
      else
        var next := Successor(host, Field(u, "sequence"));
        next.Some? && StrictEqual(Field(v, "sequence"), next.value)
  }

  /** The record names the hash of the record before it, or null. */
  predicate Links(before: Option<Js>, v: Js) {
    match before
    case None => Field(v, "previousHash") == Null
    case Some(u) => StrictEqual(Field(v, "previousHash"), Field(u, "recordHash"))
  }

  predicate ConformingLine(host: Host, line: string) {
    line != [] && host.parse(line).Some? && Conforms(host.parse(line).value)
  }

  /** The line has the defect, when the last conforming record before it is `before`. */
  predicate Defect(host: Host, before: Option<Js>, line: string, code: Code) {
    && line != []
    && match code
       case InvalidJson => host.parse(line).None?
       case InvalidSchema => host.parse(line).Some? && !Conforms(host.parse(line).value)
       case _ => ConformingLine(host, line) && RecordDefect(host, before, host.parse(line).value, code)
  }

  predicate RecordDefect(host: Host, before: Option<Js>, v: Js, code: Code) {
    match code
    case InvalidSequence => !Follows(host, before, v)
    case InvalidPreviousHash => !Links(before, v)
    case InvalidRecordHash => Field(v, "recordHash") != Str(RightHash(host, v))
    case UnknownSigner => Signed(v) && !KeyKnown(host, v)
    case InvalidSignature => Signed(v) && KeyKnown(host, v) && !WellSigned(host, v)
    case _ => false
  }

  /** The last conforming record. */
  function LastConforming(host: Host, lines: seq<string>): Option<Js> {
    if lines == [] then None
    else if ConformingLine(host, lines[|lines| - 1]) then host.parse(lines[|lines| - 1])
    else LastConforming(host, lines[..|lines| - 1])
  }

  // ---------------------------------------------------------------- the verifier's tests are these

  lemma SchemaIsConforming(v: Js)
    ensures SchemaOk(v) <==> Conforms(v)
  {
    SchemaNeedsObject(v);
  }

  lemma TruthyIsSigned(v: Js)
    ensures Truthy(Field(v, SIGNATURE)) <==> Signed(v)
  {
    hide Field;
  }

  lemma HashIsRight(host: Host, v: Js)
    ensures HashOf(host, v) == RightHash(host, v)
  {
    hide Field;
    hide Canonical;
  }

  lemma SignerTests(host: Host, v: Js)
    ensures KnownSigner(host, v) <==> KeyKnown(host, v)
    ensures SignatureValid(host, v) <==> WellSigned(host, v)
  {
    hide Field;
  }

  /** The scan stands after the record `before`. */
  ghost predicate After(host: Host, st: Scan, before: Option<Js>) {
    match before
    case None => st.expected == Some(Num(1)) && st.previous == Null
    case Some(u) => st.expected == Successor(host, Field(u, SEQUENCE)) && st.previous == Field(u, RECORD)
  }

  lemma ChainTests(host: Host, st: Scan, before: Option<Js>, v: Js)
    requires After(host, st, before)
    ensures Expected(st, Field(v, SEQUENCE)) <==> Follows(host, before, v)
    ensures StrictEqual(Field(v, PREVIOUS), st.previous) <==> Links(before, v)
  {
    hide Field;
  }

  lemma IssueIfHas(condition: bool, number: nat, code: Code, x: Issue)
    ensures x in IssueIf(condition, number, code) <==> condition && x == Issue(number, code)
  {
  }

  /** The issues one conforming record adds are exactly its defects. */
  lemma RecordIssues(host: Host, st: Scan, before: Option<Js>, v: Js, number: nat, x: Issue)
    requires After(host, st, before)
    ensures x in ScanRecord(host, st, v, number).issues <==>
            x in st.issues || (x.line == number && RecordDefect(host, before, v, x.code))
  {
    hide Field;
    hide Truthy;
    hide HashOf;
    hide KnownSigner;
    hide SignatureValid;
    hide Follows;
    hide Links;
    hide RightHash;
    hide Signed;
    hide KeyKnown;
    hide WellSigned;
    hide IssueIf;
    hide After;
    hide Expected;
    hide StrictEqual;
    var signed := Truthy(Field(v, SIGNATURE));
    var unknown := signed && !KnownSigner(host, v);
    var bad := signed && !unknown && !(signed && !unknown && SignatureValid(host, v));
    ChainTests(host, st, before, v);
    TruthyIsSigned(v);
    HashIsRight(host, v);
    SignerTests(host, v);
    IssueIfHas(!Expected(st, Field(v, SEQUENCE)), number, InvalidSequence, x);
    IssueIfHas(!StrictEqual(Field(v, PREVIOUS), st.previous), number, InvalidPreviousHash, x);
    IssueIfHas(Field(v, RECORD) != Str(HashOf(host, v)), number, InvalidRecordHash, x);
    IssueIfHas(unknown, number, UnknownSigner, x);
    IssueIfHas(bad, number, InvalidSignature, x);
  }

  /** The issues one line adds are exactly its defects, and the scan then stands after the last
      conforming record. */
  lemma LineIssues(host: Host, st: Scan, before: Option<Js>, line: string, number: nat)
    requires After(host, st, before) && ScanLine(host, st, line, number).Some?
    ensures var next := ScanLine(host, st, line, number).value;
            && After(host, next, if ConformingLine(host, line) then host.parse(line) else before)
            && forall x :: x in next.issues <==>
               x in st.issues || (x.line == number && Defect(host, before, line, x.code))
  {
    hide SchemaOk;
    hide ScanRecord;
    hide RecordDefect;
    hide Conforms;
    var next := ScanLine(host, st, line, number).value;
    if line != [] && host.parse(line).Some? {
      var v := host.parse(line).value;
      SchemaIsConforming(v);
      if SchemaOk(v) {
        RecordAfter(host, st, v, number);
        forall x ensures x in next.issues <==>
            x in st.issues || (x.line == number && Defect(host, before, line, x.code)) {
          RecordIssues(host, st, before, v, number, x);
          CodesApart(host, before, v, x.code);
        }
      }
    }
  }

  lemma CodesApart(host: Host, before: Option<Js>, v: Js, code: Code)
    ensures RecordDefect(host, before, v, code) ==> code != InvalidJson && code != InvalidSchema
  {
  }

  lemma RecordAfter(host: Host, st: Scan, v: Js, number: nat)
    ensures After(host, ScanRecord(host, st, v, number), Some(v))
  {
    hide Field;
    hide ChainIssues;
  }

  // ---------------------------------------------------------------- the counters

  function IsSigned(host: Host): string -> bool {
    line => ConformingLine(host, line) && Signed(host.parse(line).value)
  }

  function IsVerified(host: Host): string -> bool {
    line => && ConformingLine(host, line) && Signed(host.parse(line).value)
            && KeyKnown(host, host.parse(line).value) && WellSigned(host, host.parse(line).value)
  }

  function IsUnverified(host: Host): string -> bool {
    line => ConformingLine(host, line) && Signed(host.parse(line).value) && !KeyKnown(host, host.parse(line).value)
  }

  function IsRecord(host: Host): string -> bool { line => ConformingLine(host, line) }

  function Number(p: string -> bool, lines: seq<string>): nat { |Filter(p, lines)| }

  lemma NumberSnoc(p: string -> bool, lines: seq<string>)
    requires lines != []
    ensures Number(p, lines) == Number(p, lines[..|lines| - 1]) + (if p(lines[|lines| - 1]) then 1 else 0)
  {
    var last := [lines[|lines| - 1]];
    assert lines == lines[..|lines| - 1] + last && last[1..] == [];
    FilterConcat(p, lines[..|lines| - 1], last);
  }

  /** The counters count lines. */
  ghost predicate Counts(host: Host, st: Scan, lines: seq<string>) {
    && st.signed == Number(IsSigned(host), lines) && st.verified == Number(IsVerified(host), lines)
    && st.unverified == Number(IsUnverified(host), lines) && |st.envelopes| == Number(IsRecord(host), lines)
  }

  lemma RecordCounts(host: Host, st: Scan, v: Js, number: nat)
    ensures var next := ScanRecord(host, st, v, number);
            && next.signed == st.signed + (if Signed(v) then 1 else 0)
            && next.verified == st.verified + (if Signed(v) && KeyKnown(host, v) && WellSigned(host, v) then 1 else 0)
            && next.unverified == st.unverified + (if Signed(v) && !KeyKnown(host, v) then 1 else 0)
            && |next.envelopes| == |st.envelopes| + 1
  {
    hide Field;
    hide Truthy;
    hide Signed;
    hide KeyKnown;
    hide WellSigned;
    hide KnownSigner;
    hide SignatureValid;
    hide ChainIssues;
    TruthyIsSigned(v);
    SignerTests(host, v);
  }

  lemma LineCounts(host: Host, st: Scan, lines: seq<string>)
    requires lines != [] && Counts(host, st, lines[..|lines| - 1])
    requires ScanLine(host, st, lines[|lines| - 1], |lines|).Some?
    ensures Counts(host, ScanLine(host, st, lines[|lines| - 1], |lines|).value, lines)
  {
    hide SchemaOk;
    hide ScanRecord;
    hide Conforms;
    hide Signed;
    hide KeyKnown;
    hide WellSigned;
    hide Number;
    var line := lines[|lines| - 1];
    NumberSnoc(IsSigned(host), lines);
    NumberSnoc(IsVerified(host), lines);
    NumberSnoc(IsUnverified(host), lines);
    NumberSnoc(IsRecord(host), lines);
    if line != [] && host.parse(line).Some? {
      SchemaIsConforming(host.parse(line).value);
      RecordCounts(host, st, host.parse(line).value, |lines|);
    }
  }

  // ---------------------------------------------------------------- the whole report

  /** Line `x.line` of the lines has the defect `x.code`. */
  ghost predicate Reported(host: Host, lines: seq<string>, x: Issue) {
    1 <= x.line <= |lines| && Defect(host, LastConforming(host, lines[..x.line - 1]), lines[x.line - 1], x.code)
  }

  lemma ReportedSnoc(host: Host, lines: seq<string>, x: Issue)
    requires lines != []
    ensures Reported(host, lines, x) <==>
            || Reported(host, lines[..|lines| - 1], x)
            || (x.line == |lines| && Defect(host, LastConforming(host, lines[..|lines| - 1]), lines[|lines| - 1],
                                            x.code))
  {
    hide Defect;
    hide LastConforming;
    var before := lines[..|lines| - 1];
    if 1 <= x.line <= |before| { assert before[..x.line - 1] == lines[..x.line - 1]; }
  }

  lemma {:induction false} ScanMeaning(host: Host, first: seq<Issue>, lines: seq<string>)
    requires ScanLines(host, START.(issues := first), lines).Some?
    ensures var st := ScanLines(host, START.(issues := first), lines).value;
            && After(host, st, LastConforming(host, lines)) && Counts(host, st, lines)
            && forall x :: x in st.issues <==> x in first || Reported(host, lines, x)
  {
    hide ScanLine;
    hide Defect;
    hide ConformingLine;
    hide After;
    if lines == [] {
      NothingScannedYet(host, first);
    } else {
      var before, line := lines[..|lines| - 1], lines[|lines| - 1];
      ScanMeaning(host, first, before);
      var st := ScanLines(host, START.(issues := first), before).value;
      LineIssues(host, st, LastConforming(host, before), line, |lines|);
      LineCounts(host, st, lines);
      forall x ensures x in ScanLines(host, START.(issues := first), lines).value.issues <==>
          x in first || Reported(host, lines, x) {
        ReportedSnoc(host, lines, x);
      }
    }
  }

  lemma NothingScannedYet(host: Host, first: seq<Issue>)
    ensures After(host, START.(issues := first), None) && Counts(host, START.(issues := first), [])
  {
  }

  /** The report says exactly what is wrong with which line, relative to the last conforming record
      before it, and that a text without a final newline is incomplete; its counters are the numbers of
      conforming, signed, verified and unverifiable records. */
  lemma ReportMeaning(host: Host, raw: string)
    requires Verify(host, raw).Some?
    ensures var r := Verify(host, raw).value;
            var lines := Split(raw);
            && (forall x :: x in r.issues <==>
                  || Reported(host, lines, x)
                  || (x == Issue(|lines|, InvalidJson) && raw != [] && raw[|raw| - 1] != '\n'))
            && (r.ok <==> forall x :: x in r.issues ==> x.code == UnknownSigner)
            && |r.envelopes| == Number(IsRecord(host), lines) && r.signed == Number(IsSigned(host), lines)
            && r.verified == Number(IsVerified(host), lines) && r.unverified == Number(IsUnverified(host), lines)
  {
    hide Split;
    hide ScanLines;
    hide Reported;
    hide Number;
    hide HeadHash;
    ScanMeaning(host, FirstIssues(raw), Split(raw));
    var issues := Verify(host, raw).value.issues;
    assert forall i :: 0 <= i < |issues| ==> issues[i] in issues;
  }

  /** The verifier throws exactly when some line holds a bare null. */
  lemma {:induction false} ScanThrowsIff(host: Host, first: seq<Issue>, lines: seq<string>)
    ensures ScanLines(host, START.(issues := first), lines).None? <==>
            exists i :: 0 <= i < |lines| && lines[i] != [] && host.parse(lines[i]) == Some(Null)
  {
    hide ScanRecord;
    hide SchemaOk;
    if lines != [] {
      var n := |lines| - 1;
      ScanThrowsIff(host, first, lines[..n]);
      assert forall i :: 0 <= i < n ==> lines[..n][i] == lines[i];
    }
  }

  lemma VerifierThrowsIff(host: Host, raw: string)
    ensures Verify(host, raw).None? <==>
            exists i :: 0 <= i < |Split(raw)| && Split(raw)[i] != [] && host.parse(Split(raw)[i]) == Some(Null)
  {
    hide ScanLines;
    hide Split;
    ScanThrowsIff(host, FirstIssues(raw), Split(raw));
  }

  // ---------------------------------------------------------------- lines of a text

  /** A line and whether it ends in CR LF rather than LF. */
  datatype Ended = Ended(line: string, crlf: bool)

  ghost predicate IsLine(line: string) {
    (forall i :: 0 <= i < |line| ==> line[i] != '\n') && (line == [] || line[|line| - 1] != '\r')
  }

  function WithEnding(line: Ended): string { line.line + (if line.crlf then ['\r', '\n'] else ['\n']) }

  function Concatenated(lines: seq<Ended>): string {
    if lines == [] then [] else Concatenated(lines[..|lines| - 1]) + WithEnding(lines[|lines| - 1])
  }

  function LinesOf(lines: seq<Ended>): seq<string> { seq(|lines|, i requires 0 <= i < |lines| => lines[i].line) }

  /** The line as it stands before its newline. */
  function Tail(e: Ended): string { e.line + (if e.crlf then ['\r'] else []) }

  lemma TailIs(e: Ended)
    requires IsLine(e.line)
    ensures DropReturn(Tail(e)) == e.line && WithEnding(e) == Tail(e) + ['\n']
    ensures forall i :: 0 <= i < |Tail(e)| ==> Tail(e)[i] != '\n'
  {
  }

  lemma SplitTail(before: string, tail: string)
    requires Complete(before) && forall i :: 0 <= i < |tail| ==> tail[i] != '\n'
    ensures SplitComplete(before + tail + ['\n']) == SplitComplete(before) + [DropReturn(tail)]
  {
    hide DropReturn;
    var body := before + tail;
    var all := body + ['\n'];
    assert all[..|all| - 1] == body && all != [];
    if before == [] {
      assert body == tail && LastNewline(tail).None?;
      SplitNothing();
    } else {
      LastNewlineIs(body, |before| - 1);
      assert body[..|before|] == before && body[|before|..] == tail;
    }
  }

  lemma SplitOne(before: string, e: Ended)
    requires Complete(before) && IsLine(e.line)
    ensures Complete(before + WithEnding(e))
            && SplitComplete(before + WithEnding(e)) == SplitComplete(before) + [e.line]
  {
    hide SplitComplete;
    hide DropReturn;
    TailIs(e);
    SplitTail(before, Tail(e));
    assert before + WithEnding(e) == before + Tail(e) + ['\n'];
  }

  lemma {:induction false} SplitAll(lines: seq<Ended>)
    requires forall i :: 0 <= i < |lines| ==> IsLine(lines[i].line)
    ensures Complete(Concatenated(lines)) && SplitComplete(Concatenated(lines)) == LinesOf(lines)
  {
    hide SplitComplete;
    if lines == [] {
      SplitNothing();
    } else {
      var n := |lines| - 1;
      SplitAll(lines[..n]);
      SplitOne(Concatenated(lines[..n]), lines[n]);
      assert LinesOf(lines) == LinesOf(lines[..n]) + [lines[n].line];
    }
  }

  lemma SplitLast(before: string, last: string)
    requires Complete(before) && forall i :: 0 <= i < |last| ==> last[i] != '\n'
    ensures Split(before + last) == SplitComplete(before) + [last]
  {
    hide SplitComplete;
    var all := before + last;
    if before == [] {
      assert all == last && LastNewline(last).None?;
      SplitNothing();
    } else {
      LastNewlineIs(all, |before| - 1);
      assert all[..|before|] == before && all[|before|..] == last;
    }
  }

  /** Splitting a text gives back the lines it was put together from, with LF or CR LF after each, and
      then whatever follows the last of them. */
  lemma SplitIs(lines: seq<Ended>, last: string)
    requires (forall i :: 0 <= i < |lines| ==> IsLine(lines[i].line)) && forall i :: 0 <= i < |last| ==> last[i] != '\n'
    ensures Split(Concatenated(lines) + last) == LinesOf(lines) + [last]
  {
    hide SplitComplete;
    hide Split;
    hide Concatenated;
    SplitAll(lines);
    SplitLast(Concatenated(lines), last);
  }
}
