/** What the audit verifier accepts, what an accepted head hash determines, and when an appended
    record keeps the chain accepted. */
module AuditProof {
  import opened Prelude
  import opened JsonText
  import opened CanonicalJson
  import opened AuditChain

  // ---------------------------------------------------------------- acceptance, declaratively

  /** Record number `sequence` is well formed, numbered by its position, linked and correctly hashed. */
  ghost predicate RecordOk(host: Host, line: string, sequence: nat, previous: Js) {
    && host.parse(line).Some?
    && var v := host.parse(line).value;
       && SchemaOk(v)
       && Field(v, SEQUENCE) == Num(sequence)
       && Field(v, PREVIOUS) == previous
       && Field(v, RECORD) == Str(HashOf(host, v))
       && (Truthy(Field(v, SIGNATURE)) && KnownSigner(host, v) ==> SignatureValid(host, v))
  }

  /** The hash the next record must name. */
  ghost function Tip(host: Host, records: seq<string>): Js {
    if records == [] then Null
    else
      match host.parse(records[|records| - 1])
      case None => Undefined
      case Some(v) => Field(v, RECORD)
  }

  ghost predicate Linked(host: Host, records: seq<string>) {
    records == [] ||
    (Linked(host, records[..|records| - 1])
     && RecordOk(host, records[|records| - 1], |records|, Tip(host, records[..|records| - 1])))
  }

  ghost predicate ChainOk(host: Host, raw: string) {
    Complete(raw) && Linked(host, Records(Split(raw)))
  }

  lemma TipIsHash(host: Host, records: seq<string>)
    requires Linked(host, records)
    ensures Tip(host, records).Null? || Tip(host, records).Str?
  {
  }

  // ---------------------------------------------------------------- the loop decides it

  ghost predicate Clear(host: Host, start: Scan, lines: seq<string>) {
    ScanLines(host, start, lines).Some? && NoHardIssue(ScanLines(host, start, lines).value.issues)
  }

  /** What a clear scan has established. */
  ghost predicate Tracks(host: Host, st: Scan, records: seq<string>) {
    && st.expected == Some(Num(|records| + 1)) && st.previous == Tip(host, records)
    && |st.envelopes| == |records|
    && forall i :: 0 <= i < |records| ==> host.parse(records[i]) == Some(st.envelopes[i])
  }

  lemma IssuesGrow(host: Host, st: Scan, line: string, number: nat)
    requires ScanLine(host, st, line, number).Some?
    ensures st.issues <= ScanLine(host, st, line, number).value.issues
  {
  }

  lemma TracksSnoc(host: Host, st: Scan, v: Js, number: nat, records: seq<string>, line: string)
    requires Tracks(host, st, records) && host.parse(line) == Some(v) && Field(v, SEQUENCE) == Num(|records| + 1)
    ensures Tracks(host, ScanRecord(host, st, v, number), records + [line])
  {
    hide Field;
    hide ChainIssues;
    hide KnownSigner;
    hide SignatureValid;
    assert (records + [line])[..|records|] == records;
  }

  lemma HardAfter(issues: seq<Issue>, number: nat, code: Code)
    requires code != UnknownSigner
    ensures !NoHardIssue(issues + [Issue(number, code)])
  {
    assert (issues + [Issue(number, code)])[|issues|].code == code;
  }

  /** One record passes without a hard issue exactly when it is in order. */
  lemma RecordStep(host: Host, st: Scan, line: string, number: nat, records: seq<string>)
    requires line != [] && Linked(host, records) && Tracks(host, st, records) && NoHardIssue(st.issues)
    ensures var next := ScanLine(host, st, line, number);
            next.Some? && NoHardIssue(next.value.issues) <==> RecordOk(host, line, |records| + 1, Tip(host, records))
    ensures RecordOk(host, line, |records| + 1, Tip(host, records)) ==>
              Tracks(host, ScanLine(host, st, line, number).value, records + [line])
  {
    hide SchemaOk;
    hide HashOf;
    hide SignatureValid;
    hide KnownSigner;
    hide Field;
    hide Truthy;
    hide Linked;
    hide Tip;
    hide NoHardIssue;
    hide ScanRecord;
    hide Tracks;
    TipIsHash(host, records);
    var p := host.parse(line);
    if p.None? {
      HardAfter(st.issues, number, InvalidJson);
    } else {
      SchemaNeedsObject(p.value);
      if !SchemaOk(p.value) {
        HardAfter(st.issues, number, InvalidSchema);
      } else {
        SchemaRecordStep(host, st, p.value, number, records);
        if RecordOk(host, line, |records| + 1, Tip(host, records)) {
          TracksSnoc(host, st, p.value, number, records, line);
        }
      }
    }
  }

  lemma SchemaNeedsObject(v: Js)
    ensures SchemaOk(v) ==> v.Obj?
  {
  }

  lemma SchemaRecordStep(host: Host, st: Scan, v: Js, number: nat, records: seq<string>)
    requires Tracks(host, st, records) && NoHardIssue(st.issues)
    requires Tip(host, records).Null? || Tip(host, records).Str?
    ensures NoHardIssue(ScanRecord(host, st, v, number).issues) <==>
              && Field(v, SEQUENCE) == Num(|records| + 1) && Field(v, PREVIOUS) == Tip(host, records)
              && Field(v, RECORD) == Str(HashOf(host, v))
              && (Truthy(Field(v, SIGNATURE)) && KnownSigner(host, v) ==> SignatureValid(host, v))
  {
    hide HashOf;
    hide SignatureValid;
    hide KnownSigner;
    hide Field;
    hide Truthy;
    hide NoHardIssue;
    hide IssueIf;
    hide Tip;
    var signed := Truthy(Field(v, SIGNATURE));
    var unknown := signed && !KnownSigner(host, v);
    var bad := signed && !unknown && !(signed && !unknown && SignatureValid(host, v));
    IssuesClear(st.issues, !Expected(st, Field(v, SEQUENCE)), !StrictEqual(Field(v, PREVIOUS), st.previous),
                Field(v, RECORD) != Str(HashOf(host, v)), unknown, bad, number);
  }

  lemma IssuesClear(issues: seq<Issue>, a: bool, b: bool, c: bool, unknown: bool, bad: bool, number: nat)
    ensures NoHardIssue(issues
                        + (IssueIf(a, number, InvalidSequence) + IssueIf(b, number, InvalidPreviousHash)
                           + IssueIf(c, number, InvalidRecordHash))
                        + IssueIf(unknown, number, UnknownSigner) + IssueIf(bad, number, InvalidSignature))
            <==> NoHardIssue(issues) && !a && !b && !c && !bad
  {
    hide NoHardIssue;
    hide IssueIf;
    var x, y, z := IssueIf(a, number, InvalidSequence), IssueIf(b, number, InvalidPreviousHash),
        IssueIf(c, number, InvalidRecordHash);
    var soft, hard := IssueIf(unknown, number, UnknownSigner), IssueIf(bad, number, InvalidSignature);
    NoHardSplits(issues + (x + y + z) + soft, hard);
    NoHardSplits(issues + (x + y + z), soft);
    NoHardSplits(issues, x + y + z);
    NoHardSplits(x + y, z);
    NoHardSplits(x, y);
    HardIf(a, number, InvalidSequence);
    HardIf(b, number, InvalidPreviousHash);
    HardIf(c, number, InvalidRecordHash);
    HardIf(unknown, number, UnknownSigner);
    HardIf(bad, number, InvalidSignature);
  }

  lemma HardIf(condition: bool, number: nat, code: Code)
    ensures NoHardIssue(IssueIf(condition, number, code)) <==> !condition || code == UnknownSigner
  {
    if condition { assert IssueIf(condition, number, code)[0].code == code; }
  }

  lemma NoHardSplits(a: seq<Issue>, b: seq<Issue>)
    ensures NoHardIssue(a + b) <==> NoHardIssue(a) && NoHardIssue(b)
  {
    assert forall i :: 0 <= i < |a| ==> a[i] == (a + b)[i];
    assert forall i :: 0 <= i < |b| ==> b[i] == (a + b)[|a| + i];
  }

  lemma {:induction false} ScanDecidesLinked(host: Host, lines: seq<string>)
    ensures Clear(host, START, lines) <==> Linked(host, Records(lines))
    ensures Clear(host, START, lines) ==> Tracks(host, ScanLines(host, START, lines).value, Records(lines))
  {
    hide ScanLine;
    hide RecordOk;
    hide NoHardIssue;
    hide Tip;
    if lines == [] {
      NothingScanned(host);
    } else {
      var before, line := lines[..|lines| - 1], lines[|lines| - 1];
      ScanDecidesLinked(host, before);
      if line == [] {
        EmptyLineSkipped(host, START, lines);
      } else {
        RecordsSnoc(host, lines);
        if Clear(host, START, before) {
          RecordStep(host, ScanLines(host, START, before).value, line, |lines|, Records(before));
        } else if ScanLines(host, START, lines).Some? {
          StillHard(host, ScanLines(host, START, before).value, line, |lines|);
        }
      }
    }
  }

  lemma NothingScanned(host: Host)
    ensures Clear(host, START, []) && Linked(host, []) && Tracks(host, START, [])
  {
  }

  lemma RecordsSnoc(host: Host, lines: seq<string>)
    requires lines != [] && lines[|lines| - 1] != []
    ensures Records(lines) == Records(lines[..|lines| - 1]) + [lines[|lines| - 1]]
    ensures Linked(host, Records(lines)) <==>
              var before := Records(lines[..|lines| - 1]);
              Linked(host, before) && RecordOk(host, lines[|lines| - 1], |before| + 1, Tip(host, before))
  {
    hide RecordOk;
    hide Tip;
    var all := Records(lines);
    assert all[..|all| - 1] == Records(lines[..|lines| - 1]);
  }

  lemma StillHard(host: Host, st: Scan, line: string, number: nat)
    requires ScanLine(host, st, line, number).Some? && !NoHardIssue(st.issues)
    ensures !NoHardIssue(ScanLine(host, st, line, number).value.issues)
  {
    hide ScanLine;
    IssuesGrow(host, st, line, number);
    var i :| 0 <= i < |st.issues| && st.issues[i].code != UnknownSigner;
    assert ScanLine(host, st, line, number).value.issues[i] == st.issues[i];
  }

  lemma EmptyLineSkipped(host: Host, start: Scan, lines: seq<string>)
    requires lines != [] && lines[|lines| - 1] == []
    ensures ScanLines(host, start, lines) == ScanLines(host, start, lines[..|lines| - 1])
    ensures Records(lines) == Records(lines[..|lines| - 1])
  {
  }

  lemma {:induction false} HardStartStaysHard(host: Host, start: Scan, lines: seq<string>)
    requires !NoHardIssue(start.issues)
    ensures !Clear(host, start, lines)
  {
    hide ScanLine;
    if lines != [] {
      var before := lines[..|lines| - 1];
      HardStartStaysHard(host, start, before);
      if ScanLines(host, start, lines).Some? {
        IssuesGrow(host, ScanLines(host, start, before).value, lines[|lines| - 1], |lines|);
      }
    }
  }

  lemma HeadOfScan(host: Host, st: Scan, records: seq<string>)
    requires Tracks(host, st, records) && (Tip(host, records).Null? || Tip(host, records).Str?)
    ensures HeadHash(st.envelopes) == Tip(host, records)
  {
    hide Field;
  }

  /** On a complete text the scan starts clean. */
  lemma CompleteVerify(host: Host, raw: string)
    requires Complete(raw)
    ensures Verify(host, raw) ==
            match ScanLines(host, START, Split(raw))
            case None => None
            case Some(st) =>
              Some(Report(NoHardIssue(st.issues), st.envelopes, HeadHash(st.envelopes), st.issues,
                          st.signed, st.verified, st.unverified))
  {
    hide ScanLines;
    hide Split;
    hide HeadHash;
    hide NoHardIssue;
    assert START.(issues := FirstIssues(raw)) == START;
  }

  lemma IncompleteVerify(host: Host, raw: string)
    requires !Complete(raw)
    ensures !(Verify(host, raw).Some? && Verify(host, raw).value.ok)
  {
    hide ScanLines;
    hide Split;
    hide HeadHash;
    assert FirstIssues(raw)[0].code == InvalidJson;
    HardStartStaysHard(host, START.(issues := FirstIssues(raw)), Split(raw));
  }

  /** The verifier, which resynchronises after every bad record, reports success exactly for the
      texts whose every record is numbered by position, linked to the one before and hashed right. */
  lemma VerifierIff(host: Host, raw: string)
    ensures Verify(host, raw).Some? && Verify(host, raw).value.ok <==> ChainOk(host, raw)
    ensures ChainOk(host, raw) ==>
              var r := Verify(host, raw).value;
              |r.envelopes| == |Records(Split(raw))| && r.head == Tip(host, Records(Split(raw)))
  {
    hide Split;
    hide Verify;
    hide ScanLines;
    hide Linked;
    hide Tip;
    hide HeadHash;
    hide NoHardIssue;
    var lines := Split(raw);
    ScanDecidesLinked(host, lines);
    if Complete(raw) {
      CompleteVerify(host, raw);
      if ChainOk(host, raw) {
        TipIsHash(host, Records(lines));
        HeadOfScan(host, ScanLines(host, START, lines).value, Records(lines));
      }
    } else {
      IncompleteVerify(host, raw);
    }
  }

  // ---------------------------------------------------------------- the head hash determines the log

  ghost predicate HashIsInjective(host: Host) {
    forall a, b :: host.hash(a) == host.hash(b) ==> a == b
  }

  /** Parsed values are ones JSON can express. */
  ghost predicate ParsesToJson(host: Host) {
    forall s :: host.parse(s).Some? ==> Plain(host.parse(s).value) && WellFormed(host.parse(s).value)
  }

  ghost predicate SameContent(host: Host, a: string, b: string) {
    && host.parse(a).Some? && host.parse(b).Some?
    && Reordered(Field(host.parse(a).value, EVENT), Field(host.parse(b).value, EVENT))
    && Reordered(Field(host.parse(a).value, SOURCE), Field(host.parse(b).value, SOURCE))
  }

  lemma LookupMember(members: seq<Entry<Js>>, key: string)
    requires Lookup(members, key) != Undefined
    ensures exists m :: m in members && m.key == key && m.value == Lookup(members, key)
  {
    if members[0].key == key {
      assert members[0] in members;
    } else {
      LookupMember(members[1..], key);
      var m :| m in members[1..] && m.key == key && m.value == Lookup(members[1..], key);
      assert m in members;
    }
  }

  lemma FieldIsPlain(v: Js, key: string)
    requires Plain(v) && WellFormed(v) && Field(v, key) != Undefined
    ensures Plain(Field(v, key)) && WellFormed(Field(v, key))
  {
    LookupMember(v.members, key);
  }

  lemma SameSlotReordered(s: seq<Entry<Js>>, t: seq<Entry<Js>>, i: nat)
    requires Reordered(Obj(s), Obj(t)) && i < |s| && i < |t| && s[i].key == t[i].key
    ensures Reordered(s[i].value, t[i].value)
  {
  }

  lemma HashInputReordered(a: Js, b: Js, c: Js, d: Js, a': Js, b': Js, c': Js, d': Js)
    requires Reordered(HashInput(a, b, c, d), HashInput(a', b', c', d'))
    ensures Reordered(a, a') && Reordered(b, b') && Reordered(c, c') && Reordered(d, d')
  {
    hide Reordered;
    var s, t := HashInput(a, b, c, d).members, HashInput(a', b', c', d').members;
    SameSlotReordered(s, t, 1);
    SameSlotReordered(s, t, 2);
    SameSlotReordered(s, t, 3);
    SameSlotReordered(s, t, 4);
  }

  ghost predicate Json(v: Js) { Plain(v) && WellFormed(v) }

  lemma HashInputKeys(sequence: Js, previous: Js, event: Js, source: Js)
    ensures DistinctKeys(HashInput(sequence, previous, event, source).members)
  {
    assert |SCHEMA| == 13 && |SEQUENCE| == 8 && |PREVIOUS| == 12 && |EVENT| == 5 && |SOURCE| == 6;
  }

  lemma HashInputIsJson(sequence: Js, previous: Js, event: Js, source: Js)
    requires Json(sequence) && Json(previous) && Json(event) && Json(source)
    ensures Json(HashInput(sequence, previous, event, source))
  {
    HashInputKeys(sequence, previous, event, source);
  }

  ghost predicate Filled(v: Js) {
    && Json(Field(v, SEQUENCE)) && Json(Field(v, PREVIOUS)) && Json(Field(v, EVENT)) && Json(Field(v, SOURCE))
  }

  lemma EqualCanonicalReordered(le: Order, a: Js, b: Js)
    requires Json(a) && Json(b) && Canonical(le, a) == Canonical(le, b)
    ensures Reordered(a, b)
  {
    SortedFormsEqual(le, a, b);
    EqualSortedReordered(le, a, b);
  }

  lemma EqualHashesEqualFields(host: Host, a: Js, b: Js)
    requires HashIsInjective(host) && HashOf(host, a) == HashOf(host, b) && Filled(a) && Filled(b)
    ensures Reordered(Field(a, SEQUENCE), Field(b, SEQUENCE)) && Reordered(Field(a, PREVIOUS), Field(b, PREVIOUS))
    ensures Reordered(Field(a, EVENT), Field(b, EVENT)) && Reordered(Field(a, SOURCE), Field(b, SOURCE))
  {
    hide Field;
    hide Json;
    hide Canonical;
    hide Reordered;
    hide HashInput;
    HashInputIsJson(Field(a, SEQUENCE), Field(a, PREVIOUS), Field(a, EVENT), Field(a, SOURCE));
    HashInputIsJson(Field(b, SEQUENCE), Field(b, PREVIOUS), Field(b, EVENT), Field(b, SOURCE));
    EqualCanonicalReordered(host.le, HashInput(Field(a, SEQUENCE), Field(a, PREVIOUS), Field(a, EVENT),
                                               Field(a, SOURCE)),
                            HashInput(Field(b, SEQUENCE), Field(b, PREVIOUS), Field(b, EVENT), Field(b, SOURCE)));
    HashInputReordered(Field(a, SEQUENCE), Field(a, PREVIOUS), Field(a, EVENT), Field(a, SOURCE),
                       Field(b, SEQUENCE), Field(b, PREVIOUS), Field(b, EVENT), Field(b, SOURCE));
  }

  lemma RecordIsFilled(host: Host, line: string, sequence: nat, previous: Js)
    requires ParsesToJson(host) && RecordOk(host, line, sequence, previous) && previous != Undefined
    ensures Filled(host.parse(line).value)
  {
    hide Field;
    hide HashOf;
    hide SignatureValid;
    hide KnownSigner;
    hide Plain;
    hide WellFormed;
    var v := host.parse(line).value;
    SchemaFields(v);
    FieldIsPlain(v, SEQUENCE);
    FieldIsPlain(v, PREVIOUS);
    FieldIsPlain(v, EVENT);
    FieldIsPlain(v, SOURCE);
  }

  lemma ScalarsReordered(a: Js, b: Js)
    requires Reordered(a, b) && !a.Arr? && !a.Obj?
    ensures a == b
  {
  }

  /** Two accepted records with the same hash say the same. */
  lemma EqualTipsEqualRecords(host: Host, a: string, b: string, m: nat, n: nat, p: Js, q: Js)
    requires HashIsInjective(host) && ParsesToJson(host)
    requires RecordOk(host, a, m, p) && RecordOk(host, b, n, q)
    requires Field(host.parse(a).value, RECORD) == Field(host.parse(b).value, RECORD)
    requires p.Null? || p.Str?
    requires q.Null? || q.Str?
    ensures m == n && p == q && SameContent(host, a, b)
  {
    hide Field;
    hide HashOf;
    hide SignatureValid;
    hide KnownSigner;
    hide SchemaOk;
    hide Reordered;
    hide Filled;
    hide HashIsInjective;
    var v, w := host.parse(a).value, host.parse(b).value;
    RecordIsFilled(host, a, m, p);
    RecordIsFilled(host, b, n, q);
    EqualHashesEqualFields(host, v, w);
    ScalarsReordered(Field(v, SEQUENCE), Field(w, SEQUENCE));
    ScalarsReordered(Field(v, PREVIOUS), Field(w, PREVIOUS));
  }

  /** With a collision-free hash, two accepted chains with the same head hash hold the same records:
      equally many, with equal events and sources up to the order of members. */
  lemma {:induction false} HeadDeterminesLog(host: Host, a: seq<string>, b: seq<string>)
    requires HashIsInjective(host) && ParsesToJson(host)
    requires Linked(host, a) && Linked(host, b) && Tip(host, a) == Tip(host, b)
    ensures |a| == |b| && forall i :: 0 <= i < |a| ==> SameContent(host, a[i], b[i])
  {
    hide SameContent;
    hide HashIsInjective;
    hide ParsesToJson;
    hide RecordOk;
    hide Tip;
    TipNull(host, a);
    TipNull(host, b);
    if a != [] && b != [] {
      var m, n := |a| - 1, |b| - 1;
      TipIsHash(host, a[..m]);
      TipIsHash(host, b[..n]);
      TipOfLast(host, a);
      TipOfLast(host, b);
      EqualTipsEqualRecords(host, a[m], b[n], |a|, |b|, Tip(host, a[..m]), Tip(host, b[..n]));
      HeadDeterminesLog(host, a[..m], b[..n]);
      forall i | 0 <= i < |a| ensures SameContent(host, a[i], b[i]) {
        if i < m { assert a[i] == a[..m][i] && b[i] == b[..n][i]; }
      }
    }
  }

  lemma TipNull(host: Host, records: seq<string>)
    requires Linked(host, records)
    ensures Tip(host, records).Null? <==> records == []
  {
  }

  lemma TipOfLast(host: Host, records: seq<string>)
    requires records != [] && Linked(host, records)
    ensures host.parse(records[|records| - 1]).Some?
    ensures Tip(host, records) == Field(host.parse(records[|records| - 1]).value, RECORD)
  {
  }

  lemma SchemaFields(v: Js)
    requires SchemaOk(v)
    ensures Field(v, EVENT) != Undefined && Field(v, SOURCE) != Undefined
  {
  }
}
