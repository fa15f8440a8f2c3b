/** Importing a legacy audit log: line-by-line verification, then one linked envelope per event. */
module AuditMigration {
  import opened Prelude
  import opened JsonText
  import opened CanonicalJson
  import opened AuditChain
  import opened AuditProof
  import opened AuditAppend
  import opened AuditStore
  import opened AuditRecovery

  const SHA := "legacyFileSha256"
  const LINE := "legacyLine"
  const MIGRATED := "migratedAt"

  function LegacySource(sha: string, line: nat, at: string): Js {
    Obj([Entry(KIND, Str(LEGACY)), Entry(SHA, Str(sha)), Entry(LINE, Num(line)), Entry(MIGRATED, Str(at))])
  }

  /** The issue lines, in order of discovery. */
  datatype LegacyReport = LegacyReport(ok: bool, records: nat, sha256: string, issues: seq<nat>)

  datatype MigrationError = LegacyInvalid(line: nat) | TooLong

  datatype Migration = Migration(source: LegacyReport, envelopes: seq<Js>, jsonl: string)

  // ---------------------------------------------------------------- specification

  predicate LegacyLineOk(host: Host, line: string) {
    host.parse(line).Some? && EventShape(host.parse(line).value)
  }

  function LegacyIssues(host: Host, lines: seq<string>): seq<nat> {
    if lines == [] then []
    else
      var line := lines[|lines| - 1];
      LegacyIssues(host, lines[..|lines| - 1]) + (if line == [] || LegacyLineOk(host, line) then [] else [|lines|])
  }

  function LegacyCount(host: Host, lines: seq<string>): nat {
    if lines == [] then 0
    else
      var line := lines[|lines| - 1];
      LegacyCount(host, lines[..|lines| - 1]) + (if line != [] && LegacyLineOk(host, line) then 1 else 0)
  }

  function VerifyLegacy(host: Host, raw: string): LegacyReport {
    var issues := (if Complete(raw) then [] else [|Split(raw)|]) + LegacyIssues(host, Split(raw));
    LegacyReport(issues == [], LegacyCount(host, Split(raw)), host.hash(raw), issues)
  }

  function Import(host: Host, sha: string, at: string, envelopes: seq<Js>, line: string, number: nat)
    : Result<seq<Js>, MigrationError>
  {
    if line == [] then Ok(envelopes)
    else
      match host.parse(line)
      case None => Err(LegacyInvalid(number))
      case Some(event) =>
        match CreateEnvelope(host, event, |envelopes| + 1, HeadHash(envelopes), LegacySource(sha, number, at), None)
        case Err(_) => Err(TooLong)
        case Ok(envelope) => Ok(envelopes + [envelope])
  }

  function ImportAll(host: Host, sha: string, at: string, lines: seq<string>): Result<seq<Js>, MigrationError> {
    if lines == [] then Ok([])
    else
      match ImportAll(host, sha, at, lines[..|lines| - 1])
      case Err(e) => Err(e)
      case Ok(envelopes) => Import(host, sha, at, envelopes, lines[|lines| - 1], |lines|)
  }

  function Join(texts: seq<string>): string {
    if texts == [] then []
    else if |texts| == 1 then texts[0]
    else Join(texts[..|texts| - 1]) + ['\n'] + texts[|texts| - 1]
  }

  function Texts(envelopes: seq<Js>): seq<string> {
    seq(|envelopes|, i requires 0 <= i < |envelopes| => Stringify(envelopes[i]))
  }

  function Jsonl(envelopes: seq<Js>): string { if envelopes == [] then [] else Join(Texts(envelopes)) + ['\n'] }

  function Migrate(host: Host, raw: string, at: string): Result<Migration, MigrationError> {
    var source := VerifyLegacy(host, raw);
    if !source.ok then Err(LegacyInvalid(if source.issues == [] then 0 else source.issues[0]))
    else
      match ImportAll(host, source.sha256, at, Split(raw))
      case Err(e) => Err(e)
      case Ok(envelopes) => Ok(Migration(source, envelopes, Jsonl(envelopes)))
  }

  // ---------------------------------------------------------------- the loops

  method VerifyLegacyAuditLog(host: Host, raw: string) returns (r: LegacyReport)
    ensures r == VerifyLegacy(host, raw)
  {
    hide Split;
    hide EventShape;
    var lines := Split(raw);
    var records := 0;
    var issues: seq<nat> := [];
    if raw != [] && raw[|raw| - 1] != '\n' { issues := [|lines|]; }
    ghost var first := issues;
    for index := 0 to |lines|
      invariant issues == first + LegacyIssues(host, lines[..index]) && records == LegacyCount(host, lines[..index])
    {
      assert lines[..index + 1][..index] == lines[..index];
      if lines[index] == [] { continue; }
      var parsed := host.parse(lines[index]);
      if parsed.None? || !EventShape(parsed.value) {
        issues := issues + [index + 1];
        continue;
      }
      records := records + 1;
    }
    assert lines[..|lines|] == lines;
    r := LegacyReport(issues == [], records, host.hash(raw), issues);
  }

  method MigrateLegacyAuditLog(host: Host, raw: string, at: string) returns (r: Result<Migration, MigrationError>)
    ensures r == Migrate(host, raw, at)
  {
    hide Split;
    hide CreateEnvelope;
    hide VerifyLegacy;
    hide LegacySource;
    hide Jsonl;
    var source := VerifyLegacyAuditLog(host, raw);
    if !source.ok { return Err(LegacyInvalid(if source.issues == [] then 0 else source.issues[0])); }
    var envelopes: seq<Js> := [];
    var previous := Null;
    var sequence := 1;
    var lines := Split(raw);
    assert lines[..0] == [];
    for index := 0 to |lines|
      invariant ImportAll(host, source.sha256, at, lines[..index]) == Ok(envelopes)
      invariant sequence == |envelopes| + 1 && previous == HeadHash(envelopes)
    {
      assert lines[..index + 1][..index] == lines[..index];
      if lines[index] == [] { continue; }
      var parsed := host.parse(lines[index]);
      if parsed.None? {
        ImportStops(host, source.sha256, at, lines, index + 1);
        return Err(LegacyInvalid(index + 1));
      }
      var made := CreateEnvelope(host, parsed.value, sequence, previous, LegacySource(source.sha256, index + 1, at),
                                 None);
      if made.Err? {
        ImportStops(host, source.sha256, at, lines, index + 1);
        return Err(TooLong);
      }
      CreatedHash(host, parsed.value, sequence, previous, LegacySource(source.sha256, index + 1, at), None);
      envelopes := envelopes + [made.value];
      previous := Field(made.value, RECORD);
      sequence := sequence + 1;
    }
    assert lines[..|lines|] == lines;
    r := Ok(Migration(source, envelopes, Jsonl(envelopes)));
  }

  lemma CreatedHash(host: Host, event: Js, sequence: int, previous: Js, source: Js, signer: Option<Signer>)
    ensures var made := CreateEnvelope(host, event, sequence, previous, source, signer);
            made.Ok? ==> Field(made.value, RECORD) == Str(RecordHash(host, Num(sequence), previous, event, source))
  {
    hide RecordHash;
    hide Field;
    hide Envelope;
    EnvelopeHash(host, sequence, previous, event, source, signer);
  }

  lemma {:induction false} ImportStops(host: Host, sha: string, at: string, lines: seq<string>, n: nat)
    requires n <= |lines| && ImportAll(host, sha, at, lines[..n]).Err?
    ensures ImportAll(host, sha, at, lines) == ImportAll(host, sha, at, lines[..n])
    decreases |lines| - n
  {
    hide Import;
    if n < |lines| {
      assert lines[..n + 1][..n] == lines[..n];
      ImportStops(host, sha, at, lines, n + 1);
    } else {
      assert lines[..n] == lines;
    }
  }

  // ---------------------------------------------------------------- what migration gives

  ghost predicate LegacyRecordsOk(host: Host, records: seq<string>) {
    forall i :: 0 <= i < |records| ==> LegacyLineOk(host, records[i])
  }

  lemma {:induction false} NoIssuesIff(host: Host, lines: seq<string>)
    ensures LegacyIssues(host, lines) == [] <==> LegacyRecordsOk(host, Records(lines))
    ensures LegacyIssues(host, lines) == [] ==> LegacyCount(host, lines) == |Records(lines)|
  {
    hide LegacyLineOk;
    if lines != [] {
      var before, line := lines[..|lines| - 1], lines[|lines| - 1];
      NoIssuesIff(host, before);
      assert line == [] ==> Records(lines) == Records(before);
      if line != [] {
        var all := Records(lines);
        assert all == Records(before) + [line] && all[|all| - 1] == line;
        assert forall i :: 0 <= i < |all| - 1 ==> all[i] == Records(before)[i];
      }
    }
  }

  /** The legacy verifier reports success exactly for complete texts whose every record is an event. */
  lemma LegacyVerifierIff(host: Host, raw: string)
    ensures VerifyLegacy(host, raw).ok <==> Complete(raw) && LegacyRecordsOk(host, Records(Split(raw)))
    ensures VerifyLegacy(host, raw).ok ==> VerifyLegacy(host, raw).records == |Records(Split(raw))|
  {
    hide Split;
    hide LegacyRecordsOk;
    NoIssuesIff(host, Split(raw));
  }

  ghost function ParsedOf(host: Host, records: seq<string>): seq<Js> {
    if records == [] then []
    else
      ParsedOf(host, records[..|records| - 1])
      + [match host.parse(records[|records| - 1]) case None => Undefined case Some(v) => v]
  }

  lemma LegacySourceShape(sha: string, line: nat, at: string)
    ensures SourceShape(LegacySource(sha, line, at))
  {
    var members := LegacySource(sha, line, at).members;
    assert |KIND| == 4 && |SHA| == 16 && |LINE| == 10 && |MIGRATED| == 10 && LINE[0] != MIGRATED[0];
    assert DistinctKeys(members);
    LookupAt(members, 0);
    forall i | 0 <= i < |members| ensures Json(members[i].value) {
      assert i == 0 || i == 1 || i == 2 || i == 3;
    }
  }

  lemma JsonlSnoc(envelopes: seq<Js>, envelope: Js)
    ensures Jsonl(envelopes + [envelope]) == WithLine(Jsonl(envelopes), Stringify(envelope))
  {
    hide Stringify;
    var all := Texts(envelopes + [envelope]);
    assert all[..|all| - 1] == Texts(envelopes);
    assert all[|all| - 1] == Stringify(envelope);
  }

  /** What has been imported so far: an accepted chain showing the legacy events in order. */
  ghost predicate ImportedOk(host: Host, envelopes: seq<Js>, records: seq<string>) {
    && ChainOk(host, Jsonl(envelopes)) && |RecordsOf(Jsonl(envelopes))| == |envelopes|
    && Tip(host, RecordsOf(Jsonl(envelopes))) == HeadHash(envelopes)
    && EventsIn(host, Jsonl(envelopes)) == ParsedOf(host, records)
    && RecordsOf(Jsonl(envelopes)) == Texts(envelopes)
  }

  lemma TextsSnoc(envelopes: seq<Js>, envelope: Js)
    ensures Texts(envelopes + [envelope]) == Texts(envelopes) + [Stringify(envelope)]
  {
    hide Stringify;
  }

  /** One imported line adds one accepted record showing the line's event. */
  lemma ImportLine(host: Host, sha: string, at: string, envelopes: seq<Js>, records: seq<string>, line: string,
                   number: nat)
    requires Parses(host) && ParsesToJson(host) && ImportedOk(host, envelopes, records) && line != []
             && LegacyLineOk(host, line)
    requires Import(host, sha, at, envelopes, line, number).Ok?
    ensures ImportedOk(host, Import(host, sha, at, envelopes, line, number).value, records + [line])
  {
    hide Split;
    hide Linked;
    hide Envelope;
    hide RecordHash;
    hide NoUndefinedMember;
    hide Field;
    hide Sealed;
    hide EventsOf;
    hide Jsonl;
    hide EventShape;
    hide LegacySource;
    hide SourceShape;
    hide Plain;
    hide WellFormed;
    hide Parses;
    var event := host.parse(line).value;
    var source := LegacySource(sha, number, at);
    var raw := Jsonl(envelopes);
    var n, tip := |envelopes| + 1, Tip(host, RecordsOf(raw));
    var text := WrittenLineOf(host, n, tip, event, source, None);
    LegacySourceShape(sha, number, at);
    CleanOfPlain(event);
    PlainIsUndefinedFree(event);
    TipIsHash(host, RecordsOf(raw));
    WrittenAccepted(host, raw, event, source, None);
    JsonlSnoc(envelopes, Envelope(host, n, tip, event, source, None));
    TextsSnoc(envelopes, Envelope(host, n, tip, event, source, None));
    EventsSnoc(host, RecordsOf(raw), text);
    SealedFields(Num(n), tip, Clean(event), source, RecordHash(host, Num(n), tip, event, source), None);
    EnvelopeHash(host, n, tip, event, source, None);
    assert (records + [line])[..|records|] == records;
  }

  lemma {:induction false} ImportAllOk(host: Host, sha: string, at: string, lines: seq<string>)
    requires Parses(host) && ParsesToJson(host) && LegacyRecordsOk(host, Records(lines))
    ensures ImportAll(host, sha, at, lines).Ok? <==> |Records(lines)| <= MAX_SAFE
    ensures ImportAll(host, sha, at, lines).Ok? ==>
              ImportedOk(host, ImportAll(host, sha, at, lines).value, Records(lines))
              && |ImportAll(host, sha, at, lines).value| == |Records(lines)|
  {
    hide LegacyLineOk;
    hide ImportedOk;
    hide Parses;
    hide ParsesToJson;
    hide Import;
    if lines == [] {
      NothingImported(host);
    } else {
      var before, line := lines[..|lines| - 1], lines[|lines| - 1];
      var all := Records(lines);
      assert Records(before) == all[..|Records(before)|];
      assert line == [] ==> all == Records(before);
      ImportAllOk(host, sha, at, before);
      if ImportAll(host, sha, at, before).Ok? {
        var envelopes := ImportAll(host, sha, at, before).value;
        ImportSucceeds(host, sha, at, envelopes, line, |lines|);
        if line != [] {
          assert all == Records(before) + [line] && all[|all| - 1] == line;
          if |envelopes| < MAX_SAFE {
            ImportLine(host, sha, at, envelopes, Records(before), line, |lines|);
          }
        }
      }
    }
  }

  lemma NothingImported(host: Host)
    ensures ImportedOk(host, [], [])
  {
    EmptyAccepted(host);
  }

  lemma ImportSucceeds(host: Host, sha: string, at: string, envelopes: seq<Js>, line: string, number: nat)
    ensures line == [] ==> Import(host, sha, at, envelopes, line, number) == Ok(envelopes)
    ensures line != [] && LegacyLineOk(host, line) ==>
              (Import(host, sha, at, envelopes, line, number).Ok? <==> |envelopes| < MAX_SAFE)
    ensures line != [] && LegacyLineOk(host, line) && |envelopes| < MAX_SAFE ==>
              |Import(host, sha, at, envelopes, line, number).value| == |envelopes| + 1
  {
  }

  /** Migration succeeds exactly for complete legacy logs whose every record is an event (and that are
      not longer than a safe integer can number); what it writes is an accepted chain with one record
      for each legacy record, showing the legacy events in order. */
  lemma MigrationAccepted(host: Host, raw: string, at: string)
    requires Parses(host) && ParsesToJson(host)
    ensures var records := Records(Split(raw));
            && (Migrate(host, raw, at).Ok? <==>
                Complete(raw) && LegacyRecordsOk(host, records) && |records| <= MAX_SAFE)
            && (Migrate(host, raw, at).Ok? ==>
                  var m := Migrate(host, raw, at).value;
                  && ChainOk(host, m.jsonl) && |m.envelopes| == |RecordsOf(m.jsonl)| == |records|
                  && EventsIn(host, m.jsonl) == ParsedOf(host, records)
                  && RecordsOf(m.jsonl) == Texts(m.envelopes))
  {
    hide Split;
    hide LegacyRecordsOk;
    hide VerifyLegacy;
    hide ImportAll;
    hide ChainOk;
    hide Jsonl;
    hide EventsIn;
    LegacyVerifierIff(host, raw);
    if VerifyLegacy(host, raw).ok {
      ImportAllOk(host, VerifyLegacy(host, raw).sha256, at, Split(raw));
    }
  }

  // ---------------------------------------------------------------- what is wrong, and what comes from where

  /** The issues are the lines that hold no event, and the last line if the log is incomplete. */
  lemma LegacyIssuesAre(host: Host, raw: string, n: nat)
    ensures var lines := Split(raw);
            n in VerifyLegacy(host, raw).issues <==>
            || (n == |lines| && raw != [] && raw[|raw| - 1] != '\n')
            || (1 <= n <= |lines| && lines[n - 1] != [] && !HoldsEvent(host, lines[n - 1]))
    ensures VerifyLegacy(host, raw).sha256 == host.hash(raw)
  {
    hide Split;
    hide HoldsEvent;
    IssueLines(host, Split(raw), n);
  }

  ghost predicate HoldsEvent(host: Host, line: string) {
    && host.parse(line).Some?
    && Field(host.parse(line).value, "ts").Str? && Field(host.parse(line).value, "type").Str?
  }

  lemma {:induction false} IssueLines(host: Host, lines: seq<string>, n: nat)
    ensures n in LegacyIssues(host, lines) <==>
            1 <= n <= |lines| && lines[n - 1] != [] && !HoldsEvent(host, lines[n - 1])
  {
    hide Field;
    if lines != [] {
      IssueLines(host, lines[..|lines| - 1], n);
    }
  }

  /** The numbers of the lines that are not empty. */
  function RecordLines(lines: seq<string>): seq<nat> {
    if lines == [] then []
    else RecordLines(lines[..|lines| - 1]) + (if lines[|lines| - 1] == [] then [] else [|lines|])
  }

  /** They ascend, and are where the records stand. */
  lemma {:induction false} RecordLinesAre(lines: seq<string>)
    ensures |RecordLines(lines)| == |Records(lines)|
    ensures forall i :: 0 <= i < |Records(lines)| ==>
              1 <= RecordLines(lines)[i] <= |lines| && lines[RecordLines(lines)[i] - 1] == Records(lines)[i]
    ensures forall i, j :: 0 <= i < j < |RecordLines(lines)| ==> RecordLines(lines)[i] < RecordLines(lines)[j]
  {
    if lines != [] {
      var before := lines[..|lines| - 1];
      RecordLinesAre(before);
      assert forall i :: 0 <= i < |before| ==> before[i] == lines[i];
    }
  }

  /** The envelope holds the event of a legacy line under its number, and says which file and line it
      came from, and when it was imported. */
  ghost predicate ComesFrom(host: Host, envelope: Js, number: int, line: string, lineNumber: nat, sha: string,
                            at: string) {
    && Field(envelope, "sequence") == Num(number) && host.parse(line) == Some(Field(envelope, "event"))
    && Field(Field(envelope, "source"), "kind") == Str("legacy-v1-import")
    && Field(Field(envelope, "source"), "legacyFileSha256") == Str(sha)
    && Field(Field(envelope, "source"), "legacyLine") == Num(lineNumber)
    && Field(Field(envelope, "source"), "migratedAt") == Str(at)
  }

  lemma LegacySourceFields(sha: string, line: nat, at: string)
    ensures var source := LegacySource(sha, line, at);
            && Field(source, "kind") == Str("legacy-v1-import") && Field(source, "legacyFileSha256") == Str(sha)
            && Field(source, "legacyLine") == Num(line) && Field(source, "migratedAt") == Str(at)
  {
    hide Lookup;
    var members := LegacySource(sha, line, at).members;
    assert |KIND| == 4 && |SHA| == 16 && |LINE| == 10 && |MIGRATED| == 10 && LINE[0] != MIGRATED[0];
    assert DistinctKeys(members);
    LookupAt(members, 0);
    LookupAt(members, 1);
    LookupAt(members, 2);
    LookupAt(members, 3);
  }

  lemma ImportComesFrom(host: Host, sha: string, at: string, envelopes: seq<Js>, line: string, number: nat)
    requires line != [] && Import(host, sha, at, envelopes, line, number).Ok?
    ensures var after := Import(host, sha, at, envelopes, line, number).value;
            && |after| == |envelopes| + 1 && envelopes <= after
            && ComesFrom(host, after[|envelopes|], |envelopes| + 1, line, number, sha, at)
  {
    hide Sealed;
    hide Field;
    hide RecordHash;
    hide LegacySource;
    var event := host.parse(line).value;
    var source := LegacySource(sha, number, at);
    SealedFields(Num(|envelopes| + 1), HeadHash(envelopes), event, source,
                 RecordHash(host, Num(|envelopes| + 1), HeadHash(envelopes), event, source), None);
    LegacySourceFields(sha, number, at);
  }

  lemma {:induction false} ImportedFrom(host: Host, sha: string, at: string, lines: seq<string>)
    requires ImportAll(host, sha, at, lines).Ok?
    ensures var envelopes := ImportAll(host, sha, at, lines).value;
            && |envelopes| == |RecordLines(lines)| == |Records(lines)|
            && forall i :: 0 <= i < |envelopes| ==>
                 ComesFrom(host, envelopes[i], i + 1, Records(lines)[i], RecordLines(lines)[i], sha, at)
  {
    hide ComesFrom;
    hide Import;
    if lines != [] {
      var before, line := lines[..|lines| - 1], lines[|lines| - 1];
      ImportedFrom(host, sha, at, before);
      var envelopes := ImportAll(host, sha, at, before).value;
      if line == [] {
        ImportSucceeds(host, sha, at, envelopes, line, |lines|);
      } else {
        ImportComesFrom(host, sha, at, envelopes, line, |lines|);
      }
    }
  }

  /** Every migrated envelope holds one legacy event, numbered by its place among the records, and names
      the digest of the whole legacy text, the event's own line in it, and the time of the migration. */
  lemma MigratedFrom(host: Host, raw: string, at: string)
    requires Migrate(host, raw, at).Ok?
    ensures var envelopes := Migrate(host, raw, at).value.envelopes;
            var lines := Split(raw);
            && |envelopes| == |Records(lines)| == |RecordLines(lines)|
            && forall i :: 0 <= i < |envelopes| ==>
                 ComesFrom(host, envelopes[i], i + 1, Records(lines)[i], RecordLines(lines)[i], host.hash(raw), at)
  {
    hide Split;
    hide ComesFrom;
    hide ImportAll;
    hide Jsonl;
    ImportedFrom(host, host.hash(raw), at, Split(raw));
  }
}
