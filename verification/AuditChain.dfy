/** The hash-chained audit log: envelopes, the verifier loop, and what acceptance means. */
module AuditChain {
  import opened Prelude
  import opened JsonText
  import opened CanonicalJson

  /** `JSON.parse`, how a structure shows as a string, adding one to a fraction, key order, SHA-256
      (with its `sha256:` prefix), and signature checking. */
  datatype Host = Host(
    parse: string -> Option<Js>,
    display: Js -> string,
    increment: Numeral -> Js,
    le: Order,
    hash: string -> string,
    keys: set<string>,
    verifies: (string, string, string) -> bool)

  /** Parsing inverts printing on values JSON can express. */
  ghost predicate Parses(host: Host) {
    forall v :: Plain(v) && WellFormed(v) ==> host.parse(Text(v)) == Some(v)
  }

  datatype Signer = Signer(keyId: string, sign: string -> string)

  ghost predicate SignerTrusted(host: Host, signer: Option<Signer>) {
    signer.Some? && signer.value.keyId in host.keys ==>
      forall h :: host.verifies(signer.value.keyId, h, signer.value.sign(h))
  }

  const SCHEMA := "schemaVersion"
  const SEQUENCE := "sequence"
  const PREVIOUS := "previousHash"
  const EVENT := "event"
  const SOURCE := "source"
  const RECORD := "recordHash"
  const SIGNATURE := "signature"
  const KIND := "kind"
  const TS := "ts"
  const TYPE := "type"
  const KEY_ID := "keyId"
  const VALUE := "value"
  const ALGORITHM := "algorithm"
  const NATIVE := "native-v2"
  const LEGACY := "legacy-v1-import"
  const ED25519 := "ed25519"

  // ---------------------------------------------------------------- fields

  ghost predicate FirstWith(members: seq<Entry<Js>>, key: string, i: nat) {
    i < |members| && members[i].key == key && forall j :: 0 <= j < i ==> members[j].key != key
  }

  function Lookup(members: seq<Entry<Js>>, key: string): (r: Js)
    ensures forall i :: 0 <= i < |members| && FirstWith(members, key, i) ==> r == members[i].value
    ensures (forall i :: 0 <= i < |members| ==> members[i].key != key) ==> r == Undefined
  {
    if members == [] then Undefined
    else if members[0].key == key then members[0].value
    else
      assert forall i :: 1 <= i < |members| ==> members[i] == members[1..][i - 1];
      Lookup(members[1..], key)
  }

  /** Property access on a parsed value; anything but an object has none of these properties. */
  function Field(v: Js, key: string): Js { if v.Obj? then Lookup(v.members, key) else Undefined }

  predicate Truthy(v: Js) {
    match v
    case Undefined => false
    case Null => false
    case Bool(b) => b
    case Num(n) => n != 0
    case Str(s) => s != []
    case _ => true
  }

  /** Strict equality: structures parsed separately are never identical. */
  predicate StrictEqual(a: Js, b: Js) { a == b && !a.Arr? && !a.Obj? }

  predicate EventShape(event: Js) {
    Field(event, TS).Str? && Field(event, TYPE).Str?
  }

  predicate SchemaOk(v: Js) {
    && Field(v, SCHEMA) == Num(2)
    && EventShape(Field(v, EVENT))
    && (Field(Field(v, SOURCE), KIND) == Str(NATIVE) || Field(Field(v, SOURCE), KIND) == Str(LEGACY))
  }

  function HashInput(sequence: Js, previous: Js, event: Js, source: Js): Js {
    Obj([Entry(SCHEMA, Num(2)), Entry(SEQUENCE, sequence), Entry(PREVIOUS, previous), Entry(EVENT, event),
         Entry(SOURCE, source)])
  }

  function RecordHash(host: Host, sequence: Js, previous: Js, event: Js, source: Js): string {
    host.hash(Canonical(host.le, HashInput(sequence, previous, event, source)))
  }

  function HashOf(host: Host, v: Js): string {
    RecordHash(host, Field(v, SEQUENCE), Field(v, PREVIOUS), Field(v, EVENT), Field(v, SOURCE))
  }

  predicate KnownSigner(host: Host, v: Js) {
    Field(Field(v, SIGNATURE), KEY_ID).Str? && Field(Field(v, SIGNATURE), KEY_ID).s in host.keys
  }

  predicate SignatureValid(host: Host, v: Js) {
    var s := Field(v, SIGNATURE);
    && Field(s, KEY_ID).Str? && Field(v, RECORD).Str? && Field(s, VALUE).Str?
    && host.verifies(Field(s, KEY_ID).s, Field(v, RECORD).s, Field(s, VALUE).s)
  }

  // ---------------------------------------------------------------- lines

  function LastNewline(raw: string): (r: Option<nat>)
    ensures r.Some? ==> r.value < |raw| && raw[r.value] == '\n' && forall k :: r.value < k < |raw| ==> raw[k] != '\n'
    ensures r.None? ==> forall k :: 0 <= k < |raw| ==> raw[k] != '\n'
  {
    if raw == [] then None
    else if raw[|raw| - 1] == '\n' then Some(|raw| - 1)
    else LastNewline(raw[..|raw| - 1])
  }

  function DropReturn(line: string): string {
    if line != [] && line[|line| - 1] == '\r' then line[..|line| - 1] else line
  }

  /** Split at LF or CR LF: every newline ends a line, and what follows the last one is a line too. */
  function Split(raw: string): (r: seq<string>)
    ensures |r| >= 1
    decreases |raw|
  {
    match LastNewline(raw)
    case None => [raw]
    case Some(i) => SplitComplete(raw[..i + 1]) + [raw[i + 1..]]
  }

  /** The lines of a text that is empty or ends in a newline. */
  function SplitComplete(raw: string): seq<string>
    decreases |raw|, 0
  {
    if raw == [] then []
    else
      var body := raw[..|raw| - 1];
      match LastNewline(body)
      case None => [DropReturn(body)]
      case Some(i) => SplitComplete(body[..i + 1]) + [DropReturn(body[i + 1..])]
  }

  predicate Complete(raw: string) { raw == [] || raw[|raw| - 1] == '\n' }

  function Records(lines: seq<string>): seq<string> {
    if lines == [] then []
    else Records(lines[..|lines| - 1]) + (if lines[|lines| - 1] == [] then [] else [lines[|lines| - 1]])
  }

  // ---------------------------------------------------------------- the verifier

  datatype Code =
    | InvalidJson | InvalidSchema | InvalidSequence | InvalidPreviousHash | InvalidRecordHash
    | UnknownSigner | InvalidSignature

  datatype Issue = Issue(line: nat, code: Code)

  datatype Scan = Scan(
    envelopes: seq<Js>, expected: Option<Js>, previous: Js, issues: seq<Issue>,
    signed: nat, verified: nat, unverified: nat)

  const START := Scan([], Some(Num(1)), Null, [], 0, 0, 0)

  /** What `sequence + 1` gives: a sum for numbers, booleans and null, a longer string for the rest;
      nothing for an absent sequence, where it is not a number and equals no value. */
  function Successor(host: Host, v: Js): Option<Js> {
    match v
    case Undefined => None
    case Null => Some(Num(1))
    case Bool(b) => Some(Num(if b then 2 else 1))
    case Num(n) => Some(Num(n + 1))
    case Frac(f) => Some(host.increment(f))
    case Str(s) => Some(Str(s + ['1']))
    case _ => Some(Str(host.display(v) + ['1']))
  }

  predicate Expected(st: Scan, v: Js) { st.expected.Some? && StrictEqual(v, st.expected.value) }

  function IssueIf(condition: bool, line: nat, code: Code): seq<Issue> { if condition then [Issue(line, code)] else [] }

  function ChainIssues(host: Host, st: Scan, v: Js, number: nat): seq<Issue> {
    IssueIf(!Expected(st, Field(v, SEQUENCE)), number, InvalidSequence)
    + IssueIf(!StrictEqual(Field(v, PREVIOUS), st.previous), number, InvalidPreviousHash)
    + IssueIf(Field(v, RECORD) != Str(HashOf(host, v)), number, InvalidRecordHash)
  }

  /** One line. A line holding a bare null makes the source throw: no result. */
  function ScanLine(host: Host, st: Scan, line: string, number: nat): Option<Scan> {
    if line == [] then Some(st)
    else
      match host.parse(line)
      case None => Some(st.(issues := st.issues + [Issue(number, InvalidJson)]))
      case Some(v) =>
        if v == Null then None
        else if !SchemaOk(v) then Some(st.(issues := st.issues + [Issue(number, InvalidSchema)]))
        else Some(ScanRecord(host, st, v, number))
  }

  function ScanRecord(host: Host, st: Scan, v: Js, number: nat): Scan {
    var signed := Truthy(Field(v, SIGNATURE));
    var unknown := signed && !KnownSigner(host, v);
    var valid := signed && !unknown && SignatureValid(host, v);
    Scan(st.envelopes + [v], Successor(host, Field(v, SEQUENCE)), Field(v, RECORD),
         st.issues + ChainIssues(host, st, v, number)
         + IssueIf(unknown, number, UnknownSigner) + IssueIf(signed && !unknown && !valid, number, InvalidSignature),
         st.signed + (if signed then 1 else 0), st.verified + (if valid then 1 else 0),
         st.unverified + (if unknown then 1 else 0))
  }

  function ScanLines(host: Host, start: Scan, lines: seq<string>): Option<Scan> {
    if lines == [] then Some(start)
    else
      match ScanLines(host, start, lines[..|lines| - 1])
      case None => None
      case Some(st) => ScanLine(host, st, lines[|lines| - 1], |lines|)
  }

  predicate NoHardIssue(issues: seq<Issue>) { forall i :: 0 <= i < |issues| ==> issues[i].code == UnknownSigner }

  datatype Report = Report(ok: bool, envelopes: seq<Js>, head: Js, issues: seq<Issue>, signed: nat, verified: nat,
                           unverified: nat)

  function FirstIssues(raw: string): seq<Issue> {
    if Complete(raw) then [] else [Issue(|Split(raw)|, InvalidJson)]
  }

  function HeadHash(envelopes: seq<Js>): Js {
    if envelopes == [] || Field(envelopes[|envelopes| - 1], RECORD) == Undefined then Null
    else Field(envelopes[|envelopes| - 1], RECORD)
  }

  /** The verification report; nothing when the source would throw. */
  function Verify(host: Host, raw: string): Option<Report> {
    match ScanLines(host, START.(issues := FirstIssues(raw)), Split(raw))
    case None => None
    case Some(st) =>
      Some(Report(NoHardIssue(st.issues), st.envelopes, HeadHash(st.envelopes), st.issues, st.signed, st.verified,
                  st.unverified))
  }

  /** The checks on one schema-valid record, in the order the source makes them. */
  method CheckRecord(host: Host, st: Scan, v: Js, number: nat) returns (next: Scan)
    ensures next == ScanRecord(host, st, v, number)
  {
    hide HashOf;
    hide SignatureValid;
    hide KnownSigner;
    var chain: seq<Issue> := [];
    if !Expected(st, Field(v, SEQUENCE)) { chain := chain + [Issue(number, InvalidSequence)]; }
    if !StrictEqual(Field(v, PREVIOUS), st.previous) { chain := chain + [Issue(number, InvalidPreviousHash)]; }
    if Field(v, RECORD) != Str(HashOf(host, v)) { chain := chain + [Issue(number, InvalidRecordHash)]; }
    assert chain == ChainIssues(host, st, v, number);
    var issues := st.issues + chain;
    var signed, verified, unverified := st.signed, st.verified, st.unverified;
    if Truthy(Field(v, SIGNATURE)) {
      signed := signed + 1;
      if !KnownSigner(host, v) {
        unverified := unverified + 1;
        issues := issues + [Issue(number, UnknownSigner)];
      } else if SignatureValid(host, v) {
        verified := verified + 1;
      } else {
        issues := issues + [Issue(number, InvalidSignature)];
      }
    }
    next := Scan(st.envelopes + [v], Successor(host, Field(v, SEQUENCE)), Field(v, RECORD), issues, signed, verified,
                 unverified);
    assert next.issues == ScanRecord(host, st, v, number).issues;
  }

  /** The verifier loop. After a bad record it resumes from what that record says of itself. */
  method ParseAuditChain(host: Host, raw: string) returns (r: Option<Report>)
    ensures r == Verify(host, raw)
  {
    hide SchemaOk;
    hide ScanRecord;
    hide Split;
    var lines := Split(raw);
    var st := START;
    if raw != [] && raw[|raw| - 1] != '\n' { st := st.(issues := [Issue(|lines|, InvalidJson)]); }
    ghost var start := st;
    assert start == START.(issues := FirstIssues(raw)) && lines[..0] == [];
    for index := 0 to |lines|
      invariant ScanLines(host, start, lines[..index]) == Some(st)
    {
      assert lines[..index + 1][..index] == lines[..index];
      if lines[index] == [] { continue; }
      var parsed := host.parse(lines[index]);
      if parsed.None? {
        st := st.(issues := st.issues + [Issue(index + 1, InvalidJson)]);
      } else if parsed.value == Null {
        ScanThrows(host, start, lines, index + 1);
        return None;
      } else if !SchemaOk(parsed.value) {
        st := st.(issues := st.issues + [Issue(index + 1, InvalidSchema)]);
      } else {
        st := CheckRecord(host, st, parsed.value, index + 1);
      }
    }
    assert lines[..|lines|] == lines;
    r := Some(Report(NoHardIssue(st.issues), st.envelopes, HeadHash(st.envelopes), st.issues,
                     st.signed, st.verified, st.unverified));
  }

  lemma {:induction false} ScanThrows(host: Host, start: Scan, lines: seq<string>, n: nat)
    requires n <= |lines| && ScanLines(host, start, lines[..n]).None?
    ensures ScanLines(host, start, lines).None?
    decreases |lines| - n
  {
    if n < |lines| {
      assert lines[..n + 1][..n] == lines[..n];
      ScanThrows(host, start, lines, n + 1);
    } else {
      assert lines[..n] == lines;
    }
  }
}
