/** The audit file on disk: crash repair, rotation, the cached tail, and one append.

    Texts are sequences of characters, so sizes count characters. A stat is the size together with a
    modification time chosen by the environment at each write. */
module AuditStore {
  import opened Prelude
  import opened JsonText
  import opened CanonicalJson
  import opened AuditChain
  import opened AuditProof
  import opened AuditAppend

  datatype File = File(text: string, mtime: int)

  /** The files kept beside the live one. */
  datatype Name = Archive(stamp: string) | Torn(stamp: string) | Temp(stamp: string)

  datatype Disk = Disk(live: Option<File>, files: map<Name, string>)

  datatype Cache = Cache(sequence: int, hash: Js, size: nat, mtime: int)

  datatype Settings = Settings(signer: Option<Signer>, maxBytes: int)

  datatype StoreError = ParserThrew | ChainBroken | BadEnvelope

  /** `Stopped` is a crash, or a write that made no progress, part of the way through. */
  datatype Outcome = Done | Failed(error: StoreError) | Stopped

  datatype Turn = Turn(disk: Disk, cache: Option<Cache>, outcome: Outcome)

  /** How far the repair gets: characters written of the quarantine file, of the new text, or all. */
  datatype Progress = Quarantining(written: nat) | Rewriting(written: nat) | Finished

  /** What clock and disk contribute to a repair. */
  datatype RepairEnv = RepairEnv(stamp: string, quarantine: string, ts: string, summary: string, mtime: int,
                                 stop: Progress)

  datatype AppendEnv = AppendEnv(repair: RepairEnv, stamp: string, accepts: Accepts, mtime: int)

  /** How much of the rest of a buffer each call to write accepts; zero or less is no progress. */
  type Accepts = (nat, nat) -> int

  /** The characters written before the first call that makes no progress. */
  function Written(accepts: Accepts, offset: nat, size: nat): (k: nat)
    requires offset <= size
    ensures offset <= k <= size
    decreases size - offset
  {
    if offset == size then size
    else
      var n := accepts(offset, size - offset);
      if n <= 0 then offset
      else if n >= size - offset then size
      else Written(accepts, offset + n, size)
  }

  /** A write may stop after any number of characters. */
  lemma AnyCut(size: nat, k: nat) returns (accepts: Accepts)
    requires k <= size
    ensures Written(accepts, 0, size) == k
  {
    accepts := (offset, rest) => if offset == 0 then k else 0;
  }

  function Take(s: string, k: nat): string { if k < |s| then s[..k] else s }

  // ---------------------------------------------------------------- torn tails

  /** Everything up to and including the last newline. */
  function CompletePart(text: string): (r: string)
    ensures Complete(r) && r <= text
  {
    match LastNewline(text)
    case None => []
    case Some(i) => text[..i + 1]
  }

  function TornPart(text: string): string { text[|CompletePart(text)|..] }

  const REPAIR := "audit_repair"
  const SUMMARY := "summary"
  const DETAIL := "detail"
  const QUARANTINE := "quarantine"
  const TORN_BYTES := "tornBytes"
  const RESUMED := "resumedFromHash"

  function RepairDetail(env: RepairEnv, size: nat, head: Js): Js {
    Obj([Entry(QUARANTINE, Str(env.quarantine)), Entry(TORN_BYTES, Num(size)), Entry(RESUMED, head)])
  }

  function RepairEvent(env: RepairEnv, size: nat, head: Js): Js {
    Obj([Entry(TS, Str(env.ts)), Entry(TYPE, Str(REPAIR)), Entry(SUMMARY, Str(env.summary)),
         Entry(DETAIL, RepairDetail(env, size, head))])
  }

  function Repair(host: Host, settings: Settings, disk: Disk, cache: Option<Cache>, env: RepairEnv): Turn {
    if disk.live.None? || Complete(disk.live.value.text) then Turn(disk, cache, Done)
    else
      match Verify(host, CompletePart(disk.live.value.text))
      case None => Turn(disk, cache, Failed(ParserThrew))
      case Some(report) =>
        if !report.ok then Turn(disk, cache, Done)
        else RepairTorn(host, settings, disk, disk.live.value.text, cache, env, report)
  }

  /** Quarantine first, then the new text under a temporary name, then the rename. */
  function RepairTorn(host: Host, settings: Settings, disk: Disk, text: string, cache: Option<Cache>, env: RepairEnv,
                      report: Report)
    : Turn
  {
    var torn := TornPart(text);
    var kept := disk.files[Torn(env.stamp) := torn];
    if env.stop.Quarantining? then
      Turn(disk.(files := disk.files[Torn(env.stamp) := Take(torn, env.stop.written)]), cache, Stopped)
    else
      match CreateEnvelope(host, RepairEvent(env, |torn|, report.head), |report.envelopes| + 1, report.head,
                           NativeSource(), settings.signer)
      case Err(_) => Turn(disk.(files := kept), cache, Failed(BadEnvelope))
      case Ok(marker) =>
        var repaired := WithLine(CompletePart(text), Stringify(marker));
        if env.stop.Rewriting? then
          Turn(disk.(files := kept[Temp(env.stamp) := Take(repaired, env.stop.written)]), cache, Stopped)
        else Turn(Disk(Some(File(repaired, env.mtime)), kept - {Temp(env.stamp)}), None, Done)
  }

  // ---------------------------------------------------------------- rotation

  predicate Oversized(settings: Settings, disk: Disk) {
    disk.live.Some? && |disk.live.value.text| > settings.maxBytes
  }

  function Rotate(settings: Settings, disk: Disk, stamp: string): Disk {
    if Oversized(settings, disk) then Disk(None, disk.files[Archive(stamp) := disk.live.value.text]) else disk
  }

  // ---------------------------------------------------------------- the tail for the next record

  datatype Tail = Tail(sequence: int, hash: Js)

  predicate CacheMatches(cache: Option<Cache>, file: File) {
    cache.Some? && cache.value.size == |file.text| && cache.value.mtime == file.mtime
  }

  function LastTail(envelopes: seq<Js>): Tail {
    if envelopes == [] then Tail(0, Null)
    else
      var v := envelopes[|envelopes| - 1];
      Tail(if Field(v, SEQUENCE).Num? then Field(v, SEQUENCE).n else 0, HeadHash(envelopes))
  }

  /** The tail by a full parse of the live file. */
  function ParsedTail(host: Host, file: File): Result<Tail, StoreError> {
    match Verify(host, file.text)
    case None => Err(ParserThrew)
    case Some(report) => if report.ok then Ok(LastTail(report.envelopes)) else Err(ChainBroken)
  }

  function Remember(tail: Tail, file: File): Cache { Cache(tail.sequence, tail.hash, |file.text|, file.mtime) }

  /** The tail, from the cache when the stat matches it. */
  function ReadTail(host: Host, live: Option<File>, cache: Option<Cache>): Result<(Tail, Option<Cache>), StoreError> {
    if live.None? then Ok((Tail(0, Null), None))
    else if CacheMatches(cache, live.value) then Ok((Tail(cache.value.sequence, cache.value.hash), cache))
    else
      match ParsedTail(host, live.value)
      case Err(e) => Err(e)
      case Ok(tail) => Ok((tail, Some(Remember(tail, live.value))))
  }

  // ---------------------------------------------------------------- append

  function LiveText(disk: Disk): string { if disk.live.None? then [] else disk.live.value.text }

  /** The first `written` characters of the line and its newline reach the end of the file. */
  function Write(disk: Disk, line: string, written: nat, mtime: int): Disk {
    disk.(live := Some(File(LiveText(disk) + Take(line + ['\n'], written), mtime)))
  }

  /** The record to be written after `tail`. */
  function NextEnvelope(host: Host, settings: Settings, tail: Tail, event: Js): Result<Js, EnvelopeError> {
    CreateEnvelope(host, event, tail.sequence + 1, tail.hash, NativeSource(), settings.signer)
  }

  /** The write and the new cache, once the tail is known. */
  function WriteNext(host: Host, settings: Settings, disk: Disk, tail: Tail, cache: Option<Cache>, event: Js,
                     accepts: Accepts, mtime: int)
    : Turn
  {
    match NextEnvelope(host, settings, tail, event)
    case Err(_) => Turn(disk, cache, Failed(BadEnvelope))
    case Ok(envelope) =>
      var line := Stringify(envelope);
      var written := Written(accepts, 0, |line| + 1);
      var next := Write(disk, line, written, mtime);
      if written <= |line| then Turn(next, cache, Stopped)
      else
        Turn(next, Some(Cache(tail.sequence + 1, Field(envelope, RECORD), |next.live.value.text|, mtime)), Done)
  }

  /** After the repair: rotate, find the tail, write. */
  function AppendRepaired(host: Host, settings: Settings, disk: Disk, cache: Option<Cache>, event: Js,
                          env: AppendEnv): Turn {
    var rotated := Rotate(settings, disk, env.stamp);
    var cache' := if Oversized(settings, disk) then None else cache;
    match ReadTail(host, rotated.live, cache')
    case Err(e) => Turn(rotated, cache', Failed(e))
    case Ok((tail, cached)) => WriteNext(host, settings, rotated, tail, cached, event, env.accepts, env.mtime)
  }

  function Append(host: Host, settings: Settings, disk: Disk, cache: Option<Cache>, event: Js, env: AppendEnv): Turn {
    var repaired := Repair(host, settings, disk, cache, env.repair);
    if repaired.outcome != Done then repaired
    else AppendRepaired(host, settings, repaired.disk, repaired.cache, event, env)
  }

  // ---------------------------------------------------------------- texts and tails

  ghost function RecordsOf(text: string): seq<string> { Records(Split(text)) }

  ghost predicate TailOf(host: Host, text: string, tail: Tail) {
    ChainOk(host, text) && tail == Tail(|RecordsOf(text)|, Tip(host, RecordsOf(text)))
  }

  lemma CompletePartOf(raw: string, s: string)
    requires Complete(raw) && forall i :: 0 <= i < |s| ==> s[i] != '\n'
    ensures CompletePart(raw + s) == raw && TornPart(raw + s) == s
  {
    var text := raw + s;
    if raw == [] {
      assert text == s;
    } else {
      LastNewlineIs(text, |raw| - 1);
      assert text[..|raw|] == raw;
    }
  }

  lemma CompletePartOfComplete(text: string)
    requires Complete(text)
    ensures CompletePart(text) == text && TornPart(text) == []
  {
    assert text + [] == text;
    CompletePartOf(text, []);
  }

  /** What the verifier's report says of an accepted text. */
  lemma ReportOfAccepted(host: Host, text: string)
    requires ChainOk(host, text)
    ensures Verify(host, text).Some? && Verify(host, text).value.ok
    ensures var r := Verify(host, text).value;
            |r.envelopes| == |RecordsOf(text)| && r.head == Tip(host, RecordsOf(text))
            && LastTail(r.envelopes) == Tail(|RecordsOf(text)|, Tip(host, RecordsOf(text)))
  {
    hide Split;
    hide Verify;
    hide Linked;
    hide Tip;
    hide Field;
    VerifierIff(host, text);
    ReportTail(host, text);
  }

  lemma ReportTail(host: Host, text: string)
    requires ChainOk(host, text) && Verify(host, text).Some?
    ensures var e := Verify(host, text).value.envelopes;
            LastTail(e) == Tail(|RecordsOf(text)|, Verify(host, text).value.head)
                && HeadHash(e) == Verify(host, text).value.head
  {
    hide Split;
    hide Linked;
    hide Tip;
    hide Field;
    hide NoHardIssue;
    var lines := Split(text);
    ScanDecidesLinked(host, lines);
    assert START.(issues := FirstIssues(text)) == START;
    var st := ScanLines(host, START, lines).value;
    if RecordsOf(text) != [] {
      LastRecord(host, RecordsOf(text));
      assert host.parse(RecordsOf(text)[|RecordsOf(text)| - 1]) == Some(st.envelopes[|st.envelopes| - 1]);
    }
  }

  lemma LastRecord(host: Host, records: seq<string>)
    requires Linked(host, records) && records != []
    ensures host.parse(records[|records| - 1]).Some?
    ensures Field(host.parse(records[|records| - 1]).value, SEQUENCE) == Num(|records|)
  {
    hide Field;
    hide Tip;
    hide HashOf;
    hide SchemaOk;
  }

  lemma ParsedTailIs(host: Host, file: File)
    ensures ParsedTail(host, file).Ok? <==> ChainOk(host, file.text)
    ensures ParsedTail(host, file).Ok? ==> TailOf(host, file.text, ParsedTail(host, file).value)
  {
    hide ChainOk;
    hide Verify;
    hide LastTail;
    VerifierIff(host, file.text);
    if ChainOk(host, file.text) { ReportOfAccepted(host, file.text); }
  }
}
