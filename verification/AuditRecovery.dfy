/** One turn at the audit file: what a repair recovers, and what an append leaves, wherever it stops. */
module AuditRecovery {
  import opened Prelude
  import opened JsonText
  import opened CanonicalJson
  import opened AuditChain
  import opened AuditProof
  import opened AuditAppend
  import opened AuditStore

  ghost predicate Good(host: Host, settings: Settings) { Parses(host) && SignerTrusted(host, settings.signer) }

  ghost predicate GoodEvent(event: Js) { WellFormed(event) && EventShape(event) && NoUndefinedMember(event) }

  /** There is no live file, or its complete part is an accepted chain. */
  ghost predicate Healthy(host: Host, disk: Disk) { ChainOk(host, CompletePart(LiveText(disk))) }

  ghost function EventOf(host: Host, line: string): Js {
    match host.parse(line)
    case None => Undefined
    case Some(v) => Field(v, EVENT)
  }

  ghost function EventsOf(host: Host, records: seq<string>): (r: seq<Js>)
    ensures |r| == |records|
  {
    seq(|records|, i requires 0 <= i < |records| => EventOf(host, records[i]))
  }

  /** The events a text shows, in order. */
  ghost function EventsIn(host: Host, text: string): seq<Js> { EventsOf(host, RecordsOf(text)) }

  lemma EventsSnoc(host: Host, records: seq<string>, line: string)
    ensures EventsOf(host, records + [line]) == EventsOf(host, records) + [EventOf(host, line)]
  {
    assert forall i :: 0 <= i < |records| ==> (records + [line])[i] == records[i];
  }

  lemma EmptyAccepted(host: Host)
    ensures ChainOk(host, []) && RecordsOf([]) == [] && EventsIn(host, []) == [] && Tip(host, []) == Null
  {
    SplitOfComplete([]);
    SplitNothing();
    assert Split([]) == [[]];
  }

  // ---------------------------------------------------------------- writing after an accepted text

  function LineAfter(host: Host, sequence: int, hash: Js, event: Js, signer: Option<Signer>): string {
    WrittenLineOf(host, sequence, hash, event, NativeSource(), signer)
  }

  lemma LineIsOneLine(host: Host, sequence: int, hash: Js, event: Js, signer: Option<Signer>)
    ensures var line := LineAfter(host, sequence, hash, event, signer); OneLine(line) && line != []
  {
    hide Envelope;
    hide OneLine;
    hide Text;
    TextOneLine(Clean(Envelope(host, sequence, hash, event, NativeSource(), signer)));
  }

  lemma EventOfWritten(host: Host, line: string, sequence: int, hash: Js, event: Js, signer: Option<Signer>)
    requires host.parse(line) == Some(ReadBack(host, sequence, hash, event, NativeSource(), signer))
    ensures EventOf(host, line) == Clean(event)
  {
    hide RecordHash;
    hide Field;
    hide Sealed;
    SealedFields(Num(sequence), hash, Clean(event), NativeSource(),
                 RecordHash(host, Num(sequence), hash, event, NativeSource()), signer);
  }

  lemma ReadyToWrite(host: Host, settings: Settings, raw: string, event: Js)
    requires Good(host, settings) && GoodEvent(event) && ChainOk(host, raw)
    ensures EventShape(event) && NoUndefinedMember(event)
    ensures Ready(host, Tip(host, RecordsOf(raw)), event, NativeSource(), settings.signer)
  {
    hide Split;
    hide Tip;
    hide Linked;
    hide SourceShape;
    hide EventShape;
    hide NoUndefinedMember;
    TipIsHash(host, RecordsOf(raw));
    NativeSourceShape();
  }

  /** One more accepted record, showing the event as JSON keeps it. */
  lemma WriteAccepted(host: Host, settings: Settings, raw: string, event: Js)
    requires Good(host, settings) && GoodEvent(event) && ChainOk(host, raw)
    ensures var records := RecordsOf(raw);
            var line := LineAfter(host, |records| + 1, Tip(host, records), event, settings.signer);
            && OneLine(line) && line != []
            && ChainOk(host, WithLine(raw, line)) && RecordsOf(WithLine(raw, line)) == records + [line]
            && EventsIn(host, WithLine(raw, line)) == EventsIn(host, raw) + [Clean(event)]
            && Tip(host, records + [line]) == Str(RecordHash(host, Num(|records| + 1), Tip(host, records), event,
                                                             NativeSource()))
  {
    hide Split;
    hide ChainOk;
    hide Tip;
    hide Stringify;
    hide RecordHash;
    hide ReadBack;
    hide EventsOf;
    hide EventOf;
    hide OneLine;
    hide Ready;
    hide Good;
    hide GoodEvent;
    var records := RecordsOf(raw);
    var tip := Tip(host, records);
    var line := LineAfter(host, |records| + 1, tip, event, settings.signer);
    ReadyToWrite(host, settings, raw, event);
    WrittenAccepted(host, raw, event, NativeSource(), settings.signer);
    LineIsOneLine(host, |records| + 1, tip, event, settings.signer);
    EventsSnoc(host, records, line);
    EventOfWritten(host, line, |records| + 1, tip, event, settings.signer);
  }

  // ---------------------------------------------------------------- repair

  lemma RepairEventJson(env: RepairEnv, size: nat, head: Js)
    requires head.Null? || head.Str?
    ensures Json(RepairEvent(env, size, head))
  {
    hide RepairDetail;
    RepairDetailJson(env, size, head);
    RepairEventKeys(env, size, head);
    var members := RepairEvent(env, size, head).members;
    forall i | 0 <= i < |members| ensures Json(members[i].value) {
      assert i == 0 || i == 1 || i == 2 || i == 3;
    }
  }

  lemma RepairEventGood(env: RepairEnv, size: nat, head: Js)
    requires head.Null? || head.Str?
    ensures GoodEvent(RepairEvent(env, size, head))
            && Clean(RepairEvent(env, size, head)) == RepairEvent(env, size, head)
  {
    hide RepairDetail;
    hide Lookup;
    hide Plain;
    hide NoUndefinedMember;
    hide Clean;
    hide WellFormed;
    RepairEventJson(env, size, head);
    RepairEventKeys(env, size, head);
    var event := RepairEvent(env, size, head);
    LookupAt(event.members, 0);
    LookupAt(event.members, 1);
    PlainIsUndefinedFree(event);
    CleanOfPlain(event);
  }

  lemma RepairDetailJson(env: RepairEnv, size: nat, head: Js)
    requires head.Null? || head.Str?
    ensures Json(RepairDetail(env, size, head))
  {
    assert |QUARANTINE| == 10 && |TORN_BYTES| == 9 && |RESUMED| == 15;
    DistinctByLength(RepairDetail(env, size, head).members);
  }

  lemma RepairEventKeys(env: RepairEnv, size: nat, head: Js)
    ensures DistinctKeys(RepairEvent(env, size, head).members)
  {
    assert |TS| == 2 && |TYPE| == 4 && |SUMMARY| == 7 && |DETAIL| == 6;
    DistinctByLength(RepairEvent(env, size, head).members);
  }

  /** The repaired text: the complete part and one marker linked after it. */
  ghost function RepairedText(host: Host, settings: Settings, text: string, env: RepairEnv): string {
    var records := RecordsOf(CompletePart(text));
    var tip := Tip(host, records);
    WithLine(CompletePart(text), LineAfter(host, |records| + 1, tip, RepairEvent(env, |TornPart(text)|, tip),
                                           settings.signer))
  }

  ghost function MarkerEvent(host: Host, text: string, env: RepairEnv): Js {
    RepairEvent(env, |TornPart(text)|, Tip(host, RecordsOf(CompletePart(text))))
  }

  lemma RepairedTextAccepted(host: Host, settings: Settings, text: string, env: RepairEnv)
    requires Good(host, settings) && ChainOk(host, CompletePart(text))
    ensures var repaired := RepairedText(host, settings, text, env);
            && ChainOk(host, repaired)
            && |RecordsOf(repaired)| == |RecordsOf(CompletePart(text))| + 1
            && RecordsOf(CompletePart(text)) <= RecordsOf(repaired)
            && EventsIn(host, repaired) == EventsIn(host, CompletePart(text)) + [MarkerEvent(host, text, env)]
  {
    hide Split;
    hide Tip;
    hide Linked;
    hide Clean;
    hide GoodEvent;
    hide Good;
    hide WithLine;
    hide CompletePart;
    hide TornPart;
    hide EventsOf;
    var raw := CompletePart(text);
    TipIsHash(host, RecordsOf(raw));
    RepairEventGood(env, |TornPart(text)|, Tip(host, RecordsOf(raw)));
    WriteAccepted(host, settings, raw, MarkerEvent(host, text, env));
  }

  /** Repair on a torn file whose complete part is accepted, in terms of `RepairedText`. */
  lemma RepairOfTorn(host: Host, settings: Settings, disk: Disk, cache: Option<Cache>, env: RepairEnv)
    requires disk.live.Some? && !Complete(disk.live.value.text) && ChainOk(host, CompletePart(disk.live.value.text))
    ensures var t := Repair(host, settings, disk, cache, env);
            var text := disk.live.value.text;
            && (t.outcome.Done? ==>
                  && t.cache.None? && t.disk.live == Some(File(RepairedText(host, settings, text, env), env.mtime))
                  && t.disk.files == disk.files[Torn(env.stamp) := TornPart(text)] - {Temp(env.stamp)})
            && (!t.outcome.Done? ==> t.disk.live == disk.live && t.cache == cache)
            && (t.outcome.Done? <==> env.stop.Finished? && |RecordsOf(CompletePart(text))| + 1 <= MAX_SAFE)
            && (t.outcome.Failed? ==> MAX_SAFE < |RecordsOf(CompletePart(text))| + 1)
  {
    hide Split;
    hide Linked;
    hide Tip;
    hide Complete;
    hide CompletePart;
    hide TornPart;
    hide Envelope;
    hide LastTail;
    hide Verify;
    hide WithLine;
    hide Stringify;
    hide RepairEvent;
    hide NativeSource;
    ReportOfAccepted(host, CompletePart(disk.live.value.text));
  }

  /** The complete part does not verify, so nothing is changed at all. */
  lemma DamageUntouched(host: Host, settings: Settings, disk: Disk, cache: Option<Cache>, env: RepairEnv)
    requires disk.live.Some? && !ChainOk(host, CompletePart(disk.live.value.text))
    ensures var t := Repair(host, settings, disk, cache, env);
            t.disk == disk && t.cache == cache && !t.outcome.Stopped?
  {
    hide ChainOk;
    hide Verify;
    VerifierIff(host, CompletePart(disk.live.value.text));
  }

  /** A repair that runs to its end: the file verifies, every complete record is still there in order,
      followed by one linked marker; the torn text is quarantined; a second repair does nothing. */
  lemma RepairRecovers(host: Host, settings: Settings, disk: Disk, cache: Option<Cache>, env: RepairEnv)
    requires Good(host, settings) && disk.live.Some? && !Complete(disk.live.value.text)
    requires ChainOk(host, CompletePart(disk.live.value.text)) && Repair(host, settings, disk, cache, env).outcome.Done?
    ensures var t := Repair(host, settings, disk, cache, env);
            var text := disk.live.value.text;
            && t.disk.live.Some?
            && var after := t.disk.live.value.text;
            && ChainOk(host, after)
            && |RecordsOf(after)| == |RecordsOf(CompletePart(text))| + 1
               && RecordsOf(CompletePart(text)) <= RecordsOf(after)
            && EventsIn(host, after) == EventsIn(host, CompletePart(text)) + [MarkerEvent(host, text, env)]
            && Torn(env.stamp) in t.disk.files && t.disk.files[Torn(env.stamp)] == TornPart(text)
            && (forall n <- disk.files :: n != Torn(env.stamp) && n != Temp(env.stamp) ==>
                n in t.disk.files && t.disk.files[n] == disk.files[n])
            && forall settings', cache', env' ::
                 Repair(host, settings', t.disk, cache', env') == Turn(t.disk, cache', Done)
  {
    hide RepairTorn;
    hide RepairedText;
    hide Verify;
    hide Linked;
    hide Split;
    hide EventsIn;
    hide MarkerEvent;
    hide Good;
    RepairOfTorn(host, settings, disk, cache, env);
    RepairedTextAccepted(host, settings, disk.live.value.text, env);
  }

  /** A repair that stops anywhere leaves the live file and every archive as they were, so the next
      repair starts from the same text. */
  lemma StoppedRepairLosesNothing(host: Host, settings: Settings, disk: Disk, cache: Option<Cache>, env: RepairEnv)
    requires disk.live.Some? && ChainOk(host, CompletePart(disk.live.value.text))
    requires !Repair(host, settings, disk, cache, env).outcome.Done?
    ensures Repair(host, settings, disk, cache, env).disk.live == disk.live
  {
    hide ChainOk;
    hide RepairTorn;
    hide Verify;
    hide CompletePart;
    RepairOfTorn(host, settings, disk, cache, env);
  }

  lemma RepairKeepsArchives(host: Host, settings: Settings, disk: Disk, cache: Option<Cache>, env: RepairEnv)
    ensures var after := Repair(host, settings, disk, cache, env).disk.files;
            forall n: Name :: n.Archive? ==>
              (n in after <==> n in disk.files) && (n in after ==> after[n] == disk.files[n])
  {
    hide Verify;
    hide CompletePart;
    hide TornPart;
    hide CreateEnvelope;
    hide Stringify;
    hide RepairEvent;
  }

  // ---------------------------------------------------------------- the write

  lemma TakeOfLine(line: string, k: nat)
    requires OneLine(line)
    ensures k <= |line| ==> OneLine(Take(line + ['\n'], k))
    ensures |line| < k ==> Take(line + ['\n'], k) == line + ['\n']
  {
  }

  /** Wherever a write stops, the complete part is the old text, or the old text and the whole record. */
  lemma WriteLeaves(raw: string, line: string, k: nat)
    requires Complete(raw) && OneLine(line)
    ensures CompletePart(raw + Take(line + ['\n'], k)) == if k <= |line| then raw else WithLine(raw, line)
  {
    hide CompletePart;
    TakeOfLine(line, k);
    if k <= |line| {
      CompletePartOf(raw, Take(line + ['\n'], k));
    } else {
      assert raw + (line + ['\n']) == WithLine(raw, line);
      CompletePartOfComplete(WithLine(raw, line));
    }
  }

  /** The cache describes the live file. */
  ghost predicate CacheCurrent(host: Host, t: Turn) {
    && t.cache.Some? && t.disk.live.Some? && CacheMatches(t.cache, t.disk.live.value)
    && TailOf(host, t.disk.live.value.text, Tail(t.cache.value.sequence, t.cache.value.hash))
  }

  /** The write of the record after `tail`, spelled out. */
  lemma WriteNextShape(host: Host, settings: Settings, disk: Disk, tail: Tail, cache: Option<Cache>, event: Js,
                       accepts: Accepts, mtime: int)
    requires 0 <= tail.sequence
    ensures var t := WriteNext(host, settings, disk, tail, cache, event, accepts, mtime);
            var line := LineAfter(host, tail.sequence + 1, tail.hash, event, settings.signer);
            var written := Written(accepts, 0, |line| + 1);
            && t.disk.files == disk.files
            && (t.outcome.Failed? <==> MAX_SAFE < tail.sequence + 1)
            && (t.outcome.Failed? ==> t == Turn(disk, cache, t.outcome))
            && (!t.outcome.Failed? ==> t.disk.live == Some(File(LiveText(disk) + Take(line + ['\n'], written), mtime)))
            && (t.outcome.Stopped? ==> t.cache == cache && written <= |line|)
            && (t.outcome.Done? ==>
                  && |line| < written
                  && t.cache == Some(Cache(tail.sequence + 1,
                                           Str(RecordHash(host, Num(tail.sequence + 1), tail.hash, event,
                                                          NativeSource())),
                                           |LiveText(t.disk)|, mtime)))
  {
    hide Envelope;
    hide RecordHash;
    hide Field;
    hide NativeSource;
    hide Stringify;
    hide Take;
    hide Written;
    EnvelopeHash(host, tail.sequence + 1, tail.hash, event, NativeSource(), settings.signer);
  }

  /** A whole record written: the new text is accepted, shows the event, and the cache describes it. */
  lemma WholeWrite(host: Host, settings: Settings, raw: string, event: Js, text: string, written: nat)
    requires Good(host, settings) && GoodEvent(event) && ChainOk(host, raw)
    requires var line := LineAfter(host, |RecordsOf(raw)| + 1, Tip(host, RecordsOf(raw)), event, settings.signer);
             |line| < written && text == raw + Take(line + ['\n'], written)
    ensures CompletePart(text) == text && ChainOk(host, text) && RecordsOf(raw) <= RecordsOf(text)
    ensures EventsIn(host, text) == EventsIn(host, raw) + [Clean(event)]
    ensures TailOf(host, text, Tail(|RecordsOf(raw)| + 1,
                                    Str(RecordHash(host, Num(|RecordsOf(raw)| + 1), Tip(host, RecordsOf(raw)), event,
                                                   NativeSource()))))
  {
    hide Good;
    hide GoodEvent;
    hide ChainOk;
    hide EventsIn;
    hide Tip;
    hide RecordsOf;
    hide CompletePart;
    hide Complete;
    hide RecordHash;
    hide Clean;
    hide WrittenLineOf;
    hide Take;
    var line := LineAfter(host, |RecordsOf(raw)| + 1, Tip(host, RecordsOf(raw)), event, settings.signer);
    WriteAccepted(host, settings, raw, event);
    TakeOfLine(line, written);
    assert raw + (line + ['\n']) == WithLine(raw, line);
    AcceptedIsComplete(host, text);
    CompletePartOfComplete(text);
  }

  lemma AcceptedIsComplete(host: Host, raw: string)
    requires ChainOk(host, raw)
    ensures Complete(raw)
  {
  }

  /** A write cut short: the complete part is what it was. */
  lemma CutWrite(host: Host, settings: Settings, raw: string, event: Js, text: string, written: nat)
    requires Good(host, settings) && GoodEvent(event) && ChainOk(host, raw)
    requires var line := LineAfter(host, |RecordsOf(raw)| + 1, Tip(host, RecordsOf(raw)), event, settings.signer);
             written <= |line| && text == raw + Take(line + ['\n'], written)
    ensures CompletePart(text) == raw
  {
    hide Good;
    hide GoodEvent;
    hide ChainOk;
    hide EventsIn;
    hide Tip;
    hide RecordsOf;
    hide CompletePart;
    hide Complete;
    hide RecordHash;
    hide Clean;
    hide WrittenLineOf;
    hide Take;
    AcceptedIsComplete(host, raw);
    WriteAccepted(host, settings, raw, event);
    WriteLeaves(raw, LineAfter(host, |RecordsOf(raw)| + 1, Tip(host, RecordsOf(raw)), event, settings.signer), written);
  }

  /** The record written after a tail that belongs to the text. */
  lemma WriteNextLeaves(host: Host, settings: Settings, disk: Disk, cache: Option<Cache>, event: Js, accepts: Accepts,
                        mtime: int)
    requires Good(host, settings) && GoodEvent(event) && ChainOk(host, LiveText(disk))
    ensures var tail := Tail(|RecordsOf(LiveText(disk))|, Tip(host, RecordsOf(LiveText(disk))));
            var t := WriteNext(host, settings, disk, tail, cache, event, accepts, mtime);
            var after := CompletePart(LiveText(t.disk));
            && t.disk.files == disk.files && ChainOk(host, after)
            && RecordsOf(LiveText(disk)) <= RecordsOf(after)
            && EventsIn(host, after) == EventsIn(host, LiveText(disk))
               + (if t.outcome.Done? then [Clean(event)] else [])
            && (t.outcome.Done? ==> CacheCurrent(host, t))
            && (!t.outcome.Done? ==> t.cache == cache)
            && (t.outcome.Failed? ==> t.disk == disk)
  {
    hide Good;
    hide GoodEvent;
    hide ChainOk;
    hide EventsIn;
    hide Tip;
    hide RecordsOf;
    hide CompletePart;
    hide Complete;
    hide RecordHash;
    hide Clean;
    hide WrittenLineOf;
    hide Take;
    hide Written;
    hide WriteNext;
    hide TailOf;
    var raw := LiveText(disk);
    var tail := Tail(|RecordsOf(raw)|, Tip(host, RecordsOf(raw)));
    var t := WriteNext(host, settings, disk, tail, cache, event, accepts, mtime);
    var written := Written(accepts, 0, |LineAfter(host, tail.sequence + 1, tail.hash, event, settings.signer)| + 1);
    WriteNextShape(host, settings, disk, tail, cache, event, accepts, mtime);
    AcceptedIsComplete(host, raw);
    CompletePartOfComplete(raw);
    match t.outcome
    case Failed(_) =>
    case Stopped => CutWrite(host, settings, raw, event, LiveText(t.disk), written);
    case Done => WholeWrite(host, settings, raw, event, LiveText(t.disk), written);
  }

  lemma EnvelopeHash(host: Host, sequence: int, previous: Js, event: Js, source: Js, signer: Option<Signer>)
    ensures Field(Envelope(host, sequence, previous, event, source, signer), RECORD)
         == Str(RecordHash(host, Num(sequence), previous, event, source))
  {
    hide RecordHash;
    hide Field;
    hide Sealed;
    SealedFields(Num(sequence), previous, event, source, RecordHash(host, Num(sequence), previous, event, source),
                 signer);
  }

  // ---------------------------------------------------------------- damage and rotation

  /** The stat matches the cache, whose number can be followed by another. */
  predicate CacheServes(cache: Option<Cache>, file: File) {
    CacheMatches(cache, file) && 0 <= cache.value.sequence < MAX_SAFE
  }

  /** A torn tail after a prefix on which the verifier throws. */
  predicate RepairThrows(host: Host, text: string) { !Complete(text) && Verify(host, CompletePart(text)).None? }

  lemma DamagedIsNotAccepted(host: Host, text: string)
    requires !ChainOk(host, CompletePart(text))
    ensures !ChainOk(host, text)
  {
    hide Linked;
    hide CompletePart;
    if Complete(text) { CompletePartOfComplete(text); }
  }

  /** What repair does with damage: it throws, or does nothing. */
  lemma DamageRepair(host: Host, settings: Settings, disk: Disk, cache: Option<Cache>, env: RepairEnv)
    requires disk.live.Some? && !ChainOk(host, CompletePart(disk.live.value.text))
    ensures Repair(host, settings, disk, cache, env)
         == Turn(disk, cache, if RepairThrows(host, disk.live.value.text) then Failed(ParserThrew) else Done)
  {
    hide ChainOk;
    hide Verify;
    hide CompletePart;
    VerifierIff(host, CompletePart(disk.live.value.text));
  }

  /** The rest of an append on a damaged file. */
  lemma DamageAppend(host: Host, settings: Settings, disk: Disk, cache: Option<Cache>, event: Js, env: AppendEnv)
    requires disk.live.Some? && !ChainOk(host, disk.live.value.text)
    ensures var t := AppendRepaired(host, settings, disk, cache, event, env);
            var file := disk.live.value;
            && (t.outcome.Failed? <==> !Oversized(settings, disk) && !CacheServes(cache, file))
            && (t.outcome.Failed? ==> t.disk == disk)
            && (Oversized(settings, disk) ==>
                  Archive(env.stamp) in t.disk.files && t.disk.files[Archive(env.stamp)] == file.text)
            && (!Oversized(settings, disk) ==> file.text <= LiveText(t.disk))
  {
    hide ChainOk;
    hide ParsedTail;
    hide Envelope;
    hide Stringify;
    hide Take;
    hide Written;
    ParsedTailIs(host, disk.live.value);
  }

  /** A file whose complete part does not verify. An append refuses it, and leaves the disk untouched,
      exactly when repair throws on it, or it is within its size budget and the cache does not serve.
      Rotation comes before the integrity check, so an oversized damaged file is archived and a fresh
      chain begun; and a matching stat skips the check, so the record is written after the damage. */
  lemma DamagedFileRefused(host: Host, settings: Settings, disk: Disk, cache: Option<Cache>, event: Js, env: AppendEnv)
    requires disk.live.Some? && !ChainOk(host, CompletePart(disk.live.value.text))
    ensures var t := Append(host, settings, disk, cache, event, env);
            var file := disk.live.value;
            && (t.outcome.Failed? <==>
                  RepairThrows(host, file.text) || (!Oversized(settings, disk) && !CacheServes(cache, file)))
            && (t.outcome.Failed? ==> t.disk == disk)
            && (!t.outcome.Failed? && Oversized(settings, disk) ==>
                  Archive(env.stamp) in t.disk.files && t.disk.files[Archive(env.stamp)] == file.text)
            && (!t.outcome.Failed? && !Oversized(settings, disk) ==> file.text <= LiveText(t.disk))
  {
    hide ChainOk;
    hide Repair;
    hide AppendRepaired;
    hide RepairThrows;
    DamageRepair(host, settings, disk, cache, env.repair);
    DamagedIsNotAccepted(host, disk.live.value.text);
    DamageAppend(host, settings, disk, cache, event, env);
  }

  /** Every cut is reachable: for any number of characters of the line and its newline, some behaviour
      of the write call leaves exactly so many of them in the file. */
  lemma EveryCutReachable(host: Host, settings: Settings, disk: Disk, tail: Tail, cache: Option<Cache>, event: Js,
                          k: nat, mtime: int)
      returns (accepts: Accepts)
    requires 0 <= tail.sequence < MAX_SAFE
    requires k <= |LineAfter(host, tail.sequence + 1, tail.hash, event, settings.signer)| + 1
    ensures var line := LineAfter(host, tail.sequence + 1, tail.hash, event, settings.signer);
            var t := WriteNext(host, settings, disk, tail, cache, event, accepts, mtime);
            t.disk == Write(disk, line, k, mtime) && (t.outcome.Done? <==> k == |line| + 1)
  {
    hide Written;
    hide WriteNext;
    hide WrittenLineOf;
    hide Take;
    accepts := AnyCut(|LineAfter(host, tail.sequence + 1, tail.hash, event, settings.signer)| + 1, k);
    WriteNextShape(host, settings, disk, tail, cache, event, accepts, mtime);
  }

  /** A rotation keeps every earlier archive exactly when its stamp is new, or names the same text. */
  lemma RotationKeepsArchivesIff(settings: Settings, disk: Disk, stamp: string)
    requires Oversized(settings, disk)
    ensures var after := Rotate(settings, disk, stamp).files;
            (forall n <- disk.files :: n in after && after[n] == disk.files[n])
            <==> (Archive(stamp) in disk.files ==> disk.files[Archive(stamp)] == disk.live.value.text)
  {
    var after := Rotate(settings, disk, stamp).files;
    if Archive(stamp) in disk.files && disk.files[Archive(stamp)] != disk.live.value.text {
      assert after[Archive(stamp)] != disk.files[Archive(stamp)];
    }
  }

  /** What a repair that gets as far as `stop` puts into quarantine. */
  function QuarantineText(text: string, env: RepairEnv): string {
    if env.stop.Quarantining? then Take(TornPart(text), env.stop.written) else TornPart(text)
  }

  /** The files beside the live one, by what a repair of a torn file writes first. */
  lemma RepairWrites(host: Host, settings: Settings, disk: Disk, cache: Option<Cache>, env: RepairEnv)
    requires disk.live.Some? && !Complete(disk.live.value.text)
    requires ChainOk(host, CompletePart(disk.live.value.text))
    ensures var after := Repair(host, settings, disk, cache, env).disk.files;
            forall n: Name :: n.Torn? ==>
              && (n in after <==> n in disk.files || n == Torn(env.stamp))
              && (n in after ==>
                    after[n] == if n == Torn(env.stamp) then QuarantineText(disk.live.value.text, env)
                        else disk.files[n])
  {
    hide ChainOk;
    hide Verify;
    hide CompletePart;
    hide TornPart;
    hide Take;
    hide CreateEnvelope;
    hide Stringify;
    hide RepairEvent;
    VerifierIff(host, CompletePart(disk.live.value.text));
  }

  /** A repair of a torn file, wherever it stops, keeps every earlier quarantine exactly when its stamp
      is new, or names the same text. */
  lemma RepairKeepsQuarantinesIff(host: Host, settings: Settings, disk: Disk, cache: Option<Cache>, env: RepairEnv)
    requires disk.live.Some? && !Complete(disk.live.value.text)
    requires ChainOk(host, CompletePart(disk.live.value.text))
    ensures var after := Repair(host, settings, disk, cache, env).disk.files;
            (forall n: Name :: n.Torn? && n in disk.files ==> n in after && after[n] == disk.files[n])
            <==> (Torn(env.stamp) in disk.files ==>
                    disk.files[Torn(env.stamp)] == QuarantineText(disk.live.value.text, env))
  {
    hide ChainOk;
    hide Repair;
    hide QuarantineText;
    RepairWrites(host, settings, disk, cache, env);
    var after := Repair(host, settings, disk, cache, env).disk.files;
    if Torn(env.stamp) in disk.files {
      assert after[Torn(env.stamp)] == QuarantineText(disk.live.value.text, env);
    }
  }
}
