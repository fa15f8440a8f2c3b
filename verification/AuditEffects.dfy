/** What the audit operations leave, said outright: signed records, repair markers, rotation, appends
    that land, and where each migrated record says it comes from. */
module AuditEffects {
  import opened Prelude
  import opened JsonText
  import opened CanonicalJson
  import opened AuditChain
  import opened AuditProof
  import opened AuditAppend
  import opened AuditStore
  import opened AuditRecovery
  import AuditReport

  // ---------------------------------------------------------------- signatures

  /** A record carries a signature exactly when it was written with a signer: then it names the signer's
      key, and the verifier counts it as verified if that key is supplied, and as unverifiable if not. */
  lemma WrittenSignature(host: Host, sequence: int, previous: Js, event: Js, source: Js, signer: Option<Signer>)
    requires Ready(host, previous, event, source, signer) && event != Undefined
    ensures var v := host.parse(WrittenLineOf(host, sequence, previous, event, source, signer));
            && v.Some? && (AuditReport.Signed(v.value) <==> signer.Some?)
            && (signer.Some? ==>
                  && Field(Field(v.value, "signature"), "keyId") == Str(signer.value.keyId)
                  && Field(Field(v.value, "signature"), "algorithm") == Str("ed25519")
                  && (AuditReport.KeyKnown(host, v.value) <==> signer.value.keyId in host.keys)
                  && (signer.value.keyId in host.keys ==> AuditReport.WellSigned(host, v.value)))
  {
    hide Sealed;
    hide Field;
    hide RecordHash;
    hide Stringify;
    hide Envelope;
    var hash := RecordHash(host, Num(sequence), previous, event, source);
    WrittenParses(host, sequence, previous, event, source, signer);
    SealedSignature(Num(sequence), previous, Clean(event), source, hash, signer);
    SealedFields(Num(sequence), previous, Clean(event), source, hash, signer);
    if signer.Some? {
      SignatureFields(signer.value, hash);
      SignatureAlgorithm(signer.value, hash);
    }
  }

  lemma SignatureAlgorithm(signer: Signer, hash: string)
    ensures Field(SignatureValue(signer, hash), "algorithm") == Str("ed25519") && SignatureValue(signer, hash).Obj?
  {
    assert SignatureValue(signer, hash).members[0].key == "algorithm";
  }

  // ---------------------------------------------------------------- repair markers

  /** The marker says when, that it is a repair, where the torn tail went, how long it was, and from which
      hash the chain resumes. */
  lemma MarkerSays(host: Host, text: string, env: RepairEnv)
    requires ChainOk(host, CompletePart(text))
    ensures var marker := MarkerEvent(host, text, env);
            && Field(marker, "ts") == Str(env.ts) && Field(marker, "type") == Str("audit_repair")
            && Field(marker, "summary") == Str(env.summary)
            && Field(Field(marker, "detail"), "quarantine") == Str(env.quarantine)
            && Field(Field(marker, "detail"), "tornBytes") == Num(|text| - |CompletePart(text)|)
            && Field(Field(marker, "detail"), "resumedFromHash") == Tip(host, RecordsOf(CompletePart(text)))
  {
    hide Lookup;
    hide ChainOk;
    hide CompletePart;
    hide Tip;
    var size, head := |TornPart(text)|, Tip(host, RecordsOf(CompletePart(text)));
    RepairEventKeys(env, size, head);
    var event := RepairEvent(env, size, head).members;
    LookupAt(event, 0);
    LookupAt(event, 1);
    LookupAt(event, 2);
    LookupAt(event, 3);
    DetailKeys(env, size, head);
    var detail := RepairDetail(env, size, head).members;
    LookupAt(detail, 0);
    LookupAt(detail, 1);
    LookupAt(detail, 2);
  }

  lemma DetailKeys(env: RepairEnv, size: nat, head: Js)
    ensures DistinctKeys(RepairDetail(env, size, head).members)
  {
    assert |QUARANTINE| == 10 && |TORN_BYTES| == 9 && |RESUMED| == 15;
    DistinctByLength(RepairDetail(env, size, head).members);
  }

  // ---------------------------------------------------------------- rotation

  /** A live file strictly over the budget becomes the archive of the stamp; any other stays, and no other
      file changes. */
  lemma RotationExactly(settings: Settings, disk: Disk, stamp: string)
    ensures var after := Rotate(settings, disk, stamp);
            && (disk.live.Some? && |disk.live.value.text| > settings.maxBytes ==>
                  after.live == None && after.files == disk.files[Archive(stamp) := disk.live.value.text])
            && (disk.live.None? || |disk.live.value.text| <= settings.maxBytes ==> after == disk)
  {
  }

  // ---------------------------------------------------------------- appends that land

  /** Every call to write makes progress. */
  ghost predicate Flows(accepts: Accepts) { forall offset, rest :: accepts(offset, rest) > 0 }

  lemma {:induction false} AllWritten(accepts: Accepts, offset: nat, size: nat)
    requires offset <= size && Flows(accepts)
    ensures Written(accepts, offset, size) == size
    decreases size - offset
  {
    if offset < size && accepts(offset, size - offset) < size - offset {
      AllWritten(accepts, offset + accepts(offset, size - offset), size);
    }
  }

  /** The cache, if it matches the file, is the file's tail. */
  ghost predicate CacheTrue(host: Host, disk: Disk, cache: Option<Cache>) {
    cache.Some? && disk.live.Some? && CacheMatches(cache, disk.live.value) ==>
      TailOf(host, disk.live.value.text, Tail(cache.value.sequence, cache.value.hash))
  }

  lemma TailFound(host: Host, disk: Disk, cache: Option<Cache>)
    requires ChainOk(host, LiveText(disk)) && CacheTrue(host, disk, cache)
    ensures var r := ReadTail(host, disk.live, cache);
            r.Ok? && r.value.0 == Tail(|RecordsOf(LiveText(disk))|, Tip(host, RecordsOf(LiveText(disk))))
  {
    hide ChainOk;
    hide Tip;
    hide RecordsOf;
    hide ParsedTail;
    if disk.live.None? {
      EmptyAccepted(host);
    } else {
      ParsedTailIs(host, disk.live.value);
    }
  }

  /** An append whose writes flow lands: on an accepted file within budget it ends with exactly one record
      more; over budget the old text is archived whole and the record begins a fresh chain. Either way
      the file is accepted, shows the event last, and the cache describes it. */
  lemma AppendLands(host: Host, settings: Settings, disk: Disk, cache: Option<Cache>, event: Js, env: AppendEnv)
    requires Good(host, settings) && GoodEvent(event) && Flows(env.accepts)
    requires ChainOk(host, LiveText(disk)) && CacheTrue(host, disk, cache) && |RecordsOf(LiveText(disk))| < MAX_SAFE
    ensures var t := Append(host, settings, disk, cache, event, env);
            var over := disk.live.Some? && |disk.live.value.text| > settings.maxBytes;
            var before := if over then [] else LiveText(disk);
            && t.outcome.Done? && ChainOk(host, LiveText(t.disk)) && CacheCurrent(host, t)
            && EventsIn(host, LiveText(t.disk)) == EventsIn(host, before) + [Clean(event)]
            && RecordsOf(before) <= RecordsOf(LiveText(t.disk))
            && t.disk.files == if over then disk.files[Archive(env.stamp) := LiveText(disk)] else disk.files
  {
    hide ChainOk;
    hide EventsIn;
    hide RecordsOf;
    hide Good;
    hide GoodEvent;
    hide Flows;
    hide WriteNext;
    hide ReadTail;
    hide CacheTrue;
    hide Clean;
    var rotated := Rotate(settings, disk, env.stamp);
    var cache' := if Oversized(settings, disk) then None else cache;
    RepairNothing(host, settings, disk, cache, env.repair);
    RotatedAccepted(host, settings, disk, cache, env.stamp);
    TailFound(host, rotated, cache');
    var (tail, cached) := ReadTail(host, rotated.live, cache').value;
    WriteNextLands(host, settings, rotated, tail, cached, event, env.accepts, env.mtime);
  }

  lemma RepairNothing(host: Host, settings: Settings, disk: Disk, cache: Option<Cache>, env: RepairEnv)
    requires ChainOk(host, LiveText(disk))
    ensures Repair(host, settings, disk, cache, env) == Turn(disk, cache, Done)
  {
  }

  lemma RotatedAccepted(host: Host, settings: Settings, disk: Disk, cache: Option<Cache>, stamp: string)
    requires ChainOk(host, LiveText(disk)) && CacheTrue(host, disk, cache) && |RecordsOf(LiveText(disk))| < MAX_SAFE
    ensures var rotated := Rotate(settings, disk, stamp);
            && ChainOk(host, LiveText(rotated)) && |RecordsOf(LiveText(rotated))| < MAX_SAFE
            && CacheTrue(host, rotated, if Oversized(settings, disk) then None else cache)
  {
    hide ChainOk;
    hide RecordsOf;
    hide TailOf;
    EmptyAccepted(host);
  }

  lemma WriteNextLands(host: Host, settings: Settings, disk: Disk, tail: Tail, cache: Option<Cache>, event: Js,
                       accepts: Accepts, mtime: int)
    requires Good(host, settings) && GoodEvent(event) && Flows(accepts)
    requires ChainOk(host, LiveText(disk)) && |RecordsOf(LiveText(disk))| < MAX_SAFE
    requires tail == Tail(|RecordsOf(LiveText(disk))|, Tip(host, RecordsOf(LiveText(disk))))
    ensures var t := WriteNext(host, settings, disk, tail, cache, event, accepts, mtime);
            && t.outcome.Done? && t.disk.files == disk.files && ChainOk(host, LiveText(t.disk)) && CacheCurrent(host, t)
            && EventsIn(host, LiveText(t.disk)) == EventsIn(host, LiveText(disk)) + [Clean(event)]
            && RecordsOf(LiveText(disk)) <= RecordsOf(LiveText(t.disk))
  {
    hide Linked;
    hide Split;
    hide EventsOf;
    hide Good;
    hide GoodEvent;
    hide Flows;
    hide WriteNext;
    hide WrittenLineOf;
    hide Written;
    hide Tip;
    hide Clean;
    hide CompletePart;
    var line := LineAfter(host, tail.sequence + 1, tail.hash, event, settings.signer);
    AllWritten(accepts, 0, |line| + 1);
    WriteNextShape(host, settings, disk, tail, cache, event, accepts, mtime);
    WriteNextLeaves(host, settings, disk, cache, event, accepts, mtime);
    var t := WriteNext(host, settings, disk, tail, cache, event, accepts, mtime);
    CurrentAccepted(host, t);
    CompletePartOfComplete(LiveText(t.disk));
  }

  lemma CurrentAccepted(host: Host, t: Turn)
    requires CacheCurrent(host, t)
    ensures ChainOk(host, LiveText(t.disk)) && Complete(LiveText(t.disk))
  {
  }
}
