/** The file store as the program has it: an object with a cached tail, working on a shared disk. */
module FileAuditStoreClass {
  import opened Prelude
  import opened JsonText
  import opened CanonicalJson
  import opened AuditChain
  import opened AuditAppend
  import opened AuditStore

  class AuditDisk {
    var live: Option<File>
    var files: map<Name, string>

    ghost function State(): Disk
      reads this
    {
      Disk(live, files)
    }

    constructor ()
      ensures State() == Disk(None, map[])
    {
      live := None;
      files := map[];
    }
  }

  class FileAuditStore {
    const host: Host
    const settings: Settings
    const disk: AuditDisk
    var tailCache: Option<Cache>

    constructor (host: Host, settings: Settings, disk: AuditDisk)
      ensures this.host == host && this.settings == settings && this.disk == disk && tailCache == None
    {
      this.host := host;
      this.settings := settings;
      this.disk := disk;
      tailCache := None;
    }

    ghost predicate Is(t: Turn)
      reads this, disk
    {
      disk.State() == t.disk && tailCache == t.cache
    }

    /** Archive a live file over its budget. */
    method RotateIfOversized(stamp: string)
      modifies this`tailCache, disk
      ensures disk.State() == Rotate(settings, old(disk.State()), stamp)
      ensures tailCache == if Oversized(settings, old(disk.State())) then None else old(tailCache)
    {
      if disk.live.None? { return; }
      if |disk.live.value.text| <= settings.maxBytes { return; }
      disk.files := disk.files[Archive(stamp) := disk.live.value.text];
      disk.live := None;
      tailCache := None;
    }

    /** The chain's tail, re-verifying the file only when its stat differs from the cached one. */
    method ReadTailForAppend() returns (r: Result<Tail, StoreError>)
      modifies this`tailCache
      ensures disk.State() == old(disk.State())
      ensures match ReadTail(host, disk.live, old(tailCache))
              case Err(e) => r == Err(e) && tailCache == old(tailCache)
              case Ok((tail, cache)) => r == Ok(tail) && tailCache == cache
    {
      if disk.live.None? {
        tailCache := None;
        return Ok(Tail(0, Null));
      }
      var file := disk.live.value;
      if tailCache.Some? && tailCache.value.size == |file.text| && tailCache.value.mtime == file.mtime {
        return Ok(Tail(tailCache.value.sequence, tailCache.value.hash));
      }
      var parsed := ParseAuditChain(host, file.text);
      if parsed.None? { return Err(ParserThrew); }
      if !parsed.value.ok { return Err(ChainBroken); }
      var tail := LastTail(parsed.value.envelopes);
      tailCache := Some(Cache(tail.sequence, tail.hash, |file.text|, file.mtime));
      return Ok(tail);
    }

    /** The write loop: each pass appends what the system accepts and advances the offset. */
    method WriteRequired(line: string, accepts: Accepts, mtime: int) returns (complete: bool)
      modifies disk
      ensures disk.State() == Write(old(disk.State()), line, Written(accepts, 0, |line| + 1), mtime)
      ensures complete == (Written(accepts, 0, |line| + 1) == |line| + 1)
    {
      var buffer := line + ['\n'];
      ghost var start := LiveText(disk.State());
      disk.live := Some(File(if disk.live.None? then [] else disk.live.value.text, mtime));
      var offset := 0;
      assert start + buffer[..0] == start;
      complete := true;
      while offset < |buffer|
        invariant 0 <= offset <= |buffer|
        invariant disk.live == Some(File(start + buffer[..offset], mtime)) && disk.files == old(disk.files)
        invariant Written(accepts, 0, |buffer|) == Written(accepts, offset, |buffer|)
        invariant complete
      {
        var written := accepts(offset, |buffer| - offset);
        if written <= 0 {
          complete := false;
          break;
        }
        var next := if written >= |buffer| - offset then |buffer| else offset + written;
        assert start + buffer[..offset] + buffer[offset..next] == start + buffer[..next];
        disk.live := Some(File(disk.live.value.text + buffer[offset..next], mtime));
        offset := next;
      }
      assert Take(buffer, offset) == buffer[..offset];
    }

    /** Quarantine a torn final record and resume the chain with a marker. */
    method RepairTornTail(env: RepairEnv) returns (outcome: Outcome)
      modifies this`tailCache, disk
      ensures var t := Repair(host, settings, old(disk.State()), old(tailCache), env); Is(t) && outcome == t.outcome
    {
      if disk.live.None? { return Done; }
      var text := disk.live.value.text;
      if text == [] || text[|text| - 1] == '\n' { return Done; }
      var prefix := CompletePart(text);
      var torn := TornPart(text);
      var parsed := ParseAuditChain(host, prefix);
      if parsed.None? { return Failed(ParserThrew); }
      var report := parsed.value;
      if !report.ok { return Done; }
      if env.stop.Quarantining? {
        disk.files := disk.files[Torn(env.stamp) := Take(torn, env.stop.written)];
        return Stopped;
      }
      disk.files := disk.files[Torn(env.stamp) := torn];
      var marker := CreateEnvelope(host, RepairEvent(env, |torn|, report.head), |report.envelopes| + 1, report.head,
                                   NativeSource(), settings.signer);
      if marker.Err? { return Failed(BadEnvelope); }
      var repaired := WithLine(prefix, Stringify(marker.value));
      if env.stop.Rewriting? {
        disk.files := disk.files[Temp(env.stamp) := Take(repaired, env.stop.written)];
        return Stopped;
      }
      disk.files := disk.files - {Temp(env.stamp)};
      disk.live := Some(File(repaired, env.mtime));
      tailCache := None;
      return Done;
    }

    /** Repair, rotate, find the tail, write, remember. */
    method AppendRecord(event: Js, env: AppendEnv) returns (outcome: Outcome)
      modifies this`tailCache, disk
      ensures var t := Append(host, settings, old(disk.State()), old(tailCache), event, env);
              Is(t) && outcome == t.outcome
    {
      hide Repair;
      hide ReadTail;
      hide Written;
      hide Stringify;
      hide CreateEnvelope;
      outcome := RepairTornTail(env.repair);
      if outcome != Done { return; }
      RotateIfOversized(env.stamp);
      var tail := ReadTailForAppend();
      if tail.Err? { return Failed(tail.error); }
      var envelope := CreateEnvelope(host, event, tail.value.sequence + 1, tail.value.hash, NativeSource(),
                                     settings.signer);
      if envelope.Err? { return Failed(BadEnvelope); }
      var complete := WriteRequired(Stringify(envelope.value), env.accepts, env.mtime);
      if !complete { return Stopped; }
      var written := disk.live.value;
      tailCache := Some(Cache(tail.value.sequence + 1, Field(envelope.value, RECORD), |written.text|, written.mtime));
      return Done;
    }
  }
}
