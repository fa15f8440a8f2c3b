/** Runs of several store instances taking turns on one audit file, with crashes anywhere: the cached
    tail agrees with a full parse, and archives and live file together are a plain append-only log. */
module AuditRuns {
  import opened Prelude
  import opened JsonText
  import opened CanonicalJson
  import opened AuditChain
  import opened AuditProof
  import opened AuditAppend
  import opened AuditStore
  import opened AuditRecovery

  /** The disk, each instance's cache, every live file that has existed, the rotation stamps in order,
      and the log the disk should amount to. */
  datatype World = World(
    disk: Disk, caches: map<nat, Option<Cache>>, history: set<File>, order: seq<string>, ledger: seq<Js>)

  datatype Action =
    | Open(id: nat)
    | Preflight(id: nat, repair: RepairEnv)
    | AppendEvent(id: nat, event: Js, env: AppendEnv)

  ghost function Seen(w: World, disk: Disk): set<File> {
    w.history + (if disk.live.Some? then {disk.live.value} else {})
  }

  ghost function CacheIn(w: World, id: nat): Option<Cache> { if id in w.caches then w.caches[id] else None }

  ghost predicate TornFile(disk: Disk) { !Complete(LiveText(disk)) }

  ghost function RepairTurn(host: Host, settings: nat -> Settings, w: World, id: nat, env: RepairEnv): Turn {
    Repair(host, settings(id), w.disk, CacheIn(w, id), env)
  }

  ghost function AfterRepair(host: Host, settings: nat -> Settings, w: World, id: nat, env: RepairEnv): World {
    var t := RepairTurn(host, settings, w, id, env);
    World(t.disk, w.caches[id := t.cache], Seen(w, t.disk), w.order,
          w.ledger + (if t.outcome.Done? && TornFile(w.disk) then [MarkerEvent(host, LiveText(w.disk), env)] else []))
  }

  ghost function AppendTurn(host: Host, settings: nat -> Settings, w: World, id: nat, event: Js, env: AppendEnv): Turn {
    AppendRepaired(host, settings(id), w.disk, CacheIn(w, id), event, env)
  }

  /** The rest of an append, once the repair is done. */
  ghost function AfterAppend(host: Host, settings: nat -> Settings, w: World, id: nat, event: Js,
                             env: AppendEnv): World {
    var t := AppendTurn(host, settings, w, id, event, env);
    World(t.disk, w.caches[id := t.cache], Seen(w, t.disk),
          if Oversized(settings(id), w.disk) then w.order + [env.stamp] else w.order,
          w.ledger + (if t.outcome.Done? then [Clean(event)] else []))
  }

  ghost function Next(host: Host, settings: nat -> Settings, w: World, a: Action): World {
    match a
    case Open(id) => w.(caches := w.caches[id := None])
    case Preflight(id, env) => AfterRepair(host, settings, w, id, env)
    case AppendEvent(id, event, env) =>
      var w' := AfterRepair(host, settings, w, id, env.repair);
      if RepairTurn(host, settings, w, id, env.repair).outcome.Done?
      then AfterAppend(host, settings, w', id, event, env)
      else w'
  }

  /** Callers append well-shaped events without undefined members, and a rotation uses a new stamp. */
  ghost predicate Allowed(host: Host, settings: nat -> Settings, w: World, a: Action) {
    a.AppendEvent? ==>
      && GoodEvent(a.event)
      && var w' := AfterRepair(host, settings, w, a.id, a.env.repair);
         Oversized(settings(a.id), w'.disk) ==> Archive(a.env.stamp) !in w'.disk.files
  }

  // ---------------------------------------------------------------- the invariant

  /** Size and modification time tell different contents apart. */
  ghost predicate Unambiguous(history: set<File>) {
    forall f, g :: f in history && g in history && |f.text| == |g.text| && f.mtime == g.mtime ==> f.text == g.text
  }

  /** The cached tail is the true tail of some file with the cached stat. */
  ghost predicate CacheOk(host: Host, history: set<File>, cache: Option<Cache>) {
    cache.Some? ==>
      exists f :: f in history && CacheMatches(cache, f)
          && TailOf(host, f.text, Tail(cache.value.sequence, cache.value.hash))
  }

  ghost predicate ArchivesOk(host: Host, order: seq<string>, files: map<Name, string>) {
    forall i :: 0 <= i < |order| ==> Archive(order[i]) in files && ChainOk(host, files[Archive(order[i])])
  }

  ghost function Archived(host: Host, order: seq<string>, files: map<Name, string>): seq<Js>
    requires ArchivesOk(host, order, files)
  {
    if order == [] then []
    else Archived(host, order[..|order| - 1], files) + EventsIn(host, files[Archive(order[|order| - 1])])
  }

  ghost predicate Sound(host: Host, w: World) {
    && Healthy(host, w.disk) && ArchivesOk(host, w.order, w.disk.files)
    && (w.disk.live.Some? ==> w.disk.live.value in w.history)
    && (forall id :: CacheOk(host, w.history, CacheIn(w, id)))
    && w.ledger == Archived(host, w.order, w.disk.files) + EventsIn(host, CompletePart(LiveText(w.disk)))
  }

  lemma CacheOkGrows(host: Host, history: set<File>, history': set<File>, cache: Option<Cache>)
    requires CacheOk(host, history, cache) && history <= history'
    ensures CacheOk(host, history', cache)
  {
    hide TailOf;
  }

  /** In a sound world the cache and a full parse give the same tail. */
  lemma CachedTailIsTail(host: Host, history: set<File>, file: File, cache: Option<Cache>)
    requires CacheOk(host, history, cache) && Unambiguous(history) && file in history && ChainOk(host, file.text)
    ensures var tail := Tail(|RecordsOf(file.text)|, Tip(host, RecordsOf(file.text)));
            && ReadTail(host, Some(file), cache).Ok? && ReadTail(host, Some(file), cache).value.0 == tail
            && ParsedTail(host, file) == Ok(tail)
            && CacheOk(host, history, ReadTail(host, Some(file), cache).value.1)
  {
    hide ChainOk;
    hide Tip;
    hide RecordsOf;
    hide ParsedTail;
    ParsedTailIs(host, file);
    if CacheMatches(cache, file) {
      var f :| f in history && CacheMatches(cache, f)
          && TailOf(host, f.text, Tail(cache.value.sequence, cache.value.hash));
      assert f.text == file.text;
    } else {
      var tail := ParsedTail(host, file).value;
      assert CacheMatches(Some(Remember(tail, file)), file);
    }
  }

  lemma {:induction false} ArchivedAgree(host: Host, order: seq<string>, files: map<Name, string>,
                                         files': map<Name, string>)
    requires ArchivesOk(host, order, files)
    requires forall i :: 0 <= i < |order| ==>
             Archive(order[i]) in files' && files'[Archive(order[i])] == files[Archive(order[i])]
    ensures ArchivesOk(host, order, files') && Archived(host, order, files') == Archived(host, order, files)
  {
    hide ChainOk;
    hide EventsIn;
    if order != [] { ArchivedAgree(host, order[..|order| - 1], files, files'); }
  }

  lemma ArchivedSnoc(host: Host, order: seq<string>, files: map<Name, string>, stamp: string, text: string)
    requires ArchivesOk(host, order, files) && Archive(stamp) !in files && ChainOk(host, text)
    ensures var files' := files[Archive(stamp) := text];
            ArchivesOk(host, order + [stamp], files')
            && Archived(host, order + [stamp], files') == Archived(host, order, files) + EventsIn(host, text)
  {
    hide ChainOk;
    hide EventsIn;
    var files' := files[Archive(stamp) := text];
    ArchivedAgree(host, order, files, files');
    assert (order + [stamp])[..|order|] == order;
  }

  // ---------------------------------------------------------------- every step keeps it

  ghost predicate AllGood(host: Host, settings: nat -> Settings) { forall id :: Good(host, settings(id)) }

  lemma CachesKept(host: Host, w: World, id: nat, w': World)
    requires (forall i :: CacheOk(host, w.history, CacheIn(w, i))) && w.history <= w'.history
    requires w'.caches == w.caches[id := CacheIn(w', id)] && CacheOk(host, w'.history, CacheIn(w', id))
    ensures forall i :: CacheOk(host, w'.history, CacheIn(w', i))
  {
    hide CacheOk;
    forall i ensures CacheOk(host, w'.history, CacheIn(w', i)) {
      if i != id { CacheOkGrows(host, w.history, w'.history, CacheIn(w, i)); }
    }
  }

  lemma Regrouped(a: seq<Js>, b: seq<Js>, c: seq<Js>)
    ensures a + b + c == a + (b + c)
  {
  }

  lemma RepairOfWhole(host: Host, settings: Settings, disk: Disk, cache: Option<Cache>, env: RepairEnv)
    requires !TornFile(disk)
    ensures Repair(host, settings, disk, cache, env) == Turn(disk, cache, Done)
  {
  }

  /** What a repair does to a healthy disk. */
  lemma RepairHealthy(host: Host, settings: Settings, disk: Disk, cache: Option<Cache>, env: RepairEnv)
    requires Good(host, settings) && Healthy(host, disk)
    ensures var t := Repair(host, settings, disk, cache, env);
            && Healthy(host, t.disk) && (t.outcome.Done? ==> Complete(LiveText(t.disk)))
            && (t.disk.live == disk.live || t.disk.live.Some?) && (t.cache == cache || t.cache.None?)
            && EventsIn(host, CompletePart(LiveText(t.disk)))
               == EventsIn(host, CompletePart(LiveText(disk)))
                  + (if t.outcome.Done? && TornFile(disk) then [MarkerEvent(host, LiveText(disk), env)] else [])
  {
    hide CompletePart;
    hide Linked;
    hide Split;
    hide Repair;
    hide EventsOf;
    hide MarkerEvent;
    hide RepairedText;
    hide Good;
    hide TornPart;
    if TornFile(disk) {
      RepairOfTorn(host, settings, disk, cache, env);
      RepairedTextAccepted(host, settings, disk.live.value.text, env);
      CompletePartOfComplete(RepairedText(host, settings, disk.live.value.text, env));
    } else {
      RepairOfWhole(host, settings, disk, cache, env);
    }
  }

  lemma AfterRepairSound(host: Host, settings: nat -> Settings, w: World, id: nat, env: RepairEnv)
    requires AllGood(host, settings) && Sound(host, w)
    ensures Sound(host, AfterRepair(host, settings, w, id, env))
    ensures RepairTurn(host, settings, w, id, env).outcome.Done? ==>
            Complete(LiveText(AfterRepair(host, settings, w, id, env).disk))
  {
    hide Repair;
    hide CompletePart;
    hide ChainOk;
    hide EventsIn;
    hide MarkerEvent;
    hide Good;
    hide CacheOk;
    var t := RepairTurn(host, settings, w, id, env);
    var w' := AfterRepair(host, settings, w, id, env);
    assert Good(host, settings(id));
    RepairHealthy(host, settings(id), w.disk, CacheIn(w, id), env);
    RepairKeepsArchives(host, settings(id), w.disk, CacheIn(w, id), env);
    ArchivedAgree(host, w.order, w.disk.files, t.disk.files);
    NoCacheOk(host, w'.history);
    CacheOkGrows(host, w.history, w'.history, CacheIn(w, id));
    CachesKept(host, w, id, w');
    Regrouped(Archived(host, w.order, w.disk.files), EventsIn(host, CompletePart(LiveText(w.disk))),
              if t.outcome.Done? && TornFile(w.disk) then [MarkerEvent(host, LiveText(w.disk), env)] else []);
  }

  lemma NoCacheOk(host: Host, history: set<File>)
    ensures CacheOk(host, history, None)
  {
  }

  /** Rotation moves the whole accepted text into a new archive. */
  ghost function AfterRotation(settings: Settings, w: World, id: nat, stamp: string): World {
    if Oversized(settings, w.disk) then
      w.(disk := Rotate(settings, w.disk, stamp), caches := w.caches[id := None], order := w.order + [stamp])
    else w
  }

  lemma RotationSound(host: Host, settings: Settings, w: World, id: nat, stamp: string)
    requires Sound(host, w) && Complete(LiveText(w.disk))
             && (Oversized(settings, w.disk) ==> Archive(stamp) !in w.disk.files)
    ensures var w' := AfterRotation(settings, w, id, stamp);
            Sound(host, w') && Complete(LiveText(w'.disk))
  {
    hide EventsIn;
    hide CacheOk;
    hide CompletePart;
    hide Linked;
    hide Split;
    if Oversized(settings, w.disk) {
      CompletePartOfComplete(w.disk.live.value.text);
      CompletePartOfComplete([]);
      EmptyAccepted(host);
      ArchivedSnoc(host, w.order, w.disk.files, stamp, w.disk.live.value.text);
      NoCacheOk(host, w.history);
      CachesKept(host, w, id, AfterRotation(settings, w, id, stamp));
      Regrouped(Archived(host, w.order, w.disk.files), EventsIn(host, w.disk.live.value.text), []);
    }
  }

  /** Reading the tail and writing, after the rotation. */
  ghost function WriteTurn(host: Host, settings: Settings, disk: Disk, cache: Option<Cache>, event: Js,
                           env: AppendEnv): Turn {
    match ReadTail(host, disk.live, cache)
    case Err(e) => Turn(disk, cache, Failed(e))
    case Ok((tail, cached)) => WriteNext(host, settings, disk, tail, cached, event, env.accepts, env.mtime)
  }

  lemma AppendIsRotateThenWrite(host: Host, settings: nat -> Settings, w: World, id: nat, event: Js, env: AppendEnv)
    ensures var r := AfterRotation(settings(id), w, id, env.stamp);
            AppendTurn(host, settings, w, id, event, env)
                == WriteTurn(host, settings(id), r.disk, CacheIn(r, id), event, env)
  {
    hide ReadTail;
    hide WriteNext;
  }

  /** The tail a healthy complete file gives, and the cache left after reading it. */
  lemma TailRead(host: Host, w: World, id: nat)
    requires Sound(host, w) && Complete(LiveText(w.disk)) && Unambiguous(w.history)
    ensures var text := LiveText(w.disk);
            var r := ReadTail(host, w.disk.live, CacheIn(w, id));
            && ChainOk(host, text) && r.Ok? && r.value.0 == Tail(|RecordsOf(text)|, Tip(host, RecordsOf(text)))
            && CacheOk(host, w.history, r.value.1)
  {
    hide CacheOk;
    hide Linked;
    hide Split;
    hide EventsIn;
    hide CompletePart;
    CompletePartOfComplete(LiveText(w.disk));
    assert CacheOk(host, w.history, CacheIn(w, id));
    if w.disk.live.None? {
      EmptyAccepted(host);
      NoCacheOk(host, w.history);
    } else {
      CachedTailIsTail(host, w.history, w.disk.live.value, CacheIn(w, id));
    }
  }

  ghost function AfterWrite(host: Host, settings: Settings, w: World, id: nat, event: Js, env: AppendEnv): World {
    var t := WriteTurn(host, settings, w.disk, CacheIn(w, id), event, env);
    World(t.disk, w.caches[id := t.cache], Seen(w, t.disk), w.order,
          w.ledger + (if t.outcome.Done? then [Clean(event)] else []))
  }

  lemma AfterWriteSound(host: Host, settings: Settings, w: World, id: nat, event: Js, env: AppendEnv)
    requires Good(host, settings) && GoodEvent(event) && Sound(host, w) && Complete(LiveText(w.disk))
             && Unambiguous(w.history)
    ensures Sound(host, AfterWrite(host, settings, w, id, event, env))
  {
    hide CompletePart;
    hide ChainOk;
    hide EventsIn;
    hide Good;
    hide GoodEvent;
    hide CacheOk;
    hide ReadTail;
    hide WriteNext;
    hide TailOf;
    hide Tip;
    hide RecordsOf;
    var t := WriteTurn(host, settings, w.disk, CacheIn(w, id), event, env);
    var w' := AfterWrite(host, settings, w, id, event, env);
    TailRead(host, w, id);
    CompletePartOfComplete(LiveText(w.disk));
    var cached := ReadTail(host, w.disk.live, CacheIn(w, id)).value.1;
    WriteNextLeaves(host, settings, w.disk, cached, event, env.accepts, env.mtime);
    WriteNextKeepsLive(host, settings, w.disk, ReadTail(host, w.disk.live, CacheIn(w, id)).value.0, cached, event, env);
    CacheOkGrows(host, w.history, w'.history, cached);
    NewCacheOk(host, w'.history, t);
    CachesKept(host, w, id, w');
    Regrouped(Archived(host, w.order, w.disk.files), EventsIn(host, LiveText(w.disk)),
              if t.outcome.Done? then [Clean(event)] else []);
  }

  lemma WriteNextKeepsLive(host: Host, settings: Settings, disk: Disk, tail: Tail, cache: Option<Cache>, event: Js,
                           env: AppendEnv)
    ensures var t := WriteNext(host, settings, disk, tail, cache, event, env.accepts, env.mtime);
            t.disk.live == disk.live || t.disk.live.Some?
  {
    hide NextEnvelope;
  }

  lemma NewCacheOk(host: Host, history: set<File>, t: Turn)
    ensures CacheCurrent(host, t) && t.disk.live.value in history ==> CacheOk(host, history, t.cache)
  {
    hide TailOf;
  }

  lemma AfterAppendSound(host: Host, settings: nat -> Settings, w: World, id: nat, event: Js, env: AppendEnv)
    requires AllGood(host, settings) && GoodEvent(event) && Sound(host, w) && Complete(LiveText(w.disk))
             && Unambiguous(w.history)
    requires Oversized(settings(id), w.disk) ==> Archive(env.stamp) !in w.disk.files
    ensures Sound(host, AfterAppend(host, settings, w, id, event, env))
  {
    hide WriteTurn;
    hide Good;
    hide GoodEvent;
    hide Sound;
    hide AppendRepaired;
    hide Clean;
    var r := AfterRotation(settings(id), w, id, env.stamp);
    assert Good(host, settings(id));
    RotationSound(host, settings(id), w, id, env.stamp);
    AfterWriteSound(host, settings(id), r, id, event, env);
    AppendIsRotateThenWrite(host, settings, w, id, event, env);
    var x, y := AfterAppend(host, settings, w, id, event, env), AfterWrite(host, settings(id), r, id, event, env);
    assert x.caches == y.caches;
    assert x == y;
  }

  lemma HistoryGrows(host: Host, settings: nat -> Settings, w: World, a: Action)
    ensures w.history <= Next(host, settings, w, a).history
    ensures a.AppendEvent? ==>
              AfterRepair(host, settings, w, a.id, a.env.repair).history <= Next(host, settings, w, a).history
  {
    hide Repair;
    hide AppendRepaired;
    hide MarkerEvent;
    hide Clean;
  }

  lemma UnambiguousPart(small: set<File>, large: set<File>)
    requires small <= large && Unambiguous(large)
    ensures Unambiguous(small)
  {
  }

  lemma NextSound(host: Host, settings: nat -> Settings, w: World, a: Action)
    requires AllGood(host, settings) && Sound(host, w) && Allowed(host, settings, w, a)
    requires Unambiguous(Next(host, settings, w, a).history)
    ensures Sound(host, Next(host, settings, w, a))
  {
    hide AfterRepair;
    hide AfterAppend;
    hide Unambiguous;
    hide Good;
    hide GoodEvent;
    match a
    case Open(id) => OpenSound(host, w, id);
    case Preflight(id, env) => AfterRepairSound(host, settings, w, id, env);
    case AppendEvent(id, event, env) =>
      var w' := AfterRepair(host, settings, w, id, env.repair);
      AfterRepairSound(host, settings, w, id, env.repair);
      HistoryGrows(host, settings, w, a);
      UnambiguousPart(w'.history, Next(host, settings, w, a).history);
      if RepairTurn(host, settings, w, id, env.repair).outcome.Done? {
        AfterAppendSound(host, settings, w', id, event, env);
      }
  }

  lemma OpenSound(host: Host, w: World, id: nat)
    requires Sound(host, w)
    ensures Sound(host, w.(caches := w.caches[id := None]))
  {
    hide CacheOk;
    hide Healthy;
    hide EventsIn;
    hide CompletePart;
    NoCacheOk(host, w.history);
    CachesKept(host, w, id, w.(caches := w.caches[id := None]));
  }

  // ---------------------------------------------------------------- whole runs

  ghost function Fresh(): World { World(Disk(None, map[]), map[], {}, [], []) }

  ghost function After(host: Host, settings: nat -> Settings, run: seq<Action>): World {
    if run == [] then Fresh() else Next(host, settings, After(host, settings, run[..|run| - 1]), run[|run| - 1])
  }

  ghost predicate AllowedRun(host: Host, settings: nat -> Settings, run: seq<Action>) {
    run == [] ||
    (AllowedRun(host, settings, run[..|run| - 1])
     && Allowed(host, settings, After(host, settings, run[..|run| - 1]), run[|run| - 1]))
  }

  /** In every reachable state of every run: the live file's complete part and every archive verify on
      their own, archives in rotation order followed by the live file hold exactly the logged events,
      and every cache is the tail of the file it was taken from. */
  lemma {:induction false} RunSound(host: Host, settings: nat -> Settings, run: seq<Action>)
    requires AllGood(host, settings) && AllowedRun(host, settings, run)
    requires Unambiguous(After(host, settings, run).history)
    ensures Sound(host, After(host, settings, run))
  {
    hide Next;
    hide Sound;
    hide Allowed;
    hide Good;
    if run == [] {
      FreshSound(host);
    } else {
      var before, a := run[..|run| - 1], run[|run| - 1];
      var w := After(host, settings, before);
      HistoryGrows(host, settings, w, a);
      UnambiguousPart(w.history, After(host, settings, run).history);
      RunSound(host, settings, before);
      NextSound(host, settings, w, a);
    }
  }

  lemma FreshSound(host: Host)
    ensures Sound(host, Fresh())
  {
    EmptyAccepted(host);
    CompletePartOfComplete([]);
  }

  /** At the point of every run where an instance reads the tail, it gets what a full parse would give. */
  lemma CacheRefinesParse(host: Host, settings: nat -> Settings, run: seq<Action>, id: nat)
    requires AllGood(host, settings) && AllowedRun(host, settings, run)
    requires Unambiguous(After(host, settings, run).history)
    ensures var w := After(host, settings, run);
            w.disk.live.Some? && Complete(w.disk.live.value.text) ==>
              && ReadTail(host, w.disk.live, CacheIn(w, id)).Ok?
              && ParsedTail(host, w.disk.live.value) == Ok(ReadTail(host, w.disk.live, CacheIn(w, id)).value.0)
  {
    hide ReadTail;
    hide CacheOk;
    hide Unambiguous;
    hide EventsIn;
    hide Next;
    hide AllowedRun;
    hide Good;
    RunSound(host, settings, run);
    var w := After(host, settings, run);
    if w.disk.live.Some? && Complete(w.disk.live.value.text) {
      CompletePartOfComplete(w.disk.live.value.text);
      assert CacheOk(host, w.history, CacheIn(w, id));
      CachedTailIsTail(host, w.history, w.disk.live.value, CacheIn(w, id));
    }
  }

  /** Crash recovery over whole runs: after any run, however its last step was cut off, a repair that
      runs to its end leaves a file that verifies and still shows every logged event in order,
      followed by a marker exactly when there was a torn tail, which is then quarantined. */
  lemma CrashRecovery(host: Host, settings: nat -> Settings, run: seq<Action>, id: nat, env: RepairEnv)
    requires AllGood(host, settings) && AllowedRun(host, settings, run)
    requires Unambiguous(After(host, settings, run).history)
    requires RepairTurn(host, settings, After(host, settings, run), id, env).outcome.Done?
    ensures var w := After(host, settings, run);
            var disk := RepairTurn(host, settings, w, id, env).disk;
            && ChainOk(host, LiveText(disk))
            && ArchivesOk(host, w.order, disk.files)
            && Archived(host, w.order, disk.files) + EventsIn(host, LiveText(disk))
               == w.ledger + (if TornFile(w.disk) then [MarkerEvent(host, LiveText(w.disk), env)] else [])
            && (TornFile(w.disk) ==>
                  Torn(env.stamp) in disk.files && disk.files[Torn(env.stamp)] == TornPart(LiveText(w.disk)))
  {
    hide Linked;
    hide Split;
    hide CompletePart;
    hide TornPart;
    hide EventsIn;
    hide Next;
    hide AllowedRun;
    hide CacheOk;
    hide Repair;
    hide MarkerEvent;
    hide RepairedText;
    hide Good;
    hide Unambiguous;
    var w := After(host, settings, run);
    RunSound(host, settings, run);
    AfterRepairSound(host, settings, w, id, env);
    CompletePartOfComplete(LiveText(RepairTurn(host, settings, w, id, env).disk));
    if TornFile(w.disk) {
      RepairOfTorn(host, settings(id), w.disk, CacheIn(w, id), env);
    }
  }

  // ---------------------------------------------------------------- quarantined tails

  ghost predicate KeepsQuarantines(before: map<Name, string>, after: map<Name, string>) {
    forall n: Name :: n.Torn? && n in before ==> n in after && after[n] == before[n]
  }

  /** The step's repair, if it makes one of a torn file, uses a new stamp. */
  ghost predicate NewStamp(w: World, a: Action) {
    match a
    case Open(_) => true
    case Preflight(_, env) => TornFile(w.disk) ==> Torn(env.stamp) !in w.disk.files
    case AppendEvent(_, _, env) => TornFile(w.disk) ==> Torn(env.repair.stamp) !in w.disk.files
  }

  lemma RepairKeepsQuarantines(host: Host, settings: Settings, disk: Disk, cache: Option<Cache>, env: RepairEnv)
    requires TornFile(disk) ==> Torn(env.stamp) !in disk.files
    ensures KeepsQuarantines(disk.files, Repair(host, settings, disk, cache, env).disk.files)
  {
    hide ChainOk;
    hide Repair;
    if !TornFile(disk) {
      RepairOfWhole(host, settings, disk, cache, env);
    } else if ChainOk(host, CompletePart(LiveText(disk))) {
      RepairWrites(host, settings, disk, cache, env);
    } else {
      DamageUntouched(host, settings, disk, cache, env);
    }
  }

  lemma AppendKeepsQuarantines(host: Host, settings: Settings, disk: Disk, cache: Option<Cache>, event: Js,
                               env: AppendEnv)
    ensures KeepsQuarantines(disk.files, AppendRepaired(host, settings, disk, cache, event, env).disk.files)
  {
    hide ReadTail;
    hide NextEnvelope;
    hide Stringify;
    hide Written;
  }

  lemma StepKeepsQuarantines(host: Host, settings: nat -> Settings, w: World, a: Action)
    requires NewStamp(w, a)
    ensures KeepsQuarantines(w.disk.files, Next(host, settings, w, a).disk.files)
  {
    hide Repair;
    hide AppendRepaired;
    hide MarkerEvent;
    hide Clean;
    match a
    case Open(_) =>
    case Preflight(id, env) => RepairKeepsQuarantines(host, settings(id), w.disk, CacheIn(w, id), env);
    case AppendEvent(id, event, env) =>
      RepairKeepsQuarantines(host, settings(id), w.disk, CacheIn(w, id), env.repair);
      var w' := AfterRepair(host, settings, w, id, env.repair);
      AppendKeepsQuarantines(host, settings(id), w'.disk, CacheIn(w', id), event, env);
  }

  /** All the repairs after `run` use new stamps. */
  ghost predicate NewStamps(host: Host, settings: nat -> Settings, run: seq<Action>, more: seq<Action>) {
    more == [] ||
    (NewStamps(host, settings, run, more[..|more| - 1])
     && NewStamp(After(host, settings, run + more[..|more| - 1]), more[|more| - 1]))
  }

  lemma {:induction false} QuarantinesSurvive(host: Host, settings: nat -> Settings, run: seq<Action>,
                                              more: seq<Action>)
    requires NewStamps(host, settings, run, more)
    ensures KeepsQuarantines(After(host, settings, run).disk.files, After(host, settings, run + more).disk.files)
  {
    hide Next;
    hide NewStamp;
    if more == [] {
      assert run + more == run;
    } else {
      var n := |more| - 1;
      QuarantinesSurvive(host, settings, run, more[..n]);
      assert (run + more)[..|run + more| - 1] == run + more[..n];
      StepKeepsQuarantines(host, settings, After(host, settings, run + more[..n]), more[n]);
    }
  }

  /** A torn tail, once a repair has quarantined it, is kept through every continuation whose repairs
      use new stamps. When they do not, `AuditRecovery.RepairKeepsQuarantinesIff` says what is lost. */
  lemma TornTailsSurvive(host: Host, settings: nat -> Settings, run: seq<Action>, id: nat, env: RepairEnv,
                         more: seq<Action>)
    requires AllGood(host, settings) && AllowedRun(host, settings, run)
    requires Unambiguous(After(host, settings, run).history)
    requires TornFile(After(host, settings, run).disk)
    requires RepairTurn(host, settings, After(host, settings, run), id, env).outcome.Done?
    requires NewStamps(host, settings, run + [Preflight(id, env)], more)
    ensures var files := After(host, settings, run + [Preflight(id, env)] + more).disk.files;
            Torn(env.stamp) in files && files[Torn(env.stamp)] == TornPart(LiveText(After(host, settings, run).disk))
  {
    hide Repair;
    hide TornPart;
    hide Good;
    hide Unambiguous;
    hide AllowedRun;
    hide Linked;
    hide Split;
    hide NewStamps;
    var w := After(host, settings, run);
    var repaired := run + [Preflight(id, env)];
    assert repaired[..|repaired| - 1] == run;
    CrashRecovery(host, settings, run, id, env);
    QuarantinesSurvive(host, settings, repaired, more);
    assert After(host, settings, repaired).disk == RepairTurn(host, settings, w, id, env).disk;
  }
}
