/** Coordinator plus worker processes: at-most-once execution and the provenance of outputs.

    A world is the store, any number of worker processes, and the history that the claims are about:
    successful acknowledgements, tool executions and recorded uploads. Steps interleave freely; a
    process may crash anywhere, a reply may be lost after its request took effect, and any other
    client may send any request at any time. */
module WorkerSystem {
  import opened Prelude
  import opened CoordinatorTypes
  import opened Coordinator
  import opened CoordinatorInvariant
  import opened CoordinatorRuns

  /** Leave to run the tool once: what a successful acknowledgement gives. */
  datatype Permit = Permit(jobId: Id, fence: int)

  datatype Upload = Upload(fence: int, artifact: Id)

  /** One iteration of the remote worker: lease, acknowledge, execute, upload, complete. */
  datatype Process =
    | Idle
    | Offered(permit: Permit, leaseId: Id, token: Token)
    | Cleared(permit: Permit, leaseId: Id, token: Token)
    | Executed(permit: Permit, leaseId: Id, token: Token)
    | Uploaded(permit: Permit, leaseId: Id, token: Token, artifact: Id)

  datatype World = World(
    store: Store, procs: map<nat, Process>,
    acks: seq<Permit>, runs: seq<Permit>, uploads: set<Upload>)

  datatype Event =
    | Request(env: Env, op: Op)
    | TakeLease(p: nat, env: Env, token: Token, ttl: int, freshLeaseId: Id, delivered: bool)
    | Acknowledged(p: nat, env: Env, delivered: bool)
    | Execute(p: nat)
    | SendHeartbeat(p: nat, env: Env, ttl: int)
    | SendUpload(p: nat, env: Env, artifact: Id, delivered: bool)
    | SendCompletion(p: nat, env: Env, evidence: Evidence, signature: string)
    | SendFailure(p: nat, env: Env, reason: string)
    | Crash(p: nat)

  const EMPTY_WORLD := World(EMPTY_STORE, map[], [], [], {})

  function Proc(w: World, p: nat): Process { if p in w.procs then w.procs[p] else Idle }

  /** A request as the coordinator serves it, with the history it leaves. */
  function Serve(cfg: Config, w: World, env: Env, op: Op): World {
    var (t, r) := Mutate(cfg, w.store, env, op);
    w.(store := t,
       acks := if op.Acknowledge? && r.Ok? then w.acks + [Permit(op.jobId, op.fencingToken)] else w.acks,
       uploads := if op.RecordOutput? && r.Ok? then w.uploads + {Upload(op.fencingToken, op.artifactId)} else w.uploads)
  }

  function Becomes(w: World, p: nat, process: Process): World { w.(procs := w.procs[p := process]) }

  /** The request an event sends, if any. A process that is not at the matching point sends nothing. */
  function RequestOf(w: World, e: Event): Option<(Env, Op)> {
    match e
    case Request(env, op) => Some((env, op))
    case TakeLease(p, env, token, ttl, freshLeaseId, _) =>
      if Proc(w, p).Idle? then Some((env, LeaseNext(token, ttl, freshLeaseId))) else None
    case Acknowledged(p, env, _) =>
      var q := Proc(w, p);
      if q.Offered? then Some((env, Acknowledge(q.token, q.permit.jobId, q.leaseId, q.permit.fence))) else None
    case Execute(_) => None
    case SendHeartbeat(p, env, ttl) =>
      var q := Proc(w, p);
      if q.Cleared? || q.Executed? || q.Uploaded?
      then Some((env, Heartbeat(q.token, q.permit.jobId, q.leaseId, q.permit.fence, ttl))) else None
    case SendUpload(p, env, artifact, _) =>
      var q := Proc(w, p);
      if q.Executed? then Some((env, RecordOutput(q.token, q.permit.jobId, q.leaseId, q.permit.fence, artifact)))
          else None
    case SendCompletion(p, env, evidence, signature) =>
      var q := Proc(w, p);
      if q.Uploaded? then Some((env, Complete(q.token, evidence, signature))) else None
    case SendFailure(p, env, reason) =>
      var q := Proc(w, p);
      if q.Cleared? || q.Executed? || q.Uploaded?
      then Some((env, Fail(q.token, q.permit.jobId, q.leaseId, q.permit.fence, reason))) else None
    case Crash(_) => None
  }

  /** Where the process stands once the reply arrived, was refused, or was lost. */
  function NextProcess(w: World, e: Event, r: Result<Reply, Fault>): Option<(nat, Process)> {
    match e
    case TakeLease(p, _, token, _, _, delivered) =>
      if delivered && r.Ok? && r.value.LeaseReply? && r.value.leased.Some? && r.value.leased.value.lease.Some? then
        var job := r.value.leased.value;
        Some((p, Offered(Permit(job.id, job.lease.value.fencingToken), job.lease.value.id, token)))
      else Some((p, Idle))
    case Acknowledged(p, _, delivered) =>
      var q := Proc(w, p);
      if q.Offered? && delivered && r.Ok? then Some((p, Cleared(q.permit, q.leaseId, q.token))) else Some((p, Idle))
    case SendUpload(p, _, artifact, delivered) =>
      var q := Proc(w, p);
      if q.Executed? && delivered && r.Ok? then Some((p, Uploaded(q.permit, q.leaseId, q.token, artifact)))
          else Some((p, Idle))
    case SendCompletion(p, _, _, _) => Some((p, Idle))
    case SendFailure(p, _, _) => Some((p, Idle))
    case _ => None
  }

  function Next(cfg: Config, w: World, e: Event): World {
    match e
    case Execute(p) =>
      var q := Proc(w, p);
      if q.Cleared? then
        Becomes(w.(runs := w.runs + [q.permit]), p, Executed(q.permit, q.leaseId, q.token))
      else w
    case Crash(p) => Becomes(w, p, Idle)
    case _ =>
      match RequestOf(w, e)
      case None => w
      case Some((env, op)) =>
        var served := Serve(cfg, w, env, op);
        match NextProcess(w, e, Mutate(cfg, w.store, env, op).1)
        case None => served
        case Some((p, process)) => Becomes(served, p, process)
  }

  function Final(cfg: Config, w: World, events: seq<Event>): World
    decreases |events|
  {
    if events == [] then w else Final(cfg, Next(cfg, w, events[0]), events[1..])
  }

  ghost predicate FreshEvent(w: World, e: Event) {
    RequestOf(w, e).Some? ==> Fresh(w.store, RequestOf(w, e).value.1)
  }

  ghost predicate FreshEvents(cfg: Config, w: World, events: seq<Event>)
    decreases |events|
  {
    events == [] || (FreshEvent(w, events[0]) && FreshEvents(cfg, Next(cfg, w, events[0]), events[1..]))
  }

  // ---------------------------------------------------------------- acknowledgements

  function Count(permits: seq<Permit>, jobId: Id): nat {
    if permits == [] then 0
    else Count(permits[..|permits| - 1], jobId) + (if permits[|permits| - 1].jobId == jobId then 1 else 0)
  }

  /** Job number `i` stands behind the permit; if it is no-replay it can never be offered again. */
  ghost predicate Backs(s: Store, i: nat, p: Permit) {
    i < |s.jobs| && s.jobs[i].id == p.jobId && (s.jobs[i].policy == NoReplay ==> Committed(s.jobs[i]))
  }

  /** The permit was issued under a known token, and no unacknowledged lease carries that token. */
  ghost predicate PermitOk(s: Store, p: Permit) {
    && p.fence <= s.nextFencingToken
    && (exists i: nat :: Backs(s, i, p))
    && (forall i :: 0 <= i < |s.jobs| && s.jobs[i].state == Leased && s.jobs[i].lease.Some? ==>
          s.jobs[i].lease.value.fencingToken != p.fence)
  }

  ghost predicate Replayable(s: Store, jobId: Id) {
    forall i :: 0 <= i < |s.jobs| && s.jobs[i].id == jobId ==> s.jobs[i].policy == Idempotent
  }

  ghost predicate PermitsApart(s: Store, p: Permit, q: Permit) {
    p.fence != q.fence && (p.jobId == q.jobId ==> Replayable(s, p.jobId))
  }

  ghost predicate Budgeted(acks: seq<Permit>, job: Job) {
    Count(acks, job.id) + (if job.state == Leased then 1 else 0) <= job.attempts
  }

  ghost predicate AckInv(s: Store, acks: seq<Permit>) {
    && (forall k :: 0 <= k < |acks| ==> PermitOk(s, acks[k]))
    && (forall j, k :: 0 <= j < k < |acks| ==> PermitsApart(s, acks[j], acks[k]))
    && (forall i :: 0 <= i < |s.jobs| ==> Budgeted(acks, s.jobs[i]))
  }

  lemma {:induction false} CountZero(permits: seq<Permit>, jobId: Id)
    requires forall k :: 0 <= k < |permits| ==> permits[k].jobId != jobId
    ensures Count(permits, jobId) == 0
  {
    if permits != [] { CountZero(permits[..|permits| - 1], jobId); }
  }

  lemma PermitPersists(cfg: Config, s: Store, t: Store, p: Permit)
    requires Inv(cfg, t) && Advances(s, t) && PermitOk(s, p)
    ensures PermitOk(t, p)
  {
    var i: nat :| Backs(s, i, p);
    assert JobAdvances(s.jobs[i], t.jobs[i], s.nextFencingToken);
    assert Backs(t, i, p);
    forall k | 0 <= k < |t.jobs| && t.jobs[k].state == Leased && t.jobs[k].lease.Some?
      ensures t.jobs[k].lease.value.fencingToken != p.fence
    {
      if k < |s.jobs| { assert JobAdvances(s.jobs[k], t.jobs[k], s.nextFencingToken); }
    }
  }

  lemma ApartPersists(cfg: Config, s: Store, t: Store, p: Permit, q: Permit)
    requires Inv(cfg, t) && Advances(s, t) && PermitOk(s, p) && PermitsApart(s, p, q)
    ensures PermitsApart(t, p, q)
  {
    var i: nat :| Backs(s, i, p);
    assert JobAdvances(s.jobs[i], t.jobs[i], s.nextFencingToken);
    forall k | 0 <= k < |t.jobs| && t.jobs[k].id == p.jobId && p.jobId == q.jobId
      ensures t.jobs[k].policy == Idempotent
    {
      SameIdSameJob(cfg, t, i, k);
    }
  }

  lemma BudgetPersists(cfg: Config, s: Store, t: Store, acks: seq<Permit>, i: nat)
    requires Inv(cfg, t) && Advances(s, t) && AckInv(s, acks) && i < |t.jobs|
    ensures Budgeted(acks, t.jobs[i])
  {
    assert JobOk(cfg, t, t.jobs[i]);
    if i < |s.jobs| {
      assert Budgeted(acks, s.jobs[i]) && JobAdvances(s.jobs[i], t.jobs[i], s.nextFencingToken);
    } else {
      forall k | 0 <= k < |acks| ensures acks[k].jobId != t.jobs[i].id {
        assert PermitOk(s, acks[k]);
        var j: nat :| Backs(s, j, acks[k]);
        assert JobAdvances(s.jobs[j], t.jobs[j], s.nextFencingToken);
        assert Apart(t.jobs[j], t.jobs[i]);
      }
      CountZero(acks, t.jobs[i].id);
    }
  }

  /** Whatever the store does, the permits already issued stay as they were. */
  lemma AcksPersist(cfg: Config, s: Store, t: Store, acks: seq<Permit>)
    requires Inv(cfg, t) && Advances(s, t) && AckInv(s, acks)
    ensures AckInv(t, acks)
  {
    forall k | 0 <= k < |acks| ensures PermitOk(t, acks[k]) {
      assert PermitOk(s, acks[k]);
      PermitPersists(cfg, s, t, acks[k]);
    }
    forall j, k | 0 <= j < k < |acks| ensures PermitsApart(t, acks[j], acks[k]) {
      assert PermitOk(s, acks[j]) && PermitsApart(s, acks[j], acks[k]);
      ApartPersists(cfg, s, t, acks[j], acks[k]);
    }
    forall i | 0 <= i < |t.jobs| ensures Budgeted(acks, t.jobs[i]) {
      BudgetPersists(cfg, s, t, acks, i);
    }
  }

  /** Permit `p` has just been issued for job `i`, whose lease was waiting for it. */
  ghost predicate JustAcked(s: Store, t: Store, i: nat, p: Permit) {
    && i < |s.jobs| <= |t.jobs| && s.jobs[i].id == p.jobId && t.jobs[i].id == p.jobId
    && s.jobs[i].state == Leased && s.jobs[i].lease.Some? && s.jobs[i].lease.value.fencingToken == p.fence
    && t.jobs[i].state == Running && t.jobs[i].lease.Some? && t.jobs[i].lease.value.fencingToken == p.fence
    && t.jobs[i].attempts == s.jobs[i].attempts
  }

  lemma AckEffect(cfg: Config, s: Store, env: Env, token: Token, jobId: Id, leaseId: Id, fence: int) returns (i: nat)
    requires AcknowledgeJob(cfg, s, env, token, jobId, leaseId, fence).Ok?
    ensures JustAcked(s, AcknowledgeJob(cfg, s, env, token, jobId, leaseId, fence).value.0, i, Permit(jobId, fence))
  {
    i := Authorize(cfg, s, env, token, jobId, leaseId, fence).value.1;
  }

  lemma JustAckedBefore(cfg: Config, s: Store, r: Store, t: Store, i: nat, p: Permit)
    requires Inv(cfg, s) && Inv(cfg, r) && Evolves(s, r) && JustAcked(r, t, i, p)
    ensures JustAcked(s, t, i, p)
  {
    assert JobEvolves(s.jobs[i], r.jobs[i], r.nextFencingToken);
    assert JobOk(cfg, r, r.jobs[i]) && JobOk(cfg, s, s.jobs[i]);
  }

  /** A successful acknowledgement found an unacknowledged lease with that token, and leaves it running. */
  lemma AckTransition(cfg: Config, s: Store, env: Env, op: Op) returns (i: nat)
    requires Inv(cfg, s) && op.Acknowledge? && Mutate(cfg, s, env, op).1.Ok?
    ensures JustAcked(s, Mutate(cfg, s, env, op).0, i, Permit(op.jobId, op.fencingToken))
  {
    var r := Recovered(s, env.recoverAt);
    RecoveryKeepsInv(cfg, s, env.recoverAt);
    AckServed(cfg, s, env, op);
    i := AckEffect(cfg, r, env, op.token, op.jobId, op.leaseId, op.fencingToken);
    var t := AcknowledgeJob(cfg, r, env, op.token, op.jobId, op.leaseId, op.fencingToken).value.0;
    JustAckedBefore(cfg, s, r, t, i, Permit(op.jobId, op.fencingToken));
  }

  lemma AckServed(cfg: Config, s: Store, env: Env, op: Op)
    requires op.Acknowledge? && Mutate(cfg, s, env, op).1.Ok?
    ensures var o := AcknowledgeJob(cfg, Recovered(s, env.recoverAt), env, op.token, op.jobId, op.leaseId,
                                    op.fencingToken);
            o.Ok? && Mutate(cfg, s, env, op).0 == o.value.0
  {
  }

  lemma ExtendAcks(cfg: Config, s: Store, t: Store, acks: seq<Permit>, i: nat, p: Permit)
    requires Inv(cfg, s) && Inv(cfg, t) && Advances(s, t) && AckInv(s, acks) && JustAcked(s, t, i, p)
    ensures AckInv(t, acks + [p])
  {
    AcksPersist(cfg, s, t, acks);
    NewPermitOk(cfg, s, t, i, p);
    forall k | 0 <= k < |acks| ensures PermitsApart(t, acks[k], p) { NewPermitApart(cfg, s, t, acks, k, i, p); }
    forall k | 0 <= k < |t.jobs| ensures Budgeted(acks + [p], t.jobs[k]) {
      NewPermitBudgeted(cfg, s, t, acks, k, i, p);
    }
  }

  lemma NewAck(cfg: Config, s: Store, acks: seq<Permit>, env: Env, op: Op)
    requires Inv(cfg, s) && AckInv(s, acks) && op.Acknowledge? && Mutate(cfg, s, env, op).1.Ok?
    ensures AckInv(Mutate(cfg, s, env, op).0, acks + [Permit(op.jobId, op.fencingToken)])
  {
    MutateKeepsInv(cfg, s, env, op);
    var i := AckTransition(cfg, s, env, op);
    ExtendAcks(cfg, s, Mutate(cfg, s, env, op).0, acks, i, Permit(op.jobId, op.fencingToken));
  }

  lemma NewPermitOk(cfg: Config, s: Store, t: Store, i: nat, p: Permit)
    requires Inv(cfg, t) && JustAcked(s, t, i, p)
    ensures PermitOk(t, p)
  {
    assert JobOk(cfg, t, t.jobs[i]) && Backs(t, i, p);
    forall k | 0 <= k < |t.jobs| && t.jobs[k].state == Leased && t.jobs[k].lease.Some?
      ensures t.jobs[k].lease.value.fencingToken != p.fence
    {
      if k < i { assert Apart(t.jobs[k], t.jobs[i]); }
      if i < k { assert Apart(t.jobs[i], t.jobs[k]); }
    }
  }

  lemma NewPermitApart(cfg: Config, s: Store, t: Store, acks: seq<Permit>, k: nat, i: nat, p: Permit)
    requires Inv(cfg, s) && Inv(cfg, t) && Advances(s, t) && AckInv(s, acks) && k < |acks| && JustAcked(s, t, i, p)
    ensures PermitsApart(t, acks[k], p)
  {
    assert PermitOk(s, acks[k]);
    if acks[k].jobId == p.jobId {
      var b: nat :| Backs(s, b, acks[k]);
      SameIdSameJob(cfg, s, b, i);
      assert s.jobs[i].policy == Idempotent && JobAdvances(s.jobs[i], t.jobs[i], s.nextFencingToken);
      forall j | 0 <= j < |t.jobs| && t.jobs[j].id == p.jobId ensures t.jobs[j].policy == Idempotent {
        SameIdSameJob(cfg, t, i, j);
      }
    }
  }

  lemma NewPermitBudgeted(cfg: Config, s: Store, t: Store, acks: seq<Permit>, k: nat, i: nat, p: Permit)
    requires Inv(cfg, t) && AckInv(s, acks) && AckInv(t, acks) && JustAcked(s, t, i, p) && k < |t.jobs|
    ensures Budgeted(acks + [p], t.jobs[k])
  {
    var all := acks + [p];
    assert all[..|all| - 1] == acks;
    assert Budgeted(acks, t.jobs[k]) && Budgeted(acks, s.jobs[i]);
    if k != i {
      assert if k < i then Apart(t.jobs[k], t.jobs[i]) else Apart(t.jobs[i], t.jobs[k]);
    }
  }

  // ---------------------------------------------------------------- executions

  /** Cleared processes hold different permits, none of them used; no permit was used twice. */
  ghost predicate RunInv(w: World) {
    && (forall p <- w.procs :: w.procs[p].Cleared? ==> w.procs[p].permit in w.acks && w.procs[p].permit !in w.runs)
    && (forall p <- w.procs, q <- w.procs :: p != q && w.procs[p].Cleared? && w.procs[q].Cleared? ==>
          w.procs[p].permit != w.procs[q].permit)
    && (forall k :: 0 <= k < |w.runs| ==> w.runs[k] in w.acks)
    && (forall j, k :: 0 <= j < k < |w.runs| ==> w.runs[j] != w.runs[k])
  }

  ghost predicate WorldInv(cfg: Config, w: World) {
    Inv(cfg, w.store) && AckInv(w.store, w.acks) && RunInv(w)
  }

  lemma ServeKeepsStore(cfg: Config, w: World, env: Env, op: Op)
    requires WorldInv(cfg, w) && Fresh(w.store, op)
    ensures var v := Serve(cfg, w, env, op);
            Inv(cfg, v.store) && AckInv(v.store, v.acks) && Advances(w.store, v.store)
  {
    MutateKeepsInv(cfg, w.store, env, op);
    if op.Acknowledge? && Mutate(cfg, w.store, env, op).1.Ok? {
      NewAck(cfg, w.store, w.acks, env, op);
    } else {
      AcksPersist(cfg, w.store, Mutate(cfg, w.store, env, op).0, w.acks);
    }
  }

  /** A new permit belongs to nobody: no process is cleared for it and no run has used it. */
  lemma NewPermitUnused(cfg: Config, w: World, env: Env, op: Op)
    requires WorldInv(cfg, w) && op.Acknowledge? && Mutate(cfg, w.store, env, op).1.Ok?
    ensures Permit(op.jobId, op.fencingToken) !in w.acks
  {
    var p := Permit(op.jobId, op.fencingToken);
    var i := AckTransition(cfg, w.store, env, op);
    forall k | 0 <= k < |w.acks| ensures w.acks[k] != p {
      assert PermitOk(w.store, w.acks[k]);
    }
  }

  /** A process moves on. It is cleared only by a permit that was not issued before. */
  lemma MoveKeepsRuns(w: World, v: World, p: nat, process: Process)
    requires RunInv(w) && v.runs == w.runs && v.procs == w.procs[p := process]
    requires forall a <- w.acks :: a in v.acks
    requires process.Cleared? ==> process.permit in v.acks && process.permit !in w.acks
    ensures RunInv(v)
  {
  }

  lemma IssueKeepsRuns(w: World, v: World)
    requires RunInv(w) && v.runs == w.runs && v.procs == w.procs
    requires forall a <- w.acks :: a in v.acks
    ensures RunInv(v)
  {
  }

  lemma ExecuteKeepsRuns(w: World, p: nat)
    requires RunInv(w) && Proc(w, p).Cleared?
    ensures var q := w.procs[p];
            RunInv(Becomes(w.(runs := w.runs + [q.permit]), p, Executed(q.permit, q.leaseId, q.token)))
  {
  }

  lemma RequestKeepsRuns(cfg: Config, w: World, e: Event, env: Env, op: Op)
    requires WorldInv(cfg, w) && RequestOf(w, e) == Some((env, op))
    ensures RunInv(Next(cfg, w, e))
  {
    var r := Mutate(cfg, w.store, env, op).1;
    var v := Serve(cfg, w, env, op);
    if op.Acknowledge? && r.Ok? {
      NewPermitUnused(cfg, w, env, op);
      assert v.acks[|w.acks|] == Permit(op.jobId, op.fencingToken);
    }
    match NextProcess(w, e, r)
    case None => IssueKeepsRuns(w, v);
    case Some((p, process)) => MoveKeepsRuns(w, Becomes(v, p, process), p, process);
  }

  lemma StepKeepsInv(cfg: Config, w: World, e: Event)
    requires WorldInv(cfg, w) && FreshEvent(w, e)
    ensures WorldInv(cfg, Next(cfg, w, e))
  {
    match RequestOf(w, e)
    case None => LocalStepKeepsInv(cfg, w, e);
    case Some((env, op)) =>
      ServeKeepsStore(cfg, w, env, op);
      RequestKeepsRuns(cfg, w, e, env, op);
      ServedWorld(cfg, w, e, env, op);
  }

  lemma LocalStepKeepsInv(cfg: Config, w: World, e: Event)
    requires WorldInv(cfg, w) && RequestOf(w, e).None?
    ensures WorldInv(cfg, Next(cfg, w, e))
  {
    if e.Crash? { MoveKeepsRuns(w, Next(cfg, w, e), e.p, Idle); }
    if e.Execute? && Proc(w, e.p).Cleared? { ExecuteKeepsRuns(w, e.p); }
  }

  lemma ServedWorld(cfg: Config, w: World, e: Event, env: Env, op: Op)
    requires RequestOf(w, e) == Some((env, op))
    ensures var v := Serve(cfg, w, env, op);
            Next(cfg, w, e).store == v.store && Next(cfg, w, e).acks == v.acks && Next(cfg, w, e).uploads == v.uploads
  {
  }

  lemma {:induction false} WorldsKeepInv(cfg: Config, w: World, events: seq<Event>)
    requires WorldInv(cfg, w) && FreshEvents(cfg, w, events)
    ensures WorldInv(cfg, Final(cfg, w, events))
    decreases |events|
  {
    if events != [] {
      StepKeepsInv(cfg, w, events[0]);
      WorldsKeepInv(cfg, Next(cfg, w, events[0]), events[1..]);
    }
  }

  function PermitsFor(permits: seq<Permit>, jobId: Id): set<Permit> {
    set p | p in permits && p.jobId == jobId
  }

  /** Without repetition, counting is the size of the set. */
  lemma {:induction false} CountIsSize(permits: seq<Permit>, jobId: Id)
    requires forall j, k :: 0 <= j < k < |permits| ==> permits[j] != permits[k]
    ensures Count(permits, jobId) == |PermitsFor(permits, jobId)|
  {
    if permits != [] {
      var n := |permits| - 1;
      var rest, last := permits[..n], permits[n];
      CountIsSize(rest, jobId);
      assert permits == rest + [last];
      if last.jobId == jobId {
        assert PermitsFor(permits, jobId) == PermitsFor(rest, jobId) + {last};
      } else {
        assert PermitsFor(permits, jobId) == PermitsFor(rest, jobId);
      }
    }
  }

  lemma SubsetSize<T>(a: set<T>, b: set<T>)
    requires a <= b
    ensures |a| <= |b|
  {
    assert b == a + (b - a);
  }

  /** At-most-once execution, over every interleaving of workers, crashes, lost replies, expiries,
      revocations and retries: every execution used its own fencing token, a job runs at most
      `attempts` times, and a no-replay job runs at most once. */
  lemma AtMostOnce(cfg: Config, events: seq<Event>)
    requires FreshEvents(cfg, EMPTY_WORLD, events)
    ensures var w := Final(cfg, EMPTY_WORLD, events);
            && (forall j, k :: 0 <= j < k < |w.runs| ==> w.runs[j].fence != w.runs[k].fence)
            && (forall i :: 0 <= i < |w.store.jobs| ==> Count(w.runs, w.store.jobs[i].id) <= w.store.jobs[i].attempts)
            && (forall i :: 0 <= i < |w.store.jobs| && w.store.jobs[i].policy == NoReplay ==>
                  Count(w.runs, w.store.jobs[i].id) <= 1)
  {
    var w := Final(cfg, EMPTY_WORLD, events);
    WorldsKeepInv(cfg, EMPTY_WORLD, events);
    forall j, k | 0 <= j < k < |w.runs| ensures w.runs[j].fence != w.runs[k].fence { RunsApart(cfg, w, j, k); }
    forall i | 0 <= i < |w.store.jobs|
      ensures Count(w.runs, w.store.jobs[i].id) <= w.store.jobs[i].attempts
      ensures w.store.jobs[i].policy == NoReplay ==> Count(w.runs, w.store.jobs[i].id) <= 1
    {
      RunsBounded(cfg, w, i);
    }
  }

  lemma RunsApart(cfg: Config, w: World, j: nat, k: nat)
    requires WorldInv(cfg, w) && j < k < |w.runs|
    ensures PermitsApart(w.store, w.runs[j], w.runs[k])
  {
    assert w.runs[j] in w.acks && w.runs[k] in w.acks;
    var a :| 0 <= a < |w.acks| && w.acks[a] == w.runs[j];
    var b :| 0 <= b < |w.acks| && w.acks[b] == w.runs[k];
    assert a != b;
    assert if a < b then PermitsApart(w.store, w.acks[a], w.acks[b]) else PermitsApart(w.store, w.acks[b], w.acks[a]);
  }

  lemma RunsBounded(cfg: Config, w: World, i: nat)
    requires WorldInv(cfg, w) && i < |w.store.jobs|
    ensures Count(w.runs, w.store.jobs[i].id) <= w.store.jobs[i].attempts
    ensures w.store.jobs[i].policy == NoReplay ==> Count(w.runs, w.store.jobs[i].id) <= 1
  {
    var job := w.store.jobs[i];
    forall j, k | 0 <= j < k < |w.acks| ensures w.acks[j] != w.acks[k] {
      assert PermitsApart(w.store, w.acks[j], w.acks[k]);
    }
    CountIsSize(w.runs, job.id);
    CountIsSize(w.acks, job.id);
    SubsetSize(PermitsFor(w.runs, job.id), PermitsFor(w.acks, job.id));
    assert Budgeted(w.acks, job);
    if job.policy == NoReplay { NoReplayRunsOnce(cfg, w, i); }
  }

  lemma NoReplayRunsOnce(cfg: Config, w: World, i: nat)
    requires WorldInv(cfg, w) && i < |w.store.jobs| && w.store.jobs[i].policy == NoReplay
    ensures |PermitsFor(w.runs, w.store.jobs[i].id)| <= 1
  {
    var ran := PermitsFor(w.runs, w.store.jobs[i].id);
    if p :| p in ran {
      forall q | q in ran ensures q == p {
        var a :| 0 <= a < |w.runs| && w.runs[a] == p;
        var b :| 0 <= b < |w.runs| && w.runs[b] == q;
        if a < b { RunsApart(cfg, w, a, b); } else if b < a { RunsApart(cfg, w, b, a); }
      }
      assert ran == {p};
    }
  }
}
