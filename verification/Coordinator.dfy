/** The coordinator's operations as functions on the saved store.

    Every write goes through `Mutate`: recover expired leases, run the operation, save. A thrown
    error skips the save, so a failed request leaves the store exactly as it was. */
module Coordinator {
  import opened Prelude
  import opened CoordinatorTypes

  type Outcome = Result<(Store, Reply), Fault>

  // ---------------------------------------------------------------- lookup and validation

  function WorkerIndex(s: Store, id: Id): (r: Option<nat>)
    ensures r.Some? ==> r.value < |s.workers| && s.workers[r.value].id == id
    ensures r.None? ==> forall k :: 0 <= k < |s.workers| ==> s.workers[k].id != id
  {
    var p := (w: Worker) => w.id == id;
    assert forall k :: 0 <= k < |s.workers| ==> p(s.workers[k]) == (s.workers[k].id == id);
    FirstIndex(s.workers, p)
  }

  function JobIndex(s: Store, id: Id): (r: Option<nat>)
    ensures r.Some? ==> r.value < |s.jobs| && s.jobs[r.value].id == id
    ensures r.None? ==> forall k :: 0 <= k < |s.jobs| ==> s.jobs[k].id != id
  {
    var p := (j: Job) => j.id == id;
    assert forall k :: 0 <= k < |s.jobs| ==> p(s.jobs[k]) == (s.jobs[k].id == id);
    FirstIndex(s.jobs, p)
  }

  function KeyIndex(jobs: seq<Job>, key: string): (r: Option<nat>)
    ensures r.Some? ==> r.value < |jobs| && jobs[r.value].idempotencyKey == key
    ensures r.None? ==> forall k :: 0 <= k < |jobs| ==> jobs[k].idempotencyKey != key
  {
    var p := (j: Job) => j.idempotencyKey == key;
    assert forall k :: 0 <= k < |jobs| ==> p(jobs[k]) == (jobs[k].idempotencyKey == key);
    FirstIndex(jobs, p)
  }

  predicate HeldBy(job: Job, workerId: Id) {
    job.lease.Some? && job.lease.value.workerId == workerId && Holding(job.state)
  }

  function HeldIndex(jobs: seq<Job>, workerId: Id): (r: Option<nat>)
    ensures r.Some? ==> r.value < |jobs| && HeldBy(jobs[r.value], workerId)
    ensures r.None? ==> forall k :: 0 <= k < |jobs| ==> !HeldBy(jobs[k], workerId)
  {
    var p := (j: Job) => HeldBy(j, workerId);
    assert forall k :: 0 <= k < |jobs| ==> p(jobs[k]) == HeldBy(jobs[k], workerId);
    FirstIndex(jobs, p)
  }

  predicate ValidTtl(value: int, maximum: int) { 1000 <= value <= maximum }

  function SetOf<T>(s: seq<T>): set<T> { set x | x in s }

  predicate ValidCapabilities(cfg: Config, caps: seq<string>) {
    |caps| <= MAX_CAPABILITIES && forall c <- caps :: cfg.matches(Capability, cfg.trim(c))
  }

  function CapabilitySet(cfg: Config, caps: seq<string>): set<string> {
    set c | c in caps :: cfg.trim(c)
  }

  predicate ValidArtifacts(cfg: Config, env: Env, ids: seq<Id>) {
    |ids| <= MAX_ARTIFACTS && forall a <- ids :: cfg.matches(ArtifactId, a) && a in env.artifacts
  }

  predicate ValidEvidence(cfg: Config, env: Env, e: Evidence) {
    && e.schemaVersion == 1
    && cfg.matches(JobId, e.jobId) && cfg.matches(WorkerId, e.workerId)
    && cfg.bounded(e.leaseId, 128).Some? && cfg.bounded(e.tool, 128).Some?
    && 1 <= e.fencingToken <= MAX_SAFE
    && cfg.matches(Digest, e.argsDigest) && cfg.matches(Digest, e.resultDigest)
    && (e.resultSummary.Some? ==> cfg.bounded(e.resultSummary.value, 2000).Some?)
    && ValidArtifacts(cfg, env, e.inputs) && ValidArtifacts(cfg, env, e.outputs)
    && 1 <= e.completedAt <= MAX_SAFE
    && e.sandbox.mode != UnknownMode && cfg.matches(Digest, e.sandbox.policyDigest)
    && (e.sandbox.imageDigest.Some? ==> cfg.matches(ImageDigest, e.sandbox.imageDigest.value))
  }

  // ---------------------------------------------------------------- leases

  function ClearLease(job: Job): Job { job.(lease := None, leaseOutputs := None) }

  /** A zero acknowledgement time reads as absent, as it does in the source. */
  predicate MayHaveStarted(job: Job) {
    job.state == Running ||
    (job.lease.Some? && job.lease.value.acknowledgedAt.Some? && job.lease.value.acknowledgedAt.value != 0)
  }

  function ExpireLease(job: Job, now: int, reason: BlockReason): Job {
    if !MayHaveStarted(job) || job.policy == Idempotent then
      ClearLease(job.(state := Queued, updatedAt := now, blockedReason := None))
    else
      ClearLease(job.(state := Blocked, updatedAt := now, blockedReason := Some(reason)))
  }

  predicate Expired(job: Job, now: int) {
    job.lease.Some? && Holding(job.state) && job.lease.value.expiresAt <= now
  }

  function RecoverJob(job: Job, now: int): Job {
    if Expired(job, now) then ExpireLease(job, now, LeaseExpired) else job
  }

  function Recovered(s: Store, now: int): Store {
    s.(jobs := seq(|s.jobs|, i requires 0 <= i < |s.jobs| => RecoverJob(s.jobs[i], now)))
  }

  /** Identifiers of the jobs that recovery moves to `target`, in store order. */
  function RecoveredIds(jobs: seq<Job>, now: int, target: JobState): seq<Id> {
    if jobs == [] then []
    else
      var rest := RecoveredIds(jobs[..|jobs| - 1], now, target);
      var job := jobs[|jobs| - 1];
      if Expired(job, now) && RecoverJob(job, now).state == target then rest + [job.id] else rest
  }

  function Authenticate(s: Store, token: Token, now: int): Result<nat, Fault> {
    match token
    case Unreadable => Err(BadToken)
    case Claims(workerId, tokenId, expiresAt) =>
      match WorkerIndex(s, workerId)
      case None => Err(WorkerNotFound)
      case Some(w) =>
        if s.workers[w].state != Active then Err(WorkerIsRevoked)
        else if s.workers[w].activeTokenId != Some(tokenId) then Err(TokenRotated)
        else if expiresAt <= now then Err(TokenExpired)
        else Ok(w)
  }

  /** The lease check shared by every worker request. The expiry branch of the source also expires
      the lease in memory, but the error it then raises discards that. */
  function MatchLease(cfg: Config, s: Store, workerId: Id, jobId: Id, leaseId: Id, fencingToken: int,
                      now: int): Result<nat, Fault>
  {
    if !cfg.matches(JobId, jobId) then Err(InvalidInput)
    else
      match JobIndex(s, jobId)
      case None => Err(JobNotFound)
      case Some(i) =>
        match s.jobs[i].lease
        case None => Err(NoLease)
        case Some(lease) =>
          if lease.workerId != workerId || lease.id != leaseId || lease.fencingToken != fencingToken
          then Err(StaleLease)
          else if lease.expiresAt <= now then Err(ExpiredLease)
          else Ok(i)
  }

  /** Authentication followed by the lease check: (worker index, job index). */
  function Authorize(cfg: Config, s: Store, env: Env, token: Token, jobId: Id, leaseId: Id,
                     fencingToken: int): Result<(nat, nat), Fault>
  {
    match Authenticate(s, token, env.authAt)
    case Err(e) => Err(e)
    case Ok(w) =>
      match MatchLease(cfg, s, s.workers[w].id, jobId, leaseId, fencingToken, env.matchAt)
      case Err(e) => Err(e)
      case Ok(i) => Ok((w, i))
  }

  function WithJob(s: Store, i: nat, job: Job): Store
    requires i < |s.jobs|
  {
    s.(jobs := s.jobs[i := job])
  }

  function WithWorker(s: Store, w: nat, worker: Worker): Store
    requires w < |s.workers|
  {
    s.(workers := s.workers[w := worker])
  }

  function Seen(worker: Worker, now: int): Worker {
    worker.(lastSeenAt := Some(now), updatedAt := now)
  }

  function WithToken(worker: Worker, tokenId: Id, now: int, ttl: int): Worker {
    worker.(activeTokenId := Some(tokenId), tokenExpiresAt := Some(now + ttl), updatedAt := now)
  }

  // ---------------------------------------------------------------- worker administration

  function RegisterWorker(cfg: Config, s: Store, env: Env, op: Op): Outcome
    requires op.Register?
  {
    var name := cfg.bounded(op.name, 128);
    var key := cfg.bounded(op.publicKey, 16384);
    if name.None? || !ValidCapabilities(cfg, op.capabilities) || key.None?
       || !cfg.matches(Ed25519Key, key.value) || !ValidTtl(op.ttl, cfg.maxTokenTtl)
    then Err(InvalidInput)
    else if exists w <- s.workers :: w.fingerprint == cfg.fingerprint(key.value) && w.state == Active
    then Err(KeyInUse)
    else
      var worker := WithToken(
        Worker(op.freshId, name.value, CapabilitySet(cfg, op.capabilities), key.value,
               cfg.fingerprint(key.value),
               Active, env.now, env.now, None, None, None, None, None),
        op.freshTokenId, env.now, op.ttl);
      Ok((s.(workers := s.workers + [worker]), WorkerReply(worker)))
  }

  function RotateToken(cfg: Config, s: Store, env: Env, workerId: Id, ttl: int, tokenId: Id): Outcome {
    if !cfg.matches(WorkerId, workerId) || !ValidTtl(ttl, cfg.maxTokenTtl) then Err(InvalidInput)
    else
      match WorkerIndex(s, workerId)
      case None => Err(WorkerNotFound)
      case Some(w) =>
        if s.workers[w].state != Active then Err(WorkerIsRevoked)
        else
          var worker := WithToken(s.workers[w], tokenId, env.now, ttl);
          Ok((WithWorker(s, w, worker), WorkerReply(worker)))
  }

  function ReleaseFrom(job: Job, workerId: Id, now: int): Job {
    if HeldBy(job, workerId) then ExpireLease(job, now, WorkerRevoked) else job
  }

  function ReleasedAll(jobs: seq<Job>, workerId: Id, now: int): seq<Job> {
    seq(|jobs|, i requires 0 <= i < |jobs| => ReleaseFrom(jobs[i], workerId, now))
  }

  function RevokeWorker(cfg: Config, s: Store, env: Env, workerId: Id, reason: string): Outcome {
    if !cfg.matches(WorkerId, workerId) then Err(InvalidInput)
    else
      match WorkerIndex(s, workerId)
      case None => Err(WorkerNotFound)
      case Some(w) =>
        var text := cfg.bounded(reason, 512);
        if text.None? then Err(InvalidInput)
        else
          var worker := s.workers[w].(state := Revoked, revokedAt := Some(env.now), revokeReason := text,
                                      updatedAt := env.now, activeTokenId := None, tokenExpiresAt := None);
          Ok((WithWorker(s, w, worker).(jobs := ReleasedAll(s.jobs, workerId, env.now)), WorkerReply(worker)))
  }

  // ---------------------------------------------------------------- jobs

  function OpenCount(jobs: seq<Job>): nat {
    if jobs == [] then 0
    else OpenCount(jobs[..|jobs| - 1]) + (if Terminal(jobs[|jobs| - 1].state) then 0 else 1)
  }

  function SubmitJob(cfg: Config, s: Store, env: Env, spec: JobSpec, freshId: Id): Outcome {
    var tool := cfg.bounded(spec.tool, 128);
    var digest := cfg.sha256(spec.payloadText);
    var key := if spec.idempotencyKey.Some? then cfg.bounded(spec.idempotencyKey.value, 256)
               else Some(AUTO_KEY_PREFIX + digest);
    if tool.None? || !cfg.matches(ToolName, tool.value) || cfg.byteLength(spec.payloadText) > MAX_ARGS_BYTES
       || key.None? || !ValidCapabilities(cfg, spec.required) || !ValidArtifacts(cfg, env, spec.inputs)
    then Err(InvalidInput)
    else
      match KeyIndex(s.jobs, key.value)
      case Some(i) =>
        if s.jobs[i].payloadDigest != digest then Err(PayloadMismatch)
        else Ok((s, SubmitReply(s.jobs[i], true)))
      case None =>
        if OpenCount(s.jobs) >= cfg.maxQueuedJobs then Err(QuotaReached)
        else
          var job := Job(freshId, key.value, tool.value, cfg.sha256(spec.argsText), digest, spec.payloadText,
                         cfg.ordered(SetOf(spec.inputs)), CapabilitySet(cfg, spec.required), spec.policy,
                         Queued, 0, env.now, env.now, None, None, None, None, None, None);
          Ok((s.(jobs := s.jobs + [job]), SubmitReply(job, false)))
  }

  predicate Eligible(job: Job, capabilities: set<string>) {
    job.state == Queued && job.required <= capabilities
  }

  /** The first eligible job of the stable sort by creation time: oldest first, ties in store order. */
  function NextEligible(jobs: seq<Job>, capabilities: set<string>): (r: Option<nat>)
    ensures r.Some? ==> r.value < |jobs| && Eligible(jobs[r.value], capabilities)
    ensures r.None? ==> forall k :: 0 <= k < |jobs| ==> !Eligible(jobs[k], capabilities)
    ensures r.Some? ==> forall k :: 0 <= k < |jobs| && Eligible(jobs[k], capabilities) ==>
                          jobs[r.value].createdAt <= jobs[k].createdAt
                          && (jobs[r.value].createdAt == jobs[k].createdAt ==> r.value <= k)
  {
    if jobs == [] then None
    else
      var n := |jobs| - 1;
      assert forall k :: 0 <= k < n ==> jobs[..n][k] == jobs[k];
      match NextEligible(jobs[..n], capabilities)
      case None => if Eligible(jobs[n], capabilities) then Some(n) else None
      case Some(i) =>
        if Eligible(jobs[n], capabilities) && jobs[n].createdAt < jobs[i].createdAt then Some(n) else Some(i)
  }

  function Granted(job: Job, lease: Lease, now: int): Job {
    job.(attempts := job.attempts + 1, state := Leased, updatedAt := now,
         leaseOutputs := Some({}), lease := Some(lease))
  }

  function Grant(s: Store, i: nat, worker: Worker, tokenId: Id, ttl: int, now: int, freshLeaseId: Id): Store
    requires i < |s.jobs|
  {
    var fence := s.nextFencingToken + 1;
    var lease := Lease(freshLeaseId, worker.id, tokenId, fence, now, now + ttl, None, None);
    Store(fence, s.workers, s.jobs[i := Granted(s.jobs[i], lease, now)])
  }

  /** The lease the worker already holds, else the oldest eligible job under a new fencing token. */
  function GrantTo(s: Store, worker: Worker, tokenId: Id, ttl: int, now: int, freshLeaseId: Id): (Store, Option<Job>) {
    match HeldIndex(s.jobs, worker.id)
    case Some(i) => (s, Some(s.jobs[i]))
    case None =>
      match NextEligible(s.jobs, worker.capabilities)
      case None => (s, None)
      case Some(i) =>
        var t := Grant(s, i, worker, tokenId, ttl, now, freshLeaseId);
        (t, Some(t.jobs[i]))
  }

  function LeaseJob(cfg: Config, s: Store, env: Env, token: Token, ttl: int, freshLeaseId: Id): Outcome {
    if !ValidTtl(ttl, cfg.maxLeaseTtl) then Err(InvalidInput)
    else
      match Authenticate(s, token, env.authAt)
      case Err(e) => Err(e)
      case Ok(w) =>
        var worker := Seen(s.workers[w], env.now);
        var (t, job) := GrantTo(WithWorker(s, w, worker), worker, token.tokenId, ttl, env.now, freshLeaseId);
        Ok((t, LeaseReply(job)))
  }

  function AcknowledgeJob(cfg: Config, s: Store, env: Env, token: Token, jobId: Id, leaseId: Id,
                          fencingToken: int): Outcome
  {
    match Authorize(cfg, s, env, token, jobId, leaseId, fencingToken)
    case Err(e) => Err(e)
    case Ok((w, i)) =>
      if s.jobs[i].state != Leased then Err(WrongState)
      else
        var lease := s.jobs[i].lease.value.(acknowledgedAt := Some(env.now), lastHeartbeatAt := Some(env.now));
        var job := s.jobs[i].(state := Running, updatedAt := env.now, lease := Some(lease));
        Ok((WithWorker(WithJob(s, i, job), w, Seen(s.workers[w], env.now)), JobReply(job)))
  }

  function HeartbeatJob(cfg: Config, s: Store, env: Env, token: Token, jobId: Id, leaseId: Id,
                        fencingToken: int, ttl: int): Outcome
  {
    if !ValidTtl(ttl, cfg.maxLeaseTtl) then Err(InvalidInput)
    else
      match Authorize(cfg, s, env, token, jobId, leaseId, fencingToken)
      case Err(e) => Err(e)
      case Ok((w, i)) =>
        if !Holding(s.jobs[i].state) then Err(WrongState)
        else
          var lease := s.jobs[i].lease.value.(lastHeartbeatAt := Some(env.now), expiresAt := env.now + ttl);
          var job := s.jobs[i].(updatedAt := env.now, lease := Some(lease));
          Ok((WithWorker(WithJob(s, i, job), w, Seen(s.workers[w], env.now)), JobReply(job)))
  }

  function Outputs(job: Job): set<Id> {
    if job.leaseOutputs.Some? then job.leaseOutputs.value else {}
  }

  function WithOutput(job: Job, artifactId: Id, now: int): Job {
    job.(leaseOutputs := Some(Outputs(job) + {artifactId}), updatedAt := now)
  }

  function RecordOutputArtifact(cfg: Config, s: Store, env: Env, token: Token, jobId: Id, leaseId: Id,
                                fencingToken: int, artifactId: Id): Outcome
  {
    match Authorize(cfg, s, env, token, jobId, leaseId, fencingToken)
    case Err(e) => Err(e)
    case Ok((w, i)) =>
      var job := WithOutput(s.jobs[i], artifactId, env.now);
      if !ValidArtifacts(cfg, env, [artifactId]) || |Outputs(job)| > MAX_ARTIFACTS then Err(InvalidInput)
      else
        Ok((WithJob(s, i, job), JobReply(job)))
  }

  predicate EvidenceFits(e: Evidence, worker: Worker, job: Job) {
    && e.workerId == worker.id && e.tool == job.tool && e.argsDigest == job.argsDigest
    && e.inputs == job.inputs && SetOf(e.outputs) == Outputs(job)
  }

  function CompletedJob(cfg: Config, job: Job, e: Evidence, signature: string, now: int): Job {
    var acceptance := Acceptance(e, signature, now);
    var failure := if e.resultOk then job.failure
                   else if e.resultSummary.Some? then e.resultSummary else Some(DEFAULT_FAILURE);
    ClearLease(job.(state := if e.resultOk then Completed else Failed, updatedAt := now,
                    completedAt := Some(now), failure := failure,
                    completion := Some(Completion(acceptance, cfg.seal(acceptance)))))
  }

  function CompleteJob(cfg: Config, s: Store, env: Env, token: Token, e: Evidence, signature: string): Outcome {
    match Authenticate(s, token, env.authAt)
    case Err(f) => Err(f)
    case Ok(w) =>
      if !ValidEvidence(cfg, env, e) then Err(InvalidInput)
      else
        match MatchLease(cfg, s, s.workers[w].id, e.jobId, e.leaseId, e.fencingToken, env.matchAt)
        case Err(f) => Err(f)
        case Ok(i) =>
          if s.jobs[i].state != Running then Err(WrongState)
          else if !EvidenceFits(e, s.workers[w], s.jobs[i]) then Err(EvidenceMismatch)
          else if !cfg.workerVerifies(s.workers[w].publicKey, e, signature) then Err(BadSignature)
          else if env.now - e.completedAt > CLOCK_SKEW || e.completedAt - env.now > CLOCK_SKEW then Err(ClockSkew)
          else
            var job := CompletedJob(cfg, s.jobs[i], e, signature, env.now);
            Ok((WithJob(s, i, job), JobReply(job)))
  }

  function Ended(job: Job, state: JobState, reason: string, now: int): Job {
    ClearLease(job.(state := state, failure := Some(reason), updatedAt := now, completedAt := Some(now)))
  }

  function FailJob(cfg: Config, s: Store, env: Env, token: Token, jobId: Id, leaseId: Id,
                   fencingToken: int, reason: string): Outcome
  {
    match Authorize(cfg, s, env, token, jobId, leaseId, fencingToken)
    case Err(e) => Err(e)
    case Ok((w, i)) =>
      var text := cfg.bounded(reason, 2000);
      if text.None? then Err(InvalidInput)
      else
        var job := Ended(s.jobs[i], Failed, text.value, env.now);
        Ok((WithJob(s, i, job), JobReply(job)))
  }

  function CancelJob(cfg: Config, s: Store, env: Env, jobId: Id, reason: string): Outcome {
    if !cfg.matches(JobId, jobId) then Err(InvalidInput)
    else
      match JobIndex(s, jobId)
      case None => Err(JobNotFound)
      case Some(i) =>
        if Terminal(s.jobs[i].state) then Ok((s, JobReply(s.jobs[i])))
        else
          var text := cfg.bounded(reason, 2000);
          if text.None? then Err(InvalidInput)
          else
            var job := Ended(s.jobs[i], Cancelled, text.value, env.now);
            Ok((WithJob(s, i, job), JobReply(job)))
  }

  function RetryBlockedJob(cfg: Config, s: Store, env: Env, jobId: Id): Outcome {
    if !cfg.matches(JobId, jobId) then Err(InvalidInput)
    else
      match JobIndex(s, jobId)
      case None => Err(JobNotFound)
      case Some(i) =>
        if s.jobs[i].state != Blocked then Err(WrongState)
        else if s.jobs[i].policy != Idempotent then Err(NotIdempotent)
        else
          var job := ClearLease(s.jobs[i].(state := Queued, updatedAt := env.now, blockedReason := None));
          Ok((WithJob(s, i, job), JobReply(job)))
  }

  // ---------------------------------------------------------------- the transaction

  /** One operation on a store whose expired leases have been recovered. `before` is the loaded store. */
  function Perform(cfg: Config, before: Store, s: Store, env: Env, op: Op): Outcome {
    match op
    case Register(_, _, _, _, _, _) => RegisterWorker(cfg, s, env, op)
    case Rotate(workerId, ttl, tokenId) => RotateToken(cfg, s, env, workerId, ttl, tokenId)
    case Revoke(workerId, reason) => RevokeWorker(cfg, s, env, workerId, reason)
    case Submit(spec, freshId) => SubmitJob(cfg, s, env, spec, freshId)
    case LeaseNext(token, ttl, freshLeaseId) => LeaseJob(cfg, s, env, token, ttl, freshLeaseId)
    case Acknowledge(token, jobId, leaseId, fence) => AcknowledgeJob(cfg, s, env, token, jobId, leaseId, fence)
    case Heartbeat(token, jobId, leaseId, fence, ttl) => HeartbeatJob(cfg, s, env, token, jobId, leaseId, fence, ttl)
    case RecordOutput(token, jobId, leaseId, fence, artifact) =>
      RecordOutputArtifact(cfg, s, env, token, jobId, leaseId, fence, artifact)
    case Complete(token, evidence, signature) => CompleteJob(cfg, s, env, token, evidence, signature)
    case Fail(token, jobId, leaseId, fence, reason) => FailJob(cfg, s, env, token, jobId, leaseId, fence, reason)
    case Cancel(jobId, reason) => CancelJob(cfg, s, env, jobId, reason)
    case RetryBlocked(jobId) => RetryBlockedJob(cfg, s, env, jobId)
    case Recover =>
      Ok((s, RecoverReply(RecoveredIds(before.jobs, env.recoverAt, Queued),
                          RecoveredIds(before.jobs, env.recoverAt, Blocked))))
  }

  /** Load, recover, run, save; an error saves nothing. */
  function Mutate(cfg: Config, s: Store, env: Env, op: Op): (Store, Result<Reply, Fault>) {
    match Perform(cfg, s, Recovered(s, env.recoverAt), env, op)
    case Ok((s', reply)) => (s', Ok(reply))
    case Err(fault) => (s, Err(fault))
  }

  datatype Verdict = Verdict(workerValid: bool, coordinatorValid: bool)

  /** Re-check the two signatures of a stored completion; a job without one is invalid. */
  function VerifyCompletion(cfg: Config, s: Store, jobId: Id): Result<Verdict, Fault> {
    if !cfg.matches(JobId, jobId) then Err(InvalidInput)
    else
      match JobIndex(s, jobId)
      case None => Err(JobNotFound)
      case Some(i) =>
        match s.jobs[i].completion
        case None => Ok(Verdict(false, false))
        case Some(c) =>
          match WorkerIndex(s, c.acceptance.evidence.workerId)
          case None => Err(WorkerNotFound)
          case Some(w) =>
            Ok(Verdict(cfg.workerVerifies(s.workers[w].publicKey, c.acceptance.evidence, c.acceptance.workerSignature),
                       cfg.sealVerifies(c.acceptance, c.coordinatorSignature)))
  }
}
