/** Administration and submission, field by field, and what they mean for every later request. */
module CoordinatorAdmin {
  import opened Prelude
  import opened CoordinatorTypes
  import opened Coordinator
  import opened CoordinatorInvariant
  import opened CoordinatorRuns
  import opened CoordinatorEffects

  // ---------------------------------------------------------------- workers

  ghost predicate GoodCapabilities(cfg: Config, caps: seq<string>) {
    |caps| <= 32 && forall i :: 0 <= i < |caps| ==> cfg.matches(Capability, cfg.trim(caps[i]))
  }

  lemma CapabilitiesIff(cfg: Config, caps: seq<string>)
    ensures ValidCapabilities(cfg, caps) <==> GoodCapabilities(cfg, caps)
  {
    if GoodCapabilities(cfg, caps) {
      forall c | c in caps ensures cfg.matches(Capability, cfg.trim(c)) {
        var i :| 0 <= i < |caps| && caps[i] == c;
      }
    }
  }

  /** Registering adds one active worker with the token drawn, unless an active one has the same key. */
  lemma RegisterExactly(cfg: Config, s: Store, env: Env, op: Op)
    requires op.Register?
    ensures var r := RegisterWorker(cfg, s, env, op);
            var name, key := cfg.bounded(op.name, 128), cfg.bounded(op.publicKey, 16384);
            && (r.Ok? <==>
                  && name.Some? && key.Some? && cfg.matches(Ed25519Key, key.value)
                  && GoodCapabilities(cfg, op.capabilities) && 1000 <= op.ttl <= cfg.maxTokenTtl
                  && forall k :: 0 <= k < |s.workers| && s.workers[k].state == Active ==>
                       s.workers[k].fingerprint != cfg.fingerprint(key.value))
            && (r.Ok? ==>
                  var worker := Worker(op.freshId, name.value, CapabilitySet(cfg, op.capabilities), key.value,
                                       cfg.fingerprint(key.value), Active, env.now, env.now, Some(op.freshTokenId),
                                       Some(env.now + op.ttl), None, None, None);
                  r.value == (s.(workers := s.workers + [worker]), WorkerReply(worker)))
  {
    CapabilitiesIff(cfg, op.capabilities);
  }

  /** Rotating gives an active worker a new token and end, and changes nothing else. */
  lemma RotateExactly(cfg: Config, s: Store, env: Env, workerId: Id, ttl: int, tokenId: Id, w: nat)
    requires Inv(cfg, s) && w < |s.workers| && s.workers[w].id == workerId
    ensures var r := RotateToken(cfg, s, env, workerId, ttl, tokenId);
            var worker := s.workers[w].(activeTokenId := Some(tokenId), tokenExpiresAt := Some(env.now + ttl),
                                        updatedAt := env.now);
            && (r.Ok? <==>
                  cfg.matches(WorkerId, workerId) && 1000 <= ttl <= cfg.maxTokenTtl && s.workers[w].state == Active)
            && (r.Ok? ==> r.value == (s.(workers := s.workers[w := worker]), WorkerReply(worker)))
  {
    hide Inv;
    WorkerIndexFinds(cfg, s, w);
  }

  /** Revoking: the worker is revoked with the reason, has no token, and each job it held is given up as
      an expired one is; nothing else changes. */
  lemma RevokeExactly(cfg: Config, s: Store, env: Env, workerId: Id, reason: string, w: nat)
    requires Inv(cfg, s) && w < |s.workers| && s.workers[w].id == workerId
    ensures var r := RevokeWorker(cfg, s, env, workerId, reason);
            var worker := s.workers[w].(state := Revoked, revokedAt := Some(env.now),
                                        revokeReason := cfg.bounded(reason, 512),
                                        updatedAt := env.now, activeTokenId := None, tokenExpiresAt := None);
            && (r.Ok? <==> cfg.matches(WorkerId, workerId) && cfg.bounded(reason, 512).Some?)
            && (r.Ok? ==>
                  && r.value.1 == WorkerReply(worker)
                  && r.value.0.workers == s.workers[w := worker] && r.value.0.nextFencingToken == s.nextFencingToken
                  && |r.value.0.jobs| == |s.jobs|
                  && forall i :: 0 <= i < |s.jobs| ==> GivenUp(s.jobs[i], r.value.0.jobs[i], workerId, env.now))
  {
    WorkerIndexFinds(cfg, s, w);
    forall i | 0 <= i < |s.jobs| ensures GivenUp(s.jobs[i], ReleaseFrom(s.jobs[i], workerId, env.now), workerId,
                                                 env.now) {
      assert JobOk(cfg, s, s.jobs[i]);
    }
  }

  /** Job `a` becomes `b` when worker `workerId` is revoked. */
  ghost predicate GivenUp(a: Job, b: Job, workerId: Id, now: int) {
    if a.lease.None? || a.lease.value.workerId != workerId then b == a
    else
      var state := if a.policy == Idempotent || a.state == Leased then Queued else Blocked;
      b == a.(state := state, updatedAt := now, lease := None, leaseOutputs := None,
              blockedReason := if state == Blocked then Some(WorkerRevoked) else None)
  }

  // ---------------------------------------------------------------- jobs

  /** The quota counts the jobs that are not completed, failed or cancelled. */
  lemma {:induction false} OpenCountIs(jobs: seq<Job>)
    ensures OpenCount(jobs) == |OpenPositions(jobs)|
  {
    if jobs != [] {
      var n := |jobs| - 1;
      OpenCountIs(jobs[..n]);
      assert OpenPositions(jobs) == OpenPositions(jobs[..n]) + (if IsOpen(jobs[n]) then {n} else {});
    }
  }

  ghost predicate IsOpen(job: Job) { job.state != Completed && job.state != Failed && job.state != Cancelled }

  ghost function OpenPositions(jobs: seq<Job>): set<int> { set i | 0 <= i < |jobs| && IsOpen(jobs[i]) }

  ghost predicate GoodArtifacts(cfg: Config, env: Env, ids: seq<Id>) {
    |ids| <= 64 && forall i :: 0 <= i < |ids| ==> cfg.matches(ArtifactId, ids[i]) && ids[i] in env.artifacts
  }

  lemma ArtifactsIff(cfg: Config, env: Env, ids: seq<Id>)
    ensures ValidArtifacts(cfg, env, ids) <==> GoodArtifacts(cfg, env, ids)
  {
    if GoodArtifacts(cfg, env, ids) {
      forall a | a in ids ensures cfg.matches(ArtifactId, a) && a in env.artifacts {
        var i :| 0 <= i < |ids| && ids[i] == a;
      }
    }
  }

  function KeyOf(cfg: Config, spec: JobSpec): Option<string> {
    if spec.idempotencyKey.Some? then cfg.bounded(spec.idempotencyKey.value, 256)
    else Some("auto:" + cfg.sha256(spec.payloadText))
  }

  ghost predicate GoodSpec(cfg: Config, env: Env, spec: JobSpec) {
    && cfg.bounded(spec.tool, 128).Some? && cfg.matches(ToolName, cfg.bounded(spec.tool, 128).value)
    && cfg.byteLength(spec.payloadText) <= 256000 && KeyOf(cfg, spec).Some?
    && GoodCapabilities(cfg, spec.required) && GoodArtifacts(cfg, env, spec.inputs)
  }

  /** Submitting a well-formed job whose key is new: accepted iff the quota has room, and then queued
      with no attempt, no lease and no result. */
  lemma SubmitNewExactly(cfg: Config, s: Store, env: Env, spec: JobSpec, freshId: Id)
    requires GoodSpec(cfg, env, spec)
    requires forall i :: 0 <= i < |s.jobs| ==> s.jobs[i].idempotencyKey != KeyOf(cfg, spec).value
    ensures var r := SubmitJob(cfg, s, env, spec, freshId);
            && (r.Ok? <==> OpenCount(s.jobs) < cfg.maxQueuedJobs)
            && (r.Ok? ==>
                  var job := Job(freshId, KeyOf(cfg, spec).value, cfg.bounded(spec.tool, 128).value,
                                 cfg.sha256(spec.argsText), cfg.sha256(spec.payloadText), spec.payloadText,
                                 cfg.ordered(SetOf(spec.inputs)), CapabilitySet(cfg, spec.required), spec.policy,
                                 Queued, 0, env.now, env.now, None, None, None, None, None, None);
                  r.value == (s.(jobs := s.jobs + [job]), SubmitReply(job, false)))
  {
    CapabilitiesIff(cfg, spec.required);
    ArtifactsIff(cfg, env, spec.inputs);
    AutoKey(cfg, spec);
  }

  lemma AutoKey(cfg: Config, spec: JobSpec)
    ensures AUTO_KEY_PREFIX == "auto:"
  {
  }

  /** A malformed job is refused. */
  lemma SubmitBadRefused(cfg: Config, s: Store, env: Env, spec: JobSpec, freshId: Id)
    requires !GoodSpec(cfg, env, spec)
    ensures SubmitJob(cfg, s, env, spec, freshId) == Err(InvalidInput)
  {
    CapabilitiesIff(cfg, spec.required);
    ArtifactsIff(cfg, env, spec.inputs);
    AutoKey(cfg, spec);
  }

  /** Evidence is well formed iff every part of it is. */
  lemma EvidenceIff(cfg: Config, env: Env, e: Evidence)
    ensures ValidEvidence(cfg, env, e) <==>
            && e.schemaVersion == 1 && cfg.matches(JobId, e.jobId) && cfg.matches(WorkerId, e.workerId)
            && cfg.bounded(e.leaseId, 128) != None && cfg.bounded(e.tool, 128) != None
            && 1 <= e.fencingToken <= 9007199254740991 && 1 <= e.completedAt <= 9007199254740991
            && cfg.matches(Digest, e.argsDigest) && cfg.matches(Digest, e.resultDigest)
            && (e.resultSummary == None || cfg.bounded(e.resultSummary.value, 2000) != None)
            && GoodArtifacts(cfg, env, e.inputs) && GoodArtifacts(cfg, env, e.outputs)
            && e.sandbox.mode in {ProcessMode, DockerMode, PodmanMode, RemoteMode}
            && cfg.matches(Digest, e.sandbox.policyDigest)
            && (e.sandbox.imageDigest == None || cfg.matches(ImageDigest, e.sandbox.imageDigest.value))
  {
    ArtifactsIff(cfg, env, e.inputs);
    ArtifactsIff(cfg, env, e.outputs);
  }

  /** Submitting under a known key changes nothing: the known job is returned iff the payload is the same. */
  lemma SubmitAgainExactly(cfg: Config, s: Store, env: Env, spec: JobSpec, freshId: Id, i: nat)
    requires Inv(cfg, s) && GoodSpec(cfg, env, spec) && i < |s.jobs|
             && s.jobs[i].idempotencyKey == KeyOf(cfg, spec).value
    ensures SubmitJob(cfg, s, env, spec, freshId) ==
            if s.jobs[i].payloadDigest == cfg.sha256(spec.payloadText) then Ok((s, SubmitReply(s.jobs[i], true)))
            else Err(PayloadMismatch)
  {
    CapabilitiesIff(cfg, spec.required);
    ArtifactsIff(cfg, env, spec.inputs);
    KeyIndexFinds(cfg, s, i);
  }

  lemma KeyIndexFinds(cfg: Config, s: Store, i: nat)
    requires Inv(cfg, s) && i < |s.jobs|
    ensures KeyIndex(s.jobs, s.jobs[i].idempotencyKey) == Some(i)
  {
    forall k | 0 <= k < |s.jobs| && k != i ensures s.jobs[k].idempotencyKey != s.jobs[i].idempotencyKey {
      assert if k < i then Apart(s.jobs[k], s.jobs[i]) else Apart(s.jobs[i], s.jobs[k]);
    }
  }

  /** Cancelling: a finished job is left as it is; any other ends cancelled with the reason and no lease. */
  lemma CancelExactly(cfg: Config, s: Store, env: Env, jobId: Id, reason: string, i: nat)
    requires Inv(cfg, s) && i < |s.jobs| && s.jobs[i].id == jobId
    ensures var r := CancelJob(cfg, s, env, jobId, reason);
            var job := s.jobs[i].(state := Cancelled, failure := cfg.bounded(reason, 2000), updatedAt := env.now,
                                  completedAt := Some(env.now), lease := None, leaseOutputs := None);
            && (r.Ok? <==> cfg.matches(JobId, jobId) && (IsOpen(s.jobs[i]) ==> cfg.bounded(reason, 2000).Some?))
            && (r.Ok? && !IsOpen(s.jobs[i]) ==> r.value == (s, JobReply(s.jobs[i])))
            && (r.Ok? && IsOpen(s.jobs[i]) ==> r.value == (s.(jobs := s.jobs[i := job]), JobReply(job)))
  {
    hide Inv;
    JobIndexFinds(cfg, s, i);
  }

  /** A lease request by a worker that holds nothing, when some job can run there: the worker is seen,
      the oldest eligible job gets a lease of `ttl` from now under the presented token and the next
      fencing token, not yet acknowledged, and nothing else changes. */
  lemma LeaseExactly(cfg: Config, s: Store, env: Env, token: Token, ttl: int, freshLeaseId: Id, w: nat, i: nat)
    requires Inv(cfg, s) && Presents(s, token, env.authAt, w) && 1000 <= ttl <= cfg.maxLeaseTtl
    requires HoldsNothing(s, s.workers[w].id) && OldestRunnable(s, s.workers[w].capabilities, i)
    ensures LeaseJob(cfg, s, env, token, ttl, freshLeaseId) ==
            Ok((Leasing(s, w, i, token.tokenId, ttl, env.now, freshLeaseId),
                LeaseReply(Some(LeasedJob(s, w, i, token.tokenId, ttl, env.now, freshLeaseId)))))
  {
    hide Authenticate;
    AuthenticateIff(cfg, s, token, env.authAt, w);
    var worker := Seen(s.workers[w], env.now);
    var t := WithWorker(s, w, worker);
    forall k | 0 <= k < |t.jobs| ensures !HeldBy(t.jobs[k], worker.id) { assert JobOk(cfg, s, s.jobs[k]); }
    assert Eligible(t.jobs[i], worker.capabilities);
    var k := NextEligible(t.jobs, worker.capabilities).value;
    assert Eligible(s.jobs[k], worker.capabilities) && k == i;
  }

  /** A lease request is answered exactly when the token is presented and the span is in range. */
  lemma LeaseAnsweredIff(cfg: Config, s: Store, env: Env, token: Token, ttl: int, freshLeaseId: Id)
    requires Inv(cfg, s)
    ensures LeaseJob(cfg, s, env, token, ttl, freshLeaseId).Ok? <==>
            1000 <= ttl <= cfg.maxLeaseTtl && exists w :: 0 <= w < |s.workers| && Presents(s, token, env.authAt, w)
  {
    hide Authenticate;
    hide Presents;
    hide GrantTo;
    NobodyAuthenticates(cfg, s, token, env.authAt);
  }

  ghost predicate LeasedBy(job: Job, workerId: Id) { job.lease.Some? && job.lease.value.workerId == workerId }

  ghost predicate NoneRunnable(s: Store, capabilities: set<string>) {
    forall k :: 0 <= k < |s.jobs| && s.jobs[k].state == Queued ==> !(s.jobs[k].required <= capabilities)
  }

  lemma HeldOnce(cfg: Config, s: Store, i: nat, k: nat)
    requires Inv(cfg, s) && i < |s.jobs| && k < |s.jobs| && s.jobs[i].lease.Some? && s.jobs[k].lease.Some?
    requires s.jobs[i].lease.value.workerId == s.jobs[k].lease.value.workerId
    ensures i == k
  {
    hide JobOk;
    assert i == k || (if i < k then Apart(s.jobs[i], s.jobs[k]) else Apart(s.jobs[k], s.jobs[i]));
  }

  /** A worker that holds a job is given that job again, as it is; one for which no job is eligible gets
      none; either way only the worker's times change. */
  lemma LeaseWithoutGrant(cfg: Config, s: Store, env: Env, token: Token, ttl: int, freshLeaseId: Id, w: nat)
    requires Inv(cfg, s) && Presents(s, token, env.authAt, w) && 1000 <= ttl <= cfg.maxLeaseTtl
    ensures var r := LeaseJob(cfg, s, env, token, ttl, freshLeaseId);
            var seen := s.(workers := s.workers[w := s.workers[w].(lastSeenAt := Some(env.now), updatedAt := env.now)]);
            && (forall i :: 0 <= i < |s.jobs| && LeasedBy(s.jobs[i], s.workers[w].id) ==>
                  r == Ok((seen, LeaseReply(Some(s.jobs[i])))))
            && (HoldsNothing(s, s.workers[w].id) && NoneRunnable(s, s.workers[w].capabilities) ==>
                  r == Ok((seen, LeaseReply(None))))
  {
    hide Authenticate;
    AuthenticateIff(cfg, s, token, env.authAt, w);
    var worker := Seen(s.workers[w], env.now);
    var t := WithWorker(s, w, worker);
    forall i | 0 <= i < |s.jobs| && LeasedBy(s.jobs[i], s.workers[w].id)
      ensures HeldIndex(t.jobs, worker.id) == Some(i)
    {
      assert JobOk(cfg, s, s.jobs[i]) && HeldBy(t.jobs[i], worker.id);
      var k := HeldIndex(t.jobs, worker.id).value;
      HeldOnce(cfg, s, i, k);
    }
    if HoldsNothing(s, s.workers[w].id) {
      forall k | 0 <= k < |t.jobs| ensures !HeldBy(t.jobs[k], worker.id) { assert JobOk(cfg, s, s.jobs[k]); }
    }
  }

  ghost predicate HoldsNothing(s: Store, workerId: Id) {
    forall k :: 0 <= k < |s.jobs| && s.jobs[k].lease.Some? ==> s.jobs[k].lease.value.workerId != workerId
  }

  /** Job `i` is queued and can run with the capabilities, and no such job is older, or as old and before it. */
  ghost predicate OldestRunnable(s: Store, capabilities: set<string>, i: nat) {
    && i < |s.jobs| && s.jobs[i].state == Queued && s.jobs[i].required <= capabilities
    && forall k :: 0 <= k < |s.jobs| && s.jobs[k].state == Queued && s.jobs[k].required <= capabilities ==>
         s.jobs[i].createdAt < s.jobs[k].createdAt || (s.jobs[i].createdAt == s.jobs[k].createdAt && i <= k)
  }

  ghost function LeasedJob(s: Store, w: nat, i: nat, tokenId: Id, ttl: int, now: int, freshLeaseId: Id): Job
    requires w < |s.workers| && i < |s.jobs|
  {
    var lease := Lease(freshLeaseId, s.workers[w].id, tokenId, s.nextFencingToken + 1, now, now + ttl, None, None);
    s.jobs[i].(state := Leased, attempts := s.jobs[i].attempts + 1, updatedAt := now, leaseOutputs := Some({}),
               lease := Some(lease))
  }

  ghost function Leasing(s: Store, w: nat, i: nat, tokenId: Id, ttl: int, now: int, freshLeaseId: Id): Store
    requires w < |s.workers| && i < |s.jobs|
  {
    Store(s.nextFencingToken + 1, s.workers[w := s.workers[w].(lastSeenAt := Some(now), updatedAt := now)],
          s.jobs[i := LeasedJob(s, w, i, tokenId, ttl, now, freshLeaseId)])
  }

  // ---------------------------------------------------------------- verification of results

  /** Verifying a job: without a result both answers are no; with one, they are the worker's signature
      under its registered key and the coordinator's seal. */
  lemma VerifyExactly(cfg: Config, s: Store, i: nat)
    requires Inv(cfg, s) && i < |s.jobs| && cfg.matches(JobId, s.jobs[i].id)
    ensures var r := VerifyCompletion(cfg, s, s.jobs[i].id);
            && (s.jobs[i].completion.None? ==> r == Ok(Verdict(false, false)))
            && (s.jobs[i].completion.Some? ==>
                  var c := s.jobs[i].completion.value;
                  exists w :: 0 <= w < |s.workers| && s.workers[w].id == c.acceptance.evidence.workerId
                    && r == Ok(Verdict(cfg.workerVerifies(s.workers[w].publicKey, c.acceptance.evidence,
                                                          c.acceptance.workerSignature),
                                       cfg.sealVerifies(c.acceptance, c.coordinatorSignature))))
  {
    JobIndexFinds(cfg, s, i);
    assert JobOk(cfg, s, s.jobs[i]);
    if s.jobs[i].completion.Some? {
      var w :| 0 <= w < |s.workers| && SignedBy(cfg, s.workers[w], s.jobs[i].completion.value.acceptance);
      WorkerIndexFinds(cfg, s, w);
    }
  }

  // ---------------------------------------------------------------- what lasts

  ghost predicate WorkerRequest(op: Op) { LeaseRequest(op) || op.LeaseNext? }

  /** A token nobody presents is served nothing. */
  lemma UnpresentedRefused(cfg: Config, s: Store, env: Env, op: Op)
    requires Inv(cfg, s) && WorkerRequest(op)
    requires forall w :: 0 <= w < |s.workers| ==> !Presents(Recovered(s, env.recoverAt), op.token, env.authAt, w)
    ensures Mutate(cfg, s, env, op).1.Err? && Mutate(cfg, s, env, op).0 == s
  {
    hide Inv;
    hide Authenticate;
    hide MatchLease;
    hide Presents;
    hide ValidEvidence;
    var r := Recovered(s, env.recoverAt);
    RecoveryKeepsInv(cfg, s, env.recoverAt);
    NobodyAuthenticates(cfg, r, op.token, env.authAt);
  }

  /** A revoked worker holds no job and is never served again, whatever happens in between. */
  lemma RevokedForGood(cfg: Config, s: Store, steps: seq<Step>, w: nat, env: Env, op: Op)
    requires Inv(cfg, s) && FreshRun(cfg, s, steps) && w < |s.workers| && s.workers[w].state == Revoked
    requires WorkerRequest(op) && op.token.Claims? && op.token.workerId == s.workers[w].id
    ensures var t := After(cfg, s, steps);
            && (forall i :: 0 <= i < |t.jobs| && t.jobs[i].lease.Some? ==>
                t.jobs[i].lease.value.workerId != s.workers[w].id)
            && Mutate(cfg, t, env, op).1.Err? && Mutate(cfg, t, env, op).0 == t
  {
    hide Inv;
    hide Mutate;
    hide FreshRun;
    var t := After(cfg, s, steps);
    RunKeepsInv(cfg, s, steps);
    RevokedStays(s, t, w);
    RevokedHoldsNothing(cfg, t, w);
    forall k | 0 <= k < |t.workers| ensures !Presents(Recovered(t, env.recoverAt), op.token, env.authAt, k) {
      if t.workers[k].id == t.workers[w].id { DistinctWorkers(cfg, t, w, k); }
    }
    UnpresentedRefused(cfg, t, env, op);
  }

  lemma RevokedStays(s: Store, t: Store, w: nat)
    requires Advances(s, t) && w < |s.workers| && s.workers[w].state == Revoked
    ensures w < |t.workers| && t.workers[w].state == Revoked && t.workers[w].id == s.workers[w].id
  {
    assert WorkerEvolves(s.workers[w], t.workers[w]);
  }

  lemma DistinctWorkers(cfg: Config, s: Store, w: nat, k: nat)
    requires Inv(cfg, s) && w < |s.workers| && k < |s.workers| && s.workers[w].id == s.workers[k].id
    ensures w == k
  {
    WorkerIndexFinds(cfg, s, w);
    WorkerIndexFinds(cfg, s, k);
  }

  lemma RevokedHoldsNothing(cfg: Config, s: Store, w: nat)
    requires Inv(cfg, s) && w < |s.workers| && s.workers[w].state == Revoked
    ensures forall i :: 0 <= i < |s.jobs| && s.jobs[i].lease.Some? ==> s.jobs[i].lease.value.workerId != s.workers[w].id
  {
    forall i | 0 <= i < |s.jobs| && s.jobs[i].lease.Some? ensures s.jobs[i].lease.value.workerId != s.workers[w].id {
      assert JobOk(cfg, s, s.jobs[i]);
      var h :| 0 <= h < |s.workers| && CanHold(s.workers[h], s.jobs[i]);
      if s.workers[h].id == s.workers[w].id { DistinctWorkers(cfg, s, w, h); }
    }
  }

  // ---------------------------------------------------------------- replaced tokens

  /** The token the operation draws, if it draws one. */
  ghost predicate Draws(op: Op, tokenId: Id) { (op.Register? || op.Rotate?) && op.freshTokenId == tokenId }

  ghost predicate Holders(s: Store, tokenId: Id) {
    exists w :: 0 <= w < |s.workers| && s.workers[w].activeTokenId == Some(tokenId)
  }

  lemma LeaseDrawsNone(cfg: Config, s: Store, env: Env, token: Token, ttl: int, freshLeaseId: Id, tokenId: Id)
    requires LeaseJob(cfg, s, env, token, ttl, freshLeaseId).Ok? && !Holders(s, tokenId)
    ensures !Holders(LeaseJob(cfg, s, env, token, ttl, freshLeaseId).value.0, tokenId)
  {
    hide Authenticate;
    hide NextEligible;
    hide HeldIndex;
    var w := Authenticate(s, token, env.authAt).value;
    var t := LeaseJob(cfg, s, env, token, ttl, freshLeaseId).value.0;
    AuthenticatedInRange(s, token, env.authAt);
    SeenHolds(s, t, w, env.now, tokenId);
  }

  lemma AuthenticatedInRange(s: Store, token: Token, now: int)
    ensures Authenticate(s, token, now).Ok? ==> Authenticate(s, token, now).value < |s.workers|
  {
  }

  lemma SeenHolds(s: Store, t: Store, w: nat, now: int, tokenId: Id)
    requires w < |s.workers| && t.workers == s.workers[w := Seen(s.workers[w], now)] && !Holders(s, tokenId)
    ensures !Holders(t, tokenId)
  {
    assert s.workers[w].activeTokenId != Some(tokenId);
  }

  lemma AdministrationDrawsNoOther(cfg: Config, s: Store, env: Env, op: Op, tokenId: Id)
    requires (op.Register? || op.Rotate? || op.Revoke?) && !Holders(s, tokenId) && !Draws(op, tokenId)
    requires Perform(cfg, s, s, env, op).Ok?
    ensures !Holders(Perform(cfg, s, s, env, op).value.0, tokenId)
  {
    hide ReleasedAll;
    hide ValidCapabilities;
    var t := Perform(cfg, s, s, env, op).value.0;
    forall w | 0 <= w < |t.workers| ensures t.workers[w].activeTokenId != Some(tokenId) {
      assert w < |s.workers| ==> s.workers[w].activeTokenId != Some(tokenId);
    }
  }

  lemma PerformDrawsNoOther(cfg: Config, before: Store, s: Store, env: Env, op: Op, tokenId: Id)
    requires Perform(cfg, before, s, env, op).Ok? && !Holders(s, tokenId) && !Draws(op, tokenId)
    ensures !Holders(Perform(cfg, before, s, env, op).value.0, tokenId)
  {
    hide Authenticate;
    hide MatchLease;
    hide ValidEvidence;
    hide Holders;
    hide ValidCapabilities;
    hide ValidArtifacts;
    var t := Perform(cfg, before, s, env, op).value.0;
    if op.Register? || op.Rotate? || op.Revoke? {
      AdministrationDrawsNoOther(cfg, s, env, op, tokenId);
    } else if op.LeaseNext? {
      LeaseDrawsNone(cfg, s, env, op.token, op.ttl, op.freshLeaseId, tokenId);
    } else if op.Acknowledge? || op.Heartbeat? {
      var w := Authenticate(s, op.token, env.authAt).value;
      AuthenticatedInRange(s, op.token, env.authAt);
      SeenHolds(s, t, w, env.now, tokenId);
    } else {
      SameWorkers(s, t, tokenId);
    }
  }

  ghost predicate NeverDrawn(steps: seq<Step>, tokenId: Id) {
    forall k :: 0 <= k < |steps| ==> !Draws(steps[k].op, tokenId)
  }

  lemma {:induction false} NobodyHolds(cfg: Config, s: Store, steps: seq<Step>, tokenId: Id)
    requires !Holders(s, tokenId) && NeverDrawn(steps, tokenId)
    ensures !Holders(After(cfg, s, steps), tokenId)
    decreases |steps|
  {
    hide Holders;
    hide Perform;
    if steps != [] {
      var env, op := steps[0].env, steps[0].op;
      var r := Recovered(s, env.recoverAt);
      SameWorkers(s, r, tokenId);
      if Perform(cfg, s, r, env, op).Ok? { PerformDrawsNoOther(cfg, s, r, env, op, tokenId); }
      NobodyHolds(cfg, Mutate(cfg, s, env, op).0, steps[1..], tokenId);
    }
  }

  lemma SameWorkers(s: Store, r: Store, tokenId: Id)
    requires r.workers == s.workers
    ensures Holders(s, tokenId) == Holders(r, tokenId)
  {
  }

  /** A token that was rotated away, or whose worker was revoked, is never served again: as long as the
      same identifier is not drawn once more, every request with it fails in every later store. */
  lemma ReplacedTokenRefused(cfg: Config, s: Store, steps: seq<Step>, env: Env, op: Op)
    requires Inv(cfg, s) && FreshRun(cfg, s, steps)
    requires WorkerRequest(op) && op.token.Claims? && !Holders(s, op.token.tokenId)
             && NeverDrawn(steps, op.token.tokenId)
    ensures var t := After(cfg, s, steps);
            Mutate(cfg, t, env, op).1.Err? && Mutate(cfg, t, env, op).0 == t
  {
    hide Inv;
    hide FreshRun;
    var t := After(cfg, s, steps);
    RunKeepsInv(cfg, s, steps);
    NobodyHolds(cfg, s, steps, op.token.tokenId);
    assert forall w :: 0 <= w < |t.workers| ==> t.workers[w].activeTokenId != Some(op.token.tokenId);
    UnpresentedRefused(cfg, t, env, op);
  }

  // ---------------------------------------------------------------- heartbeats

  /** After a heartbeat a lease lasts exactly until `ttl` after the heartbeat: a later request that looks
      before that leaves it alone, one that looks then or later takes it away. */
  lemma HeartbeatHolds(cfg: Config, s: Store, env: Env, token: Token, jobId: Id, leaseId: Id, fence: int, ttl: int,
                       i: nat, later: int)
    requires Inv(cfg, s) && Mutate(cfg, s, env, Heartbeat(token, jobId, leaseId, fence, ttl)).1.Ok?
    requires i < |s.jobs| && s.jobs[i].id == jobId
    ensures var t := Mutate(cfg, s, env, Heartbeat(token, jobId, leaseId, fence, ttl)).0;
            && i < |t.jobs| && t.jobs[i].lease.Some? && t.jobs[i].lease.value.expiresAt == env.now + ttl
            && (later < env.now + ttl ==> Recovered(t, later).jobs[i] == t.jobs[i])
            && (env.now + ttl <= later ==> Recovered(t, later).jobs[i].lease.None?)
  {
    hide Inv;
    hide Authorize;
    hide MayAct;
    var r := Recovered(s, env.recoverAt);
    RecoveryKeepsInv(cfg, s, env.recoverAt);
    RecoveryExactly(cfg, s, env.recoverAt, i);
    var a := Authorize(cfg, r, env, token, jobId, leaseId, fence).value;
    AuthorizeIff(cfg, r, env, token, jobId, leaseId, fence, a.0, a.1);
    ActsOnJob(cfg, r, env, token, jobId, leaseId, fence, a.0, a.1, i);
    HeartbeatExactly(cfg, r, env, token, jobId, leaseId, fence, ttl, a.0, i);
    var t := Mutate(cfg, s, env, Heartbeat(token, jobId, leaseId, fence, ttl)).0;
    MutateKeepsInv(cfg, s, env, Heartbeat(token, jobId, leaseId, fence, ttl));
    RecoveryExactly(cfg, t, later, i);
  }

  lemma ActsOnJob(cfg: Config, s: Store, env: Env, token: Token, jobId: Id, leaseId: Id, fence: int, w: nat, k: nat,
                  i: nat)
    requires Inv(cfg, s) && MayAct(cfg, s, env, token, jobId, leaseId, fence, w, k) && i < |s.jobs|
             && JobIdOf(s, i) == jobId
    ensures k == i && w < |s.workers|
  {
    SameIdSameJob(cfg, s, i, k);
  }

  ghost function JobIdOf(s: Store, i: nat): Id
    requires i < |s.jobs|
  {
    s.jobs[i].id
  }
}
