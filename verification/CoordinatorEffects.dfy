/** What each coordinator operation accepts and what it leaves, field by field, and what that means
    for later requests: revoked workers and replaced tokens are never served again, and a heartbeat
    keeps a lease until the moment it names. */
module CoordinatorEffects {
  import opened Prelude
  import opened CoordinatorTypes
  import opened Coordinator
  import opened CoordinatorInvariant
  import opened CoordinatorRuns
  import opened StableSort

  // ---------------------------------------------------------------- recovery

  /** The job is held under a lease whose time is up. */
  ghost predicate Overdue(job: Job, now: int) {
    (job.state == Leased || job.state == Running) && job.lease.Some? && job.lease.value.expiresAt <= now
  }

  /** Recovery takes away exactly the leases whose time is up: an idempotent or never acknowledged job
      is queued again, any other blocked, and everything else stays as it is. */
  lemma RecoveryExactly(cfg: Config, s: Store, now: int, i: nat)
    requires Inv(cfg, s) && i < |s.jobs|
    ensures var t := Recovered(s, now);
            && |t.jobs| == |s.jobs| && t.workers == s.workers && t.nextFencingToken == s.nextFencingToken
            && (s.jobs[i].lease.None? || now < s.jobs[i].lease.value.expiresAt ==> t.jobs[i] == s.jobs[i])
            && (s.jobs[i].lease.Some? && s.jobs[i].lease.value.expiresAt <= now ==>
                  && t.jobs[i] != s.jobs[i] && t.jobs[i].lease.None? && t.jobs[i].leaseOutputs.None?
                  && t.jobs[i].state == (if s.jobs[i].policy == Idempotent || s.jobs[i].state == Leased then Queued
                                         else Blocked)
                  && t.jobs[i].blockedReason == (if t.jobs[i].state == Blocked then Some(LeaseExpired) else None)
                  && t.jobs[i] == s.jobs[i].(state := t.jobs[i].state, updatedAt := now, lease := None,
                                             leaseOutputs := None, blockedReason := t.jobs[i].blockedReason))
  {
    assert JobOk(cfg, s, s.jobs[i]);
  }

  function Requeues(now: int): Job -> bool {
    (job: Job) => (job.state == Leased || job.state == Running) && job.lease.Some? && job.lease.value.expiresAt <= now
                  && (job.policy == Idempotent || job.state == Leased)
  }

  function Blocks(now: int): Job -> bool {
    (job: Job) => (job.state == Leased || job.state == Running) && job.lease.Some? && job.lease.value.expiresAt <= now
                  && job.policy == NoReplay && job.state == Running
  }

  function Ids(jobs: seq<Job>): (r: seq<Id>)
    ensures |r| == |jobs| && forall i :: 0 <= i < |r| ==> r[i] == jobs[i].id
  {
    seq(|jobs|, i requires 0 <= i < |jobs| => jobs[i].id)
  }

  lemma IdsConcat(a: seq<Job>, b: seq<Job>)
    ensures Ids(a + b) == Ids(a) + Ids(b)
  {
  }

  lemma FilterOne(p: Job -> bool, job: Job)
    ensures Filter(p, [job]) == if p(job) then [job] else []
  {
    assert [job][1..] == [];
  }

  lemma FilterSnoc(p: Job -> bool, jobs: seq<Job>)
    requires jobs != []
    ensures Ids(Filter(p, jobs)) ==
            Ids(Filter(p, jobs[..|jobs| - 1])) + (if p(jobs[|jobs| - 1]) then [jobs[|jobs| - 1].id] else [])
  {
    hide Filter;
    var before, last := jobs[..|jobs| - 1], jobs[|jobs| - 1];
    assert jobs == before + [last];
    FilterConcat(p, before, [last]);
    FilterOne(p, last);
    IdsConcat(Filter(p, before), Filter(p, [last]));
  }

  /** The two lists of a recovery name exactly those jobs, in store order. */
  lemma {:induction false} RecoveredListsAre(jobs: seq<Job>, now: int, fence: nat)
    requires forall i :: 0 <= i < |jobs| ==> JobShape(jobs[i], fence)
    ensures RecoveredIds(jobs, now, Queued) == Ids(Filter(Requeues(now), jobs))
    ensures RecoveredIds(jobs, now, Blocked) == Ids(Filter(Blocks(now), jobs))
  {
    if jobs != [] {
      hide Filter;
      var n := |jobs| - 1;
      RecoveredListsAre(jobs[..n], now, fence);
      FilterSnoc(Requeues(now), jobs);
      FilterSnoc(Blocks(now), jobs);
      assert JobShape(jobs[n], fence);
    } else {
      assert Ids([]) == [];
    }
  }

  // ---------------------------------------------------------------- who may act

  /** Worker number `w` presented the token it holds now, and in time. */
  ghost predicate Presents(s: Store, token: Token, now: int, w: nat) {
    && w < |s.workers| && token.Claims?
    && s.workers[w].id == token.workerId && s.workers[w].state == Active
    && s.workers[w].activeTokenId == Some(token.tokenId) && now < token.expiresAt
  }

  lemma AuthenticateIff(cfg: Config, s: Store, token: Token, now: int, w: nat)
    requires Inv(cfg, s)
    ensures Authenticate(s, token, now) == Ok(w) <==> Presents(s, token, now, w)
  {
    hide Inv;
    if w < |s.workers| { WorkerIndexFinds(cfg, s, w); }
  }

  lemma NobodyAuthenticates(cfg: Config, s: Store, token: Token, now: int)
    requires Inv(cfg, s)
    ensures Authenticate(s, token, now).Err? <==> forall w :: 0 <= w < |s.workers| ==> !Presents(s, token, now, w)
  {
    forall w | 0 <= w < |s.workers| ensures Presents(s, token, now, w) ==> Authenticate(s, token, now) == Ok(w) {
      AuthenticateIff(cfg, s, token, now, w);
    }
    if Authenticate(s, token, now).Ok? { AuthenticateIff(cfg, s, token, now, Authenticate(s, token, now).value); }
  }

  /** Job number `i` is held by worker `w` under this lease and token, and the lease has not run out. */
  ghost predicate HoldsLease(s: Store, w: nat, i: nat, jobId: Id, leaseId: Id, fence: int, now: int) {
    && w < |s.workers| && i < |s.jobs| && s.jobs[i].id == jobId && s.jobs[i].lease.Some?
    && s.jobs[i].lease.value.workerId == s.workers[w].id && s.jobs[i].lease.value.id == leaseId
    && s.jobs[i].lease.value.fencingToken == fence && now < s.jobs[i].lease.value.expiresAt
  }

  lemma MatchLeaseIff(cfg: Config, s: Store, w: nat, jobId: Id, leaseId: Id, fence: int, now: int, i: nat)
    requires Inv(cfg, s) && w < |s.workers|
    ensures MatchLease(cfg, s, s.workers[w].id, jobId, leaseId, fence, now) == Ok(i) <==>
            cfg.matches(JobId, jobId) && HoldsLease(s, w, i, jobId, leaseId, fence, now)
  {
    hide Inv;
    if i < |s.jobs| { JobIndexFinds(cfg, s, i); }
  }

  /** The worker presents its token and holds the lease. */
  ghost predicate MayAct(cfg: Config, s: Store, env: Env, token: Token, jobId: Id, leaseId: Id, fence: int, w: nat,
                         i: nat) {
    && Presents(s, token, env.authAt, w) && cfg.matches(JobId, jobId)
    && HoldsLease(s, w, i, jobId, leaseId, fence, env.matchAt)
  }

  lemma AuthorizeIff(cfg: Config, s: Store, env: Env, token: Token, jobId: Id, leaseId: Id, fence: int, w: nat, i: nat)
    requires Inv(cfg, s)
    ensures Authorize(cfg, s, env, token, jobId, leaseId, fence) == Ok((w, i)) <==>
            MayAct(cfg, s, env, token, jobId, leaseId, fence, w, i)
  {
    hide Inv;
    hide Authenticate;
    hide MatchLease;
    hide HoldsLease;
    hide Presents;
    AuthenticateIff(cfg, s, token, env.authAt, w);
    if Presents(s, token, env.authAt, w) {
      PresentsInRange(s, token, env.authAt, w);
      MatchLeaseIff(cfg, s, w, jobId, leaseId, fence, env.matchAt, i);
    }
  }

  lemma PresentsInRange(s: Store, token: Token, now: int, w: nat)
    requires Presents(s, token, now, w)
    ensures w < |s.workers|
  {
  }

  /** Someone may act on some job with these credentials. */
  ghost predicate Admitted(cfg: Config, s: Store, env: Env, token: Token, jobId: Id, leaseId: Id, fence: int) {
    exists w: nat, i: nat :: MayAct(cfg, s, env, token, jobId, leaseId, fence, w, i)
  }

  lemma AdmittedIff(cfg: Config, s: Store, env: Env, token: Token, jobId: Id, leaseId: Id, fence: int)
    requires Inv(cfg, s)
    ensures Authorize(cfg, s, env, token, jobId, leaseId, fence).Ok? <==>
            Admitted(cfg, s, env, token, jobId, leaseId, fence)
  {
    hide Inv;
    hide MayAct;
    hide Authorize;
    var a := Authorize(cfg, s, env, token, jobId, leaseId, fence);
    if a.Ok? { AuthorizeIff(cfg, s, env, token, jobId, leaseId, fence, a.value.0, a.value.1); }
    if Admitted(cfg, s, env, token, jobId, leaseId, fence) {
      var w: nat, i: nat :| MayAct(cfg, s, env, token, jobId, leaseId, fence, w, i);
      AuthorizeIff(cfg, s, env, token, jobId, leaseId, fence, w, i);
    }
  }

  // ---------------------------------------------------------------- the lease requests

  /** The store with one job replaced and one worker seen. */
  ghost function Touched(s: Store, w: nat, i: nat, job: Job, now: int): Store
    requires w < |s.workers| && i < |s.jobs|
  {
    Store(s.nextFencingToken, s.workers[w := s.workers[w].(lastSeenAt := Some(now), updatedAt := now)],
          s.jobs[i := job])
  }

  /** Acknowledging: from leased to running, with the time noted on the lease. */
  lemma AcknowledgeExactly(cfg: Config, s: Store, env: Env, token: Token, jobId: Id, leaseId: Id, fence: int, w: nat,
                           i: nat)
    requires Inv(cfg, s) && MayAct(cfg, s, env, token, jobId, leaseId, fence, w, i)
    ensures var r := AcknowledgeJob(cfg, s, env, token, jobId, leaseId, fence);
            var lease := s.jobs[i].lease.value.(acknowledgedAt := Some(env.now), lastHeartbeatAt := Some(env.now));
            var job := s.jobs[i].(state := Running, lease := Some(lease), updatedAt := env.now);
            && (r.Ok? <==> s.jobs[i].state == Leased)
            && (r.Ok? ==> r.value == (Touched(s, w, i, job, env.now), JobReply(job)))
  {
    hide Inv;
    hide Authorize;
    AuthorizeIff(cfg, s, env, token, jobId, leaseId, fence, w, i);
  }

  /** A heartbeat moves the lease's end to `ttl` after now, and nothing else of the job but its times. */
  lemma HeartbeatExactly(cfg: Config, s: Store, env: Env, token: Token, jobId: Id, leaseId: Id, fence: int, ttl: int,
                         w: nat, i: nat)
    requires Inv(cfg, s) && MayAct(cfg, s, env, token, jobId, leaseId, fence, w, i)
    ensures var r := HeartbeatJob(cfg, s, env, token, jobId, leaseId, fence, ttl);
            var lease := s.jobs[i].lease.value.(lastHeartbeatAt := Some(env.now), expiresAt := env.now + ttl);
            var job := s.jobs[i].(lease := Some(lease), updatedAt := env.now);
            && (r.Ok? <==> 1000 <= ttl <= cfg.maxLeaseTtl)
            && (r.Ok? ==> r.value == (Touched(s, w, i, job, env.now), JobReply(job)))
  {
    hide Authorize;
    AuthorizeIff(cfg, s, env, token, jobId, leaseId, fence, w, i);
    assert JobOk(cfg, s, s.jobs[i]);
  }

  /** Recording an artifact adds it to the lease's outputs, if it exists and there is room. */
  lemma RecordExactly(cfg: Config, s: Store, env: Env, token: Token, jobId: Id, leaseId: Id, fence: int, artifact: Id,
                      w: nat, i: nat)
    requires Inv(cfg, s) && MayAct(cfg, s, env, token, jobId, leaseId, fence, w, i)
    ensures var r := RecordOutputArtifact(cfg, s, env, token, jobId, leaseId, fence, artifact);
            && s.jobs[i].leaseOutputs.Some?
            && var outputs := s.jobs[i].leaseOutputs.value + {artifact};
            var job := s.jobs[i].(leaseOutputs := Some(outputs), updatedAt := env.now);
            && (r.Ok? <==> cfg.matches(ArtifactId, artifact) && artifact in env.artifacts && |outputs| <= 64)
            && (r.Ok? ==> r.value == (s.(jobs := s.jobs[i := job]), JobReply(job)))
  {
    hide Authorize;
    AuthorizeIff(cfg, s, env, token, jobId, leaseId, fence, w, i);
    assert JobOk(cfg, s, s.jobs[i]);
    assert artifact in [artifact];
  }

  /** Failing: the job is failed with the reason, and its lease and outputs are gone. */
  lemma FailExactly(cfg: Config, s: Store, env: Env, token: Token, jobId: Id, leaseId: Id, fence: int, reason: string,
                    w: nat, i: nat)
    requires Inv(cfg, s) && MayAct(cfg, s, env, token, jobId, leaseId, fence, w, i)
    ensures var r := FailJob(cfg, s, env, token, jobId, leaseId, fence, reason);
            var job := s.jobs[i].(state := Failed, failure := cfg.bounded(reason, 2000), updatedAt := env.now,
                                  completedAt := Some(env.now), lease := None, leaseOutputs := None);
            && (r.Ok? <==> cfg.bounded(reason, 2000).Some?)
            && (r.Ok? ==> r.value == (s.(jobs := s.jobs[i := job]), JobReply(job)))
  {
    hide Inv;
    hide Authorize;
    AuthorizeIff(cfg, s, env, token, jobId, leaseId, fence, w, i);
  }

  /** What a result must say to be accepted for job `i` from worker `w`. */
  ghost predicate ResultFits(cfg: Config, s: Store, env: Env, e: Evidence, signature: string, w: nat, i: nat)
    requires w < |s.workers| && i < |s.jobs|
  {
    && ValidEvidence(cfg, env, e) && s.jobs[i].state == Running
    && e.workerId == s.workers[w].id && e.tool == s.jobs[i].tool && e.argsDigest == s.jobs[i].argsDigest
    && e.inputs == s.jobs[i].inputs && s.jobs[i].leaseOutputs == Some(SetOf(e.outputs))
    && cfg.workerVerifies(s.workers[w].publicKey, e, signature)
    && e.completedAt - 300000 <= env.now <= e.completedAt + 300000
  }

  /** Completing: the result is stored, sealed, under the state it reports, and the lease is gone. */
  lemma CompleteExactly(cfg: Config, s: Store, env: Env, token: Token, e: Evidence, signature: string, w: nat, i: nat)
    requires Inv(cfg, s) && MayAct(cfg, s, env, token, e.jobId, e.leaseId, e.fencingToken, w, i)
    ensures var r := CompleteJob(cfg, s, env, token, e, signature);
            var acceptance := Acceptance(e, signature, env.now);
            var failure := if e.resultOk then s.jobs[i].failure
                           else if e.resultSummary.Some? then e.resultSummary
                           else Some("Remote worker reported a failed result.");
            var job := s.jobs[i].(state := if e.resultOk then Completed else Failed, updatedAt := env.now,
                                  completedAt := Some(env.now), failure := failure, lease := None, leaseOutputs := None,
                                  completion := Some(Completion(acceptance, cfg.seal(acceptance))));
            && (r.Ok? <==> ResultFits(cfg, s, env, e, signature, w, i))
            && (r.Ok? ==> r.value == (s.(jobs := s.jobs[i := job]), JobReply(job)))
  {
    hide Authenticate;
    hide MatchLease;
    hide ValidEvidence;
    AuthenticateIff(cfg, s, token, env.authAt, w);
    MatchLeaseIff(cfg, s, w, e.jobId, e.leaseId, e.fencingToken, env.matchAt, i);
    assert JobOk(cfg, s, s.jobs[i]);
  }

  /** Without the credentials none of the five is served, and a lease is granted only to a presented token. */
  lemma OnlyAdmittedServed(cfg: Config, before: Store, s: Store, env: Env, op: Op)
    requires Inv(cfg, s) && Perform(cfg, before, s, env, op).Ok?
    ensures op.Acknowledge? || op.Heartbeat? || op.RecordOutput? || op.Fail? ==>
              Admitted(cfg, s, env, op.token, op.jobId, op.leaseId, op.fencingToken)
    ensures op.Complete? ==>
              Admitted(cfg, s, env, op.token, op.evidence.jobId, op.evidence.leaseId, op.evidence.fencingToken)
    ensures op.LeaseNext? ==> exists w :: 0 <= w < |s.workers| && Presents(s, op.token, env.authAt, w)
  {
    hide Inv;
    hide Authorize;
    hide Admitted;
    hide Authenticate;
    hide MatchLease;
    if op.Acknowledge? || op.Heartbeat? || op.RecordOutput? || op.Fail? {
      AdmittedIff(cfg, s, env, op.token, op.jobId, op.leaseId, op.fencingToken);
    } else if op.Complete? {
      AdmittedIff(cfg, s, env, op.token, op.evidence.jobId, op.evidence.leaseId, op.evidence.fencingToken);
      CompletionAuthorized(cfg, s, env, op.token, op.evidence, op.signature);
    } else if op.LeaseNext? {
      var w := Authenticate(s, op.token, env.authAt).value;
      AuthenticateIff(cfg, s, op.token, env.authAt, w);
      PresentsInRange(s, op.token, env.authAt, w);
    }
  }

  lemma CompletionAuthorized(cfg: Config, s: Store, env: Env, token: Token, e: Evidence, signature: string)
    requires CompleteJob(cfg, s, env, token, e, signature).Ok?
    ensures Authorize(cfg, s, env, token, e.jobId, e.leaseId, e.fencingToken).Ok?
  {
    hide Authenticate;
    hide MatchLease;
    hide ValidEvidence;
  }
}
