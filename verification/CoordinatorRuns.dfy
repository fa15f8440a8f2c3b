/** What holds over whole runs of the coordinator, for every sequence of requests and clock readings. */
module CoordinatorRuns {
  import opened Prelude
  import opened CoordinatorTypes
  import opened Coordinator
  import opened CoordinatorInvariant

  datatype Step = Step(env: Env, op: Op)

  /** The store after serving the requests in order. */
  function After(cfg: Config, s: Store, steps: seq<Step>): Store
    decreases |steps|
  {
    if steps == [] then s
    else After(cfg, Mutate(cfg, s, steps[0].env, steps[0].op).0, steps[1..])
  }

  /** Every identifier drawn along the run is new when it is drawn. */
  ghost predicate FreshRun(cfg: Config, s: Store, steps: seq<Step>)
    decreases |steps|
  {
    steps == [] ||
    (Fresh(s, steps[0].op) && FreshRun(cfg, Mutate(cfg, s, steps[0].env, steps[0].op).0, steps[1..]))
  }

  lemma {:induction false} RunKeepsInv(cfg: Config, s: Store, steps: seq<Step>)
    requires Inv(cfg, s) && FreshRun(cfg, s, steps)
    ensures Inv(cfg, After(cfg, s, steps)) && Advances(s, After(cfg, s, steps))
    decreases |steps|
  {
    if steps == [] {
      AdvancesReflexive(s);
    } else {
      var t := Mutate(cfg, s, steps[0].env, steps[0].op).0;
      MutateKeepsInv(cfg, s, steps[0].env, steps[0].op);
      RunKeepsInv(cfg, t, steps[1..]);
      AdvancesTransitive(s, t, After(cfg, t, steps[1..]));
    }
  }

  /** The invariant holds in every reachable store. */
  lemma ReachableInv(cfg: Config, steps: seq<Step>)
    requires FreshRun(cfg, EMPTY_STORE, steps)
    ensures Inv(cfg, After(cfg, EMPTY_STORE, steps))
  {
    RunKeepsInv(cfg, EMPTY_STORE, steps);
  }

  // ---------------------------------------------------------------- fencing

  /** The token was issued (or could have been) and no lease carries it any more. */
  ghost predicate Dead(s: Store, fence: int) {
    fence <= s.nextFencingToken &&
    forall i :: 0 <= i < |s.jobs| && s.jobs[i].lease.Some? ==> s.jobs[i].lease.value.fencingToken != fence
  }

  lemma DeadStaysDead(s: Store, t: Store, fence: int)
    requires Advances(s, t) && Dead(s, fence)
    ensures Dead(t, fence)
  {
    forall i | 0 <= i < |t.jobs| && t.jobs[i].lease.Some? ensures t.jobs[i].lease.value.fencingToken != fence {
      if i < |s.jobs| { assert JobAdvances(s.jobs[i], t.jobs[i], s.nextFencingToken); }
    }
  }

  predicate LeaseRequest(op: Op) {
    op.Acknowledge? || op.Heartbeat? || op.RecordOutput? || op.Complete? || op.Fail?
  }

  function FenceOf(op: Op): int
    requires LeaseRequest(op)
  {
    if op.Complete? then op.evidence.fencingToken else op.fencingToken
  }

  lemma DeadLeaseDoesNotMatch(cfg: Config, s: Store, workerId: Id, jobId: Id, leaseId: Id, fence: int, now: int)
    requires Dead(s, fence)
    ensures MatchLease(cfg, s, workerId, jobId, leaseId, fence, now).Err?
  {
  }

  lemma DeadLeaseNotAuthorized(cfg: Config, s: Store, env: Env, token: Token, jobId: Id, leaseId: Id, fence: int)
    requires Dead(s, fence)
    ensures Authorize(cfg, s, env, token, jobId, leaseId, fence).Err?
  {
    if Authenticate(s, token, env.authAt).Ok? {
      DeadLeaseDoesNotMatch(cfg, s, s.workers[Authenticate(s, token, env.authAt).value].id, jobId, leaseId, fence,
                            env.matchAt);
    }
  }

  lemma DeadEvidenceRefused(cfg: Config, s: Store, env: Env, token: Token, e: Evidence, signature: string)
    requires Dead(s, e.fencingToken)
    ensures CompleteJob(cfg, s, env, token, e, signature).Err?
  {
    var a := Authenticate(s, token, env.authAt);
    if a.Ok? {
      DeadLeaseDoesNotMatch(cfg, s, s.workers[a.value].id, e.jobId, e.leaseId, e.fencingToken, env.matchAt);
    }
  }

  lemma DeadTokenNotServed(cfg: Config, before: Store, s: Store, env: Env, op: Op)
    requires LeaseRequest(op) && Dead(s, FenceOf(op))
    ensures Perform(cfg, before, s, env, op).Err?
  {
    if op.Complete? {
      DeadEvidenceRefused(cfg, s, env, op.token, op.evidence, op.signature);
    } else {
      DeadLeaseNotAuthorized(cfg, s, env, op.token, op.jobId, op.leaseId, op.fencingToken);
    }
  }

  lemma DeadTokenRefused(cfg: Config, s: Store, env: Env, op: Op)
    requires Inv(cfg, s) && LeaseRequest(op) && Dead(s, FenceOf(op))
    ensures Mutate(cfg, s, env, op).1.Err? && Mutate(cfg, s, env, op).0 == s
  {
    RecoveryKeepsInv(cfg, s, env.recoverAt);
    DeadStaysDead(s, Recovered(s, env.recoverAt), FenceOf(op));
    DeadTokenNotServed(cfg, s, Recovered(s, env.recoverAt), env, op);
  }

  /** Once a lease has ended, no request carrying its fencing token ever succeeds or changes the
      store again, whatever happens in between. */
  lemma EndedLeaseIsFenced(cfg: Config, s: Store, steps: seq<Step>, env: Env, op: Op)
    requires Inv(cfg, s) && FreshRun(cfg, s, steps) && LeaseRequest(op) && Dead(s, FenceOf(op))
    ensures var t := After(cfg, s, steps);
            Mutate(cfg, t, env, op).1.Err? && Mutate(cfg, t, env, op).0 == t
  {
    RunKeepsInv(cfg, s, steps);
    DeadStaysDead(s, After(cfg, s, steps), FenceOf(op));
    DeadTokenRefused(cfg, After(cfg, s, steps), env, op);
  }

  /** A lease handed out that the worker did not hold before carries a token larger than every
      token issued so far. */
  lemma NewLeaseOutranks(cfg: Config, s: Store, env: Env, op: Op, i: nat)
    requires Inv(cfg, s) && Fresh(s, op) && i < |s.jobs|
    requires var t := Mutate(cfg, s, env, op).0; i < |t.jobs| && t.jobs[i].lease.Some?
    requires var t := Mutate(cfg, s, env, op).0;
             s.jobs[i].lease.None? || s.jobs[i].lease.value.fencingToken != t.jobs[i].lease.value.fencingToken
    ensures var t := Mutate(cfg, s, env, op).0;
            && s.nextFencingToken < t.jobs[i].lease.value.fencingToken <= t.nextFencingToken
            && t.jobs[i].attempts > s.jobs[i].attempts
  {
    MutateKeepsInv(cfg, s, env, op);
    var t := Mutate(cfg, s, env, op).0;
    assert JobAdvances(s.jobs[i], t.jobs[i], s.nextFencingToken) && JobOk(cfg, t, t.jobs[i]);
  }

  /** What a lease request hands out: the job the worker already holds; else, under a new token, the
      oldest job it can run (ties in store order); else nothing, because there is none. */
  lemma GrantServesOldest(s: Store, worker: Worker, tokenId: Id, ttl: int, now: int, freshLeaseId: Id)
    ensures var (t, job) := GrantTo(s, worker, tokenId, ttl, now, freshLeaseId);
            match job
            case None =>
              t == s && forall k :: 0 <= k < |s.jobs| ==>
                !HeldBy(s.jobs[k], worker.id) && !Eligible(s.jobs[k], worker.capabilities)
            case Some(job) =>
              HeldBy(job, worker.id) &&
              ((t == s && job in s.jobs) ||
               exists i :: 0 <= i < |s.jobs| && t.jobs == s.jobs[i := job]
                 && OldestEligible(s.jobs, i, worker.capabilities)
                 && job.lease.value.fencingToken == s.nextFencingToken + 1 == t.nextFencingToken)
  {
    if HeldIndex(s.jobs, worker.id).None? {
      match NextEligible(s.jobs, worker.capabilities)
      case None =>
      case Some(i) =>
        assert OldestEligible(s.jobs, i, worker.capabilities);
        assert Grant(s, i, worker, tokenId, ttl, now, freshLeaseId).jobs ==
               s.jobs[i := Grant(s, i, worker, tokenId, ttl, now, freshLeaseId).jobs[i]];
    }
  }

  ghost predicate OldestEligible(jobs: seq<Job>, i: nat, capabilities: set<string>) {
    && i < |jobs| && Eligible(jobs[i], capabilities)
    && forall k :: 0 <= k < |jobs| && Eligible(jobs[k], capabilities) ==>
         jobs[i].createdAt < jobs[k].createdAt || (jobs[i].createdAt == jobs[k].createdAt && i <= k)
  }

  // ---------------------------------------------------------------- completion

  /** A finished record never changes again. */
  lemma TerminalIsFrozen(cfg: Config, s: Store, steps: seq<Step>, i: nat)
    requires Inv(cfg, s) && FreshRun(cfg, s, steps) && i < |s.jobs| && Terminal(s.jobs[i].state)
    ensures i < |After(cfg, s, steps).jobs| && After(cfg, s, steps).jobs[i] == s.jobs[i]
  {
    RunKeepsInv(cfg, s, steps);
    assert JobAdvances(s.jobs[i], After(cfg, s, steps).jobs[i], s.nextFencingToken);
  }

  lemma CompletedIffProven(cfg: Config, steps: seq<Step>, i: nat)
    requires FreshRun(cfg, EMPTY_STORE, steps) && i < |After(cfg, EMPTY_STORE, steps).jobs|
    ensures var job := After(cfg, EMPTY_STORE, steps).jobs[i];
            && (job.state == Completed <==>
                  job.completion.Some? && job.completion.value.acceptance.evidence.resultOk)
            && (job.completion.Some? ==>
                  var e := job.completion.value.acceptance.evidence;
                  e.jobId == job.id && e.tool == job.tool && e.argsDigest == job.argsDigest && e.inputs == job.inputs)
  {
    ReachableInv(cfg, steps);
    var s := After(cfg, EMPTY_STORE, steps);
    assert JobOk(cfg, s, s.jobs[i]);
  }

  /** The coordinator's own signature scheme: what it seals, it later accepts. */
  ghost predicate SealsVerify(cfg: Config) {
    forall a :: cfg.sealVerifies(a, cfg.seal(a))
  }

  lemma JobIndexFinds(cfg: Config, s: Store, i: nat)
    requires Inv(cfg, s) && i < |s.jobs|
    ensures JobIndex(s, s.jobs[i].id) == Some(i)
  {
    forall k | 0 <= k < |s.jobs| && k != i ensures s.jobs[k].id != s.jobs[i].id {
      assert if k < i then Apart(s.jobs[k], s.jobs[i]) else Apart(s.jobs[i], s.jobs[k]);
    }
  }

  lemma SameIdSameJob(cfg: Config, s: Store, i: nat, k: nat)
    requires Inv(cfg, s) && i < |s.jobs| && k < |s.jobs| && s.jobs[i].id == s.jobs[k].id
    ensures i == k
  {
    JobIndexFinds(cfg, s, i);
    JobIndexFinds(cfg, s, k);
  }

  lemma WorkerIndexFinds(cfg: Config, s: Store, w: nat)
    requires Inv(cfg, s) && w < |s.workers|
    ensures WorkerIndex(s, s.workers[w].id) == Some(w)
  {
    forall k | 0 <= k < |s.workers| && k != w ensures s.workers[k].id != s.workers[w].id {
      assert if k < w then WorkersApart(s.workers[k], s.workers[w]) else WorkersApart(s.workers[w], s.workers[k]);
    }
  }

  /** An accepted result verifies in every later store, including after its worker was revoked. */
  lemma CompletionVerifiesForever(cfg: Config, s: Store, steps: seq<Step>, i: nat)
    requires Inv(cfg, s) && FreshRun(cfg, s, steps) && SealsVerify(cfg)
    requires i < |s.jobs| && s.jobs[i].completion.Some?
    ensures VerifyCompletion(cfg, After(cfg, s, steps), s.jobs[i].id) == Ok(Verdict(true, true))
  {
    var t := After(cfg, s, steps);
    assert JobOk(cfg, s, s.jobs[i]);
    TerminalIsFrozen(cfg, s, steps, i);
    RunKeepsInv(cfg, s, steps);
    JobIndexFinds(cfg, t, i);
    assert JobOk(cfg, t, t.jobs[i]);
    var a := t.jobs[i].completion.value.acceptance;
    var w :| 0 <= w < |t.workers| && SignedBy(cfg, t.workers[w], a);
    WorkerIndexFinds(cfg, t, w);
  }
}
