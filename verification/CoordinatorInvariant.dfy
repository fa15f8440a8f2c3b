/** The whole-store invariant, and the proof that every operation keeps it. */
module CoordinatorInvariant {
  import opened Prelude
  import opened CoordinatorTypes
  import opened Coordinator

  // ---------------------------------------------------------------- what always holds

  /** What one record satisfies on its own, below the current fencing counter. */
  ghost predicate JobShape(job: Job, fence: nat) {
    && (job.lease.Some? <==> Holding(job.state))
    && (job.leaseOutputs.Some? <==> Holding(job.state))
    && (job.lease.Some? ==>
          && 1 <= job.lease.value.fencingToken <= fence && job.attempts >= 1
          && (job.lease.value.acknowledgedAt.Some? <==> job.state == Running))
    && (job.state == Blocked ==> job.policy == NoReplay)
    && (job.state == Completed ==> job.completion.Some?)
    && (job.completion.Some? ==>
          job.state == if job.completion.value.acceptance.evidence.resultOk then Completed else Failed)
  }

  ghost predicate SignedBy(cfg: Config, worker: Worker, a: Acceptance) {
    worker.id == a.evidence.workerId && cfg.workerVerifies(worker.publicKey, a.evidence, a.workerSignature)
  }

  /** A stored completion is about this job, was signed by a known worker and is sealed. */
  ghost predicate CompletionSound(cfg: Config, workers: seq<Worker>, fence: nat, job: Job) {
    job.completion.Some? ==>
      var c := job.completion.value;
      var e := c.acceptance.evidence;
      && cfg.matches(JobId, job.id)
      && e.jobId == job.id && e.tool == job.tool && e.argsDigest == job.argsDigest && e.inputs == job.inputs
      && 1 <= e.fencingToken <= fence
      && c.coordinatorSignature == cfg.seal(c.acceptance)
      && exists w :: 0 <= w < |workers| && SignedBy(cfg, workers[w], c.acceptance)
  }

  ghost predicate CanHold(worker: Worker, job: Job) {
    && job.lease.Some? && worker.id == job.lease.value.workerId
    && worker.state == Active && job.required <= worker.capabilities
  }

  ghost predicate HolderKnown(workers: seq<Worker>, job: Job) {
    job.lease.Some? ==> exists w :: 0 <= w < |workers| && CanHold(workers[w], job)
  }

  ghost predicate JobOk(cfg: Config, s: Store, job: Job) {
    JobShape(job, s.nextFencingToken) && CompletionSound(cfg, s.workers, s.nextFencingToken, job)
        && HolderKnown(s.workers, job)
  }

  /** Two different records never share an identifier, a key, a fencing token or a holder. */
  ghost predicate Apart(a: Job, b: Job) {
    && a.id != b.id && a.idempotencyKey != b.idempotencyKey
    && (a.lease.Some? && b.lease.Some? ==>
          a.lease.value.fencingToken != b.lease.value.fencingToken && a.lease.value.workerId != b.lease.value.workerId)
  }

  ghost predicate WorkersApart(a: Worker, b: Worker) {
    a.id != b.id && (a.state == Active && b.state == Active ==> a.fingerprint != b.fingerprint)
  }

  ghost function Attempts(jobs: seq<Job>): nat {
    if jobs == [] then 0 else Attempts(jobs[..|jobs| - 1]) + jobs[|jobs| - 1].attempts
  }

  ghost predicate Inv(cfg: Config, s: Store) {
    && (forall i :: 0 <= i < |s.jobs| ==> JobOk(cfg, s, s.jobs[i]))
    && (forall i, j :: 0 <= i < j < |s.jobs| ==> Apart(s.jobs[i], s.jobs[j]))
    && (forall i, j :: 0 <= i < j < |s.workers| ==> WorkersApart(s.workers[i], s.workers[j]))
    && Attempts(s.jobs) == s.nextFencingToken
    && OpenCount(s.jobs) <= cfg.maxQueuedJobs
  }

  // ---------------------------------------------------------------- how records change

  ghost predicate SameSpec(a: Job, b: Job) {
    && a.id == b.id && a.idempotencyKey == b.idempotencyKey && a.tool == b.tool
    && a.argsDigest == b.argsDigest && a.payloadDigest == b.payloadDigest && a.payload == b.payload
    && a.inputs == b.inputs && a.required == b.required && a.policy == b.policy && a.createdAt == b.createdAt
  }

  /** The lease of `b`, if any, is the lease `a` already had, and an acknowledged one stays acknowledged. */
  ghost predicate KeepsLease(a: Job, b: Job) {
    b.lease.Some? ==>
      && a.lease.Some? && a.lease.value.workerId == b.lease.value.workerId
      && a.lease.value.id == b.lease.value.id
      && a.lease.value.fencingToken == b.lease.value.fencingToken
      && (b.state == Leased ==> a.state == Leased)
  }

  /** A no-replay job whose execution may have begun: it must never be offered again. */
  ghost predicate Committed(job: Job) {
    job.policy == NoReplay && job.state != Queued && job.state != Leased
  }

  /** A change that grants no lease. */
  ghost predicate JobEvolves(a: Job, b: Job, fence: nat) {
    && SameSpec(a, b) && a.attempts == b.attempts && JobShape(b, fence) && KeepsLease(a, b)
    && (Terminal(a.state) ==> a == b) && (Committed(a) ==> Committed(b))
  }

  ghost predicate WorkerEvolves(a: Worker, b: Worker) {
    && a.id == b.id && a.capabilities == b.capabilities && a.publicKey == b.publicKey
    && a.fingerprint == b.fingerprint && (a.state == Revoked ==> b.state == Revoked)
  }

  ghost predicate Evolves(s: Store, t: Store) {
    && |s.jobs| == |t.jobs| && |s.workers| == |t.workers| && s.nextFencingToken == t.nextFencingToken
    && (forall i :: 0 <= i < |s.jobs| ==> JobEvolves(s.jobs[i], t.jobs[i], t.nextFencingToken))
    && (forall w :: 0 <= w < |s.workers| ==> WorkerEvolves(s.workers[w], t.workers[w]))
  }

  /** One record over any number of steps: terminal records are frozen, committed ones are never
      offered again, and a lease is either the one it had or a new attempt whose fencing token is
      beyond `fence`. */
  ghost predicate JobAdvances(a: Job, b: Job, fence: nat) {
    && SameSpec(a, b) && a.attempts <= b.attempts
    && (Terminal(a.state) ==> a == b) && (Committed(a) ==> Committed(b))
    && (KeepsLease(a, b) || (b.lease.value.fencingToken > fence && b.attempts > a.attempts))
  }

  ghost predicate Advances(s: Store, t: Store) {
    && |s.jobs| <= |t.jobs| && |s.workers| <= |t.workers| && s.nextFencingToken <= t.nextFencingToken
    && (forall i :: 0 <= i < |s.jobs| ==> JobAdvances(s.jobs[i], t.jobs[i], s.nextFencingToken))
    && (forall i :: |s.jobs| <= i < |t.jobs| ==> t.jobs[i].lease.Some? ==>
        t.jobs[i].lease.value.fencingToken > s.nextFencingToken)
    && (forall w :: 0 <= w < |s.workers| ==> WorkerEvolves(s.workers[w], t.workers[w]))
  }

  lemma AdvancesReflexive(s: Store)
    ensures Advances(s, s)
  {
  }

  lemma AdvancesTransitive(s: Store, t: Store, u: Store)
    requires Advances(s, t) && Advances(t, u)
    ensures Advances(s, u)
  {
    forall i | 0 <= i < |s.jobs| ensures JobAdvances(s.jobs[i], u.jobs[i], s.nextFencingToken) {
      assert JobAdvances(s.jobs[i], t.jobs[i], s.nextFencingToken);
      assert JobAdvances(t.jobs[i], u.jobs[i], t.nextFencingToken);
    }
    forall i | |s.jobs| <= i < |u.jobs| && u.jobs[i].lease.Some?
      ensures u.jobs[i].lease.value.fencingToken > s.nextFencingToken
    {
      if i < |t.jobs| { assert JobAdvances(t.jobs[i], u.jobs[i], t.nextFencingToken); }
    }
    forall w | 0 <= w < |s.workers| ensures WorkerEvolves(s.workers[w], u.workers[w]) {
      assert WorkerEvolves(s.workers[w], t.workers[w]) && WorkerEvolves(t.workers[w], u.workers[w]);
    }
  }

  // ---------------------------------------------------------------- counting

  lemma {:induction false} AttemptsSame(a: seq<Job>, b: seq<Job>)
    requires |a| == |b| && forall i :: 0 <= i < |a| ==> a[i].attempts == b[i].attempts
    ensures Attempts(a) == Attempts(b)
  {
    if a != [] {
      AttemptsSame(a[..|a| - 1], b[..|b| - 1]);
    }
  }

  lemma {:induction false} AttemptsUpdate(a: seq<Job>, i: nat, job: Job)
    requires i < |a|
    ensures Attempts(a[i := job]) == Attempts(a) - a[i].attempts + job.attempts
  {
    var n := |a| - 1;
    if i == n {
      assert a[i := job][..n] == a[..n];
    } else {
      AttemptsUpdate(a[..n], i, job);
      assert a[i := job][..n] == a[..n][i := job];
    }
  }

  lemma {:induction false} OpenCountShrinks(a: seq<Job>, b: seq<Job>)
    requires |a| == |b| && forall i :: 0 <= i < |a| ==> Terminal(a[i].state) ==> Terminal(b[i].state)
    ensures OpenCount(b) <= OpenCount(a)
  {
    if a != [] {
      OpenCountShrinks(a[..|a| - 1], b[..|b| - 1]);
    }
  }

  // ---------------------------------------------------------------- generic preservation

  /** A change that grants no lease keeps the invariant once holders and new completions are checked. */
  lemma EvolveKeepsInv(cfg: Config, s: Store, t: Store)
    requires Inv(cfg, s) && Evolves(s, t)
    requires forall i :: 0 <= i < |t.jobs| ==> HolderKnown(t.workers, t.jobs[i])
    requires forall i :: 0 <= i < |t.jobs| && s.jobs[i].completion != t.jobs[i].completion ==>
               CompletionSound(cfg, t.workers, t.nextFencingToken, t.jobs[i])
    ensures Inv(cfg, t) && Advances(s, t)
  {
    forall i | 0 <= i < |t.jobs| ensures JobOk(cfg, t, t.jobs[i]) {
      assert JobEvolves(s.jobs[i], t.jobs[i], t.nextFencingToken);
      if s.jobs[i].completion == t.jobs[i].completion { CompletionPersists(cfg, s, t, i); }
    }
    forall i, j | 0 <= i < j < |t.jobs| ensures Apart(t.jobs[i], t.jobs[j]) {
      assert Apart(s.jobs[i], s.jobs[j]);
      assert JobEvolves(s.jobs[i], t.jobs[i], t.nextFencingToken)
             && JobEvolves(s.jobs[j], t.jobs[j], t.nextFencingToken);
    }
    forall i, j | 0 <= i < j < |t.workers| ensures WorkersApart(t.workers[i], t.workers[j]) {
      assert WorkersApart(s.workers[i], s.workers[j]);
      assert WorkerEvolves(s.workers[i], t.workers[i]) && WorkerEvolves(s.workers[j], t.workers[j]);
    }
    forall i | 0 <= i < |s.jobs| ensures JobAdvances(s.jobs[i], t.jobs[i], s.nextFencingToken)
      && s.jobs[i].attempts == t.jobs[i].attempts && (Terminal(s.jobs[i].state) ==> Terminal(t.jobs[i].state))
    {
      assert JobEvolves(s.jobs[i], t.jobs[i], t.nextFencingToken);
    }
    AttemptsSame(s.jobs, t.jobs);
    OpenCountShrinks(s.jobs, t.jobs);
  }

  lemma CompletionPersists(cfg: Config, s: Store, t: Store, i: nat)
    requires i < |s.jobs| <= |t.jobs| && |s.workers| <= |t.workers| && s.nextFencingToken <= t.nextFencingToken
    requires SameSpec(s.jobs[i], t.jobs[i]) && s.jobs[i].completion == t.jobs[i].completion
    requires forall w :: 0 <= w < |s.workers| ==> WorkerEvolves(s.workers[w], t.workers[w])
    requires CompletionSound(cfg, s.workers, s.nextFencingToken, s.jobs[i])
    ensures CompletionSound(cfg, t.workers, t.nextFencingToken, t.jobs[i])
  {
    if s.jobs[i].completion.Some? {
      var a := s.jobs[i].completion.value.acceptance;
      var w :| 0 <= w < |s.workers| && SignedBy(cfg, s.workers[w], a);
      assert WorkerEvolves(s.workers[w], t.workers[w]) && SignedBy(cfg, t.workers[w], a);
    }
  }

  lemma HolderPersists(s: seq<Worker>, t: seq<Worker>, a: Job, b: Job)
    requires |s| <= |t| && HolderKnown(s, a) && KeepsLease(a, b) && a.required == b.required
    requires forall w :: 0 <= w < |s| ==> WorkerEvolves(s[w], t[w]) && s[w].state == t[w].state
    ensures HolderKnown(t, b)
  {
    if b.lease.Some? {
      var w :| 0 <= w < |s| && CanHold(s[w], a);
      assert CanHold(t[w], b);
    }
  }

  // ---------------------------------------------------------------- recovery

  lemma ExpiryEvolves(job: Job, fence: nat, now: int, reason: BlockReason)
    requires JobShape(job, fence) && Holding(job.state)
    ensures JobEvolves(job, ExpireLease(job, now, reason), fence)
  {
  }

  lemma RecoveryKeepsInv(cfg: Config, s: Store, now: int)
    requires Inv(cfg, s)
    ensures Inv(cfg, Recovered(s, now)) && Evolves(s, Recovered(s, now)) && Advances(s, Recovered(s, now))
  {
    var t := Recovered(s, now);
    forall i | 0 <= i < |s.jobs|
      ensures JobEvolves(s.jobs[i], t.jobs[i], t.nextFencingToken) && HolderKnown(t.workers, t.jobs[i])
        && s.jobs[i].completion == t.jobs[i].completion
    {
      assert JobOk(cfg, s, s.jobs[i]);
      if Expired(s.jobs[i], now) { ExpiryEvolves(s.jobs[i], s.nextFencingToken, now, LeaseExpired); }
    }
    EvolveKeepsInv(cfg, s, t);
  }

  // ---------------------------------------------------------------- operations

  /** One job and one worker record change, no lease is granted and the worker keeps its state. */
  lemma TouchKeepsInv(cfg: Config, s: Store, t: Store, i: nat, w: nat)
    requires Inv(cfg, s) && i < |s.jobs| && w < |s.workers|
    requires |s.jobs| == |t.jobs| && |s.workers| == |t.workers|
    requires t == Store(s.nextFencingToken, s.workers[w := t.workers[w]], s.jobs[i := t.jobs[i]])
    requires JobEvolves(s.jobs[i], t.jobs[i], s.nextFencingToken)
    requires WorkerEvolves(s.workers[w], t.workers[w]) && s.workers[w].state == t.workers[w].state
    requires s.jobs[i].completion != t.jobs[i].completion ==>
               CompletionSound(cfg, t.workers, t.nextFencingToken, t.jobs[i])
    ensures Inv(cfg, t) && Advances(s, t)
  {
    forall k | 0 <= k < |s.jobs|
      ensures JobEvolves(s.jobs[k], t.jobs[k], t.nextFencingToken) && HolderKnown(t.workers, t.jobs[k])
    {
      assert JobOk(cfg, s, s.jobs[k]);
      HolderPersists(s.workers, t.workers, s.jobs[k], t.jobs[k]);
    }
    EvolveKeepsInv(cfg, s, t);
  }

  /** Only one job record changes. */
  lemma TouchJobKeepsInv(cfg: Config, s: Store, i: nat, job: Job)
    requires Inv(cfg, s) && i < |s.jobs|
    requires JobEvolves(s.jobs[i], job, s.nextFencingToken)
    requires s.jobs[i].completion != job.completion ==> CompletionSound(cfg, s.workers, s.nextFencingToken, job)
    ensures Inv(cfg, WithJob(s, i, job)) && Advances(s, WithJob(s, i, job))
  {
    var t := WithJob(s, i, job);
    forall k | 0 <= k < |s.jobs|
      ensures JobEvolves(s.jobs[k], t.jobs[k], t.nextFencingToken) && HolderKnown(t.workers, t.jobs[k])
    {
      assert JobOk(cfg, s, s.jobs[k]);
      HolderPersists(s.workers, t.workers, s.jobs[k], t.jobs[k]);
    }
    EvolveKeepsInv(cfg, s, t);
  }

  lemma TouchWorkerKeepsInv(cfg: Config, s: Store, w: nat, worker: Worker)
    requires Inv(cfg, s) && w < |s.workers|
    requires WorkerEvolves(s.workers[w], worker) && s.workers[w].state == worker.state
    ensures Inv(cfg, WithWorker(s, w, worker)) && Advances(s, WithWorker(s, w, worker))
  {
    var t := WithWorker(s, w, worker);
    forall k | 0 <= k < |s.jobs|
      ensures JobEvolves(s.jobs[k], t.jobs[k], t.nextFencingToken) && HolderKnown(t.workers, t.jobs[k])
    {
      assert JobOk(cfg, s, s.jobs[k]);
      HolderPersists(s.workers, t.workers, s.jobs[k], t.jobs[k]);
    }
    EvolveKeepsInv(cfg, s, t);
  }

  lemma RegisterKeepsInv(cfg: Config, s: Store, worker: Worker)
    requires Inv(cfg, s)
    requires forall w :: 0 <= w < |s.workers| ==> WorkersApart(s.workers[w], worker)
    ensures Inv(cfg, s.(workers := s.workers + [worker])) && Advances(s, s.(workers := s.workers + [worker]))
  {
    var t := s.(workers := s.workers + [worker]);
    forall i | 0 <= i < |t.jobs| ensures JobOk(cfg, t, t.jobs[i]) {
      assert JobOk(cfg, s, s.jobs[i]);
      CompletionPersists(cfg, s, t, i);
      HolderPersists(s.workers, t.workers, s.jobs[i], t.jobs[i]);
    }
  }

  lemma RevokeKeepsInv(cfg: Config, s: Store, env: Env, workerId: Id, reason: string)
    requires Inv(cfg, s) && RevokeWorker(cfg, s, env, workerId, reason).Ok?
    ensures Inv(cfg, RevokeWorker(cfg, s, env, workerId, reason).value.0)
    ensures Advances(s, RevokeWorker(cfg, s, env, workerId, reason).value.0)
  {
    var t := RevokeWorker(cfg, s, env, workerId, reason).value.0;
    forall i | 0 <= i < |s.jobs|
      ensures JobEvolves(s.jobs[i], t.jobs[i], t.nextFencingToken) && HolderKnown(t.workers, t.jobs[i])
        && s.jobs[i].completion == t.jobs[i].completion
    {
      assert JobOk(cfg, s, s.jobs[i]);
      if HeldBy(s.jobs[i], workerId) {
        ExpiryEvolves(s.jobs[i], s.nextFencingToken, env.now, WorkerRevoked);
      } else if t.jobs[i].lease.Some? {
        var w :| 0 <= w < |s.workers| && CanHold(s.workers[w], s.jobs[i]);
        assert CanHold(t.workers[w], t.jobs[i]);
      }
    }
    EvolveKeepsInv(cfg, s, t);
  }

  lemma SubmitKeepsInv(cfg: Config, s: Store, job: Job)
    requires Inv(cfg, s) && OpenCount(s.jobs) < cfg.maxQueuedJobs
    requires job.state == Queued && job.attempts == 0 && job.lease.None? && job.leaseOutputs.None?
             && job.completion.None?
    requires forall i :: 0 <= i < |s.jobs| ==> s.jobs[i].id != job.id && s.jobs[i].idempotencyKey != job.idempotencyKey
    ensures Inv(cfg, s.(jobs := s.jobs + [job])) && Advances(s, s.(jobs := s.jobs + [job]))
  {
    hide Advances;
    hide JobOk;
    hide Apart;
    hide WorkersApart;
    hide Attempts;
    hide OpenCount;
    AppendAdvances(s, job);
    AppendJobsOk(cfg, s, job);
    AppendApart(s.jobs, job);
    AppendCounts(s.jobs, job);
  }

  lemma AppendApart(jobs: seq<Job>, job: Job)
    requires forall i, j :: 0 <= i < j < |jobs| ==> Apart(jobs[i], jobs[j])
    requires forall i :: 0 <= i < |jobs| ==> jobs[i].id != job.id && jobs[i].idempotencyKey != job.idempotencyKey
    requires job.lease.None?
    ensures forall i, j :: 0 <= i < j < |jobs + [job]| ==> Apart((jobs + [job])[i], (jobs + [job])[j])
  {
    var all := jobs + [job];
    forall i, j | 0 <= i < j < |all| ensures Apart(all[i], all[j]) {
      if j < |jobs| { assert Apart(jobs[i], jobs[j]); }
    }
  }

  lemma AppendCounts(jobs: seq<Job>, job: Job)
    ensures Attempts(jobs + [job]) == Attempts(jobs) + job.attempts
    ensures OpenCount(jobs + [job]) == OpenCount(jobs) + (if Terminal(job.state) then 0 else 1)
  {
    assert (jobs + [job])[..|jobs|] == jobs;
  }

  lemma AppendJobsOk(cfg: Config, s: Store, job: Job)
    requires forall i :: 0 <= i < |s.jobs| ==> JobOk(cfg, s, s.jobs[i])
    requires job.state == Queued && job.attempts == 0 && job.lease.None? && job.leaseOutputs.None?
             && job.completion.None?
    ensures var t := s.(jobs := s.jobs + [job]); forall i :: 0 <= i < |t.jobs| ==> JobOk(cfg, t, t.jobs[i])
  {
    var t := s.(jobs := s.jobs + [job]);
    forall i | 0 <= i < |t.jobs| ensures JobOk(cfg, t, t.jobs[i]) {
      if i < |s.jobs| { assert JobOk(cfg, s, s.jobs[i]) && t.jobs[i] == s.jobs[i]; }
    }
  }

  lemma AppendAdvances(s: Store, job: Job)
    requires job.lease.None?
    ensures Advances(s, s.(jobs := s.jobs + [job]))
  {
    var t := s.(jobs := s.jobs + [job]);
    forall i | 0 <= i < |s.jobs| ensures JobAdvances(s.jobs[i], t.jobs[i], s.nextFencingToken) {
      assert t.jobs[i] == s.jobs[i];
    }
  }

  /** Granting a lease: the one operation that raises the fencing counter. */
  lemma GrantKeepsInv(cfg: Config, s: Store, i: nat, w: nat, tokenId: Id, ttl: int, now: int, freshLeaseId: Id)
    requires Inv(cfg, s) && i < |s.jobs| && w < |s.workers|
    requires Eligible(s.jobs[i], s.workers[w].capabilities) && s.workers[w].state == Active
    requires forall k :: 0 <= k < |s.jobs| ==> !HeldBy(s.jobs[k], s.workers[w].id)
    ensures Inv(cfg, Grant(s, i, s.workers[w], tokenId, ttl, now, freshLeaseId))
    ensures Advances(s, Grant(s, i, s.workers[w], tokenId, ttl, now, freshLeaseId))
  {
    hide JobOk;
    hide Apart;
    hide WorkersApart;
    hide Attempts;
    hide OpenCount;
    hide JobAdvances;
    hide Grant;
    var t := Grant(s, i, s.workers[w], tokenId, ttl, now, freshLeaseId);
    GrantShape(s, i, s.workers[w], tokenId, ttl, now, freshLeaseId);
    forall k | 0 <= k < |t.jobs| ensures JobOk(cfg, t, t.jobs[k])
        && JobAdvances(s.jobs[k], t.jobs[k], s.nextFencingToken) {
      GrantKeepsJob(cfg, s, i, w, tokenId, ttl, now, freshLeaseId, k);
    }
    forall a, b | 0 <= a < b < |t.jobs| ensures Apart(t.jobs[a], t.jobs[b]) {
      GrantKeepsApart(cfg, s, i, w, tokenId, ttl, now, freshLeaseId, a, b);
    }
    WorkersStay(s.workers);
  }

  lemma WorkersStay(workers: seq<Worker>)
    ensures forall w :: 0 <= w < |workers| ==> WorkerEvolves(workers[w], workers[w])
  {
  }

  lemma GrantShape(s: Store, i: nat, worker: Worker, tokenId: Id, ttl: int, now: int, freshLeaseId: Id)
    requires i < |s.jobs| && Eligible(s.jobs[i], worker.capabilities)
    ensures var t := Grant(s, i, worker, tokenId, ttl, now, freshLeaseId);
            && |t.jobs| == |s.jobs| && t.workers == s.workers && t.nextFencingToken == s.nextFencingToken + 1
            && Attempts(t.jobs) == Attempts(s.jobs) + 1 && OpenCount(t.jobs) <= OpenCount(s.jobs)
  {
    var t := Grant(s, i, worker, tokenId, ttl, now, freshLeaseId);
    AttemptsUpdate(s.jobs, i, t.jobs[i]);
    OpenCountShrinks(s.jobs, t.jobs);
  }

  lemma GrantKeepsJob(cfg: Config, s: Store, i: nat, w: nat, tokenId: Id, ttl: int, now: int, freshLeaseId: Id, k: nat)
    requires Inv(cfg, s) && i < |s.jobs| && w < |s.workers| && k < |s.jobs|
    requires Eligible(s.jobs[i], s.workers[w].capabilities) && s.workers[w].state == Active
    ensures var t := Grant(s, i, s.workers[w], tokenId, ttl, now, freshLeaseId);
            JobOk(cfg, t, t.jobs[k]) && JobAdvances(s.jobs[k], t.jobs[k], s.nextFencingToken)
  {
    var t := Grant(s, i, s.workers[w], tokenId, ttl, now, freshLeaseId);
    assert JobOk(cfg, s, s.jobs[k]);
    CompletionPersists(cfg, s, t, k);
    if k == i { assert CanHold(t.workers[w], t.jobs[i]); }
  }

  lemma GrantKeepsApart(cfg: Config, s: Store, i: nat, w: nat, tokenId: Id, ttl: int, now: int, freshLeaseId: Id,
                        a: nat, b: nat)
    requires Inv(cfg, s) && i < |s.jobs| && w < |s.workers| && a < b < |s.jobs|
    requires forall k :: 0 <= k < |s.jobs| ==> !HeldBy(s.jobs[k], s.workers[w].id)
    ensures var t := Grant(s, i, s.workers[w], tokenId, ttl, now, freshLeaseId); Apart(t.jobs[a], t.jobs[b])
  {
    assert Apart(s.jobs[a], s.jobs[b]);
    assert JobOk(cfg, s, s.jobs[a]) && JobOk(cfg, s, s.jobs[b]);
  }

  lemma GrantToKeepsInv(cfg: Config, s: Store, w: nat, tokenId: Id, ttl: int, now: int, freshLeaseId: Id)
    requires Inv(cfg, s) && w < |s.workers| && s.workers[w].state == Active
    ensures Inv(cfg, GrantTo(s, s.workers[w], tokenId, ttl, now, freshLeaseId).0)
    ensures Advances(s, GrantTo(s, s.workers[w], tokenId, ttl, now, freshLeaseId).0)
  {
    var held, next := HeldIndex(s.jobs, s.workers[w].id), NextEligible(s.jobs, s.workers[w].capabilities);
    if held.None? && next.Some? {
      GrantKeepsInv(cfg, s, next.value, w, tokenId, ttl, now, freshLeaseId);
    } else {
      AdvancesReflexive(s);
    }
  }

  lemma LeaseKeepsInv(cfg: Config, s: Store, env: Env, token: Token, ttl: int, freshLeaseId: Id)
    requires Inv(cfg, s) && LeaseJob(cfg, s, env, token, ttl, freshLeaseId).Ok?
    ensures Inv(cfg, LeaseJob(cfg, s, env, token, ttl, freshLeaseId).value.0)
    ensures Advances(s, LeaseJob(cfg, s, env, token, ttl, freshLeaseId).value.0)
  {
    var w := Authenticate(s, token, env.authAt).value;
    var worker := Seen(s.workers[w], env.now);
    var s1 := WithWorker(s, w, worker);
    TouchWorkerKeepsInv(cfg, s, w, worker);
    GrantToKeepsInv(cfg, s1, w, token.tokenId, ttl, env.now, freshLeaseId);
    AdvancesTransitive(s, s1, GrantTo(s1, worker, token.tokenId, ttl, env.now, freshLeaseId).0);
  }

  lemma CompleteKeepsInv(cfg: Config, s: Store, env: Env, token: Token, e: Evidence, signature: string)
    requires Inv(cfg, s) && CompleteJob(cfg, s, env, token, e, signature).Ok?
    ensures Inv(cfg, CompleteJob(cfg, s, env, token, e, signature).value.0)
    ensures Advances(s, CompleteJob(cfg, s, env, token, e, signature).value.0)
  {
    var w := Authenticate(s, token, env.authAt).value;
    var i := MatchLease(cfg, s, s.workers[w].id, e.jobId, e.leaseId, e.fencingToken, env.matchAt).value;
    var job := CompletedJob(cfg, s.jobs[i], e, signature, env.now);
    assert JobOk(cfg, s, s.jobs[i]);
    assert SignedBy(cfg, s.workers[w], job.completion.value.acceptance);
    TouchJobKeepsInv(cfg, s, i, job);
  }

  lemma AcknowledgeKeepsInv(cfg: Config, s: Store, env: Env, token: Token, jobId: Id, leaseId: Id, fence: int)
    requires Inv(cfg, s) && AcknowledgeJob(cfg, s, env, token, jobId, leaseId, fence).Ok?
    ensures Inv(cfg, AcknowledgeJob(cfg, s, env, token, jobId, leaseId, fence).value.0)
    ensures Advances(s, AcknowledgeJob(cfg, s, env, token, jobId, leaseId, fence).value.0)
  {
    var t := AcknowledgeJob(cfg, s, env, token, jobId, leaseId, fence).value.0;
    var (w, i) := Authorize(cfg, s, env, token, jobId, leaseId, fence).value;
    assert JobOk(cfg, s, s.jobs[i]);
    TouchKeepsInv(cfg, s, t, i, w);
  }

  lemma HeartbeatKeepsInv(cfg: Config, s: Store, env: Env, token: Token, jobId: Id, leaseId: Id, fence: int, ttl: int)
    requires Inv(cfg, s) && HeartbeatJob(cfg, s, env, token, jobId, leaseId, fence, ttl).Ok?
    ensures Inv(cfg, HeartbeatJob(cfg, s, env, token, jobId, leaseId, fence, ttl).value.0)
    ensures Advances(s, HeartbeatJob(cfg, s, env, token, jobId, leaseId, fence, ttl).value.0)
  {
    var t := HeartbeatJob(cfg, s, env, token, jobId, leaseId, fence, ttl).value.0;
    var (w, i) := Authorize(cfg, s, env, token, jobId, leaseId, fence).value;
    assert JobOk(cfg, s, s.jobs[i]);
    TouchKeepsInv(cfg, s, t, i, w);
  }

  lemma RecordOutputKeepsInv(cfg: Config, s: Store, env: Env, token: Token, jobId: Id, leaseId: Id, fence: int,
                             artifact: Id)
    requires Inv(cfg, s) && RecordOutputArtifact(cfg, s, env, token, jobId, leaseId, fence, artifact).Ok?
    ensures Inv(cfg, RecordOutputArtifact(cfg, s, env, token, jobId, leaseId, fence, artifact).value.0)
    ensures Advances(s, RecordOutputArtifact(cfg, s, env, token, jobId, leaseId, fence, artifact).value.0)
  {
    hide Advances;
    var (w, i) := Authorize(cfg, s, env, token, jobId, leaseId, fence).value;
    assert JobOk(cfg, s, s.jobs[i]);
    TouchJobKeepsInv(cfg, s, i, WithOutput(s.jobs[i], artifact, env.now));
  }

  lemma FailKeepsInv(cfg: Config, s: Store, env: Env, token: Token, jobId: Id, leaseId: Id, fence: int, reason: string)
    requires Inv(cfg, s) && FailJob(cfg, s, env, token, jobId, leaseId, fence, reason).Ok?
    ensures Inv(cfg, FailJob(cfg, s, env, token, jobId, leaseId, fence, reason).value.0)
    ensures Advances(s, FailJob(cfg, s, env, token, jobId, leaseId, fence, reason).value.0)
  {
    var (w, i) := Authorize(cfg, s, env, token, jobId, leaseId, fence).value;
    assert JobOk(cfg, s, s.jobs[i]);
    TouchJobKeepsInv(cfg, s, i, Ended(s.jobs[i], Failed, cfg.bounded(reason, 2000).value, env.now));
  }

  lemma CancelKeepsInv(cfg: Config, s: Store, env: Env, jobId: Id, reason: string)
    requires Inv(cfg, s) && CancelJob(cfg, s, env, jobId, reason).Ok?
    ensures Inv(cfg, CancelJob(cfg, s, env, jobId, reason).value.0)
    ensures Advances(s, CancelJob(cfg, s, env, jobId, reason).value.0)
  {
    var i := JobIndex(s, jobId).value;
    assert JobOk(cfg, s, s.jobs[i]);
    if Terminal(s.jobs[i].state) {
      AdvancesReflexive(s);
    } else {
      TouchJobKeepsInv(cfg, s, i, Ended(s.jobs[i], Cancelled, cfg.bounded(reason, 2000).value, env.now));
    }
  }

  /** Only no-replay jobs are ever blocked, and only idempotent ones may be retried: the retry
      operation refuses every job of every reachable store. */
  lemma RetryBlockedNeverSucceeds(cfg: Config, s: Store, env: Env, jobId: Id)
    requires Inv(cfg, s)
    ensures RetryBlockedJob(cfg, s, env, jobId).Err?
  {
    if cfg.matches(JobId, jobId) && JobIndex(s, jobId).Some? {
      assert JobOk(cfg, s, s.jobs[JobIndex(s, jobId).value]);
    }
  }

  /** Identifiers drawn at random are new. */
  ghost predicate Fresh(s: Store, op: Op) {
    && (op.Register? ==> forall w :: 0 <= w < |s.workers| ==> s.workers[w].id != op.freshId)
    && (op.Submit? ==> forall i :: 0 <= i < |s.jobs| ==> s.jobs[i].id != op.freshId)
  }

  lemma PerformKeepsInv(cfg: Config, before: Store, s: Store, env: Env, op: Op)
    requires Inv(cfg, s) && Fresh(s, op)
    ensures Perform(cfg, before, s, env, op).Ok? ==>
              var t := Perform(cfg, before, s, env, op).value.0;
              Inv(cfg, t) && Advances(s, t)
  {
    if op.RetryBlocked? {
      RetryBlockedNeverSucceeds(cfg, s, env, op.jobId);
      return;
    }
    if Perform(cfg, before, s, env, op).Err? { return; }
    var t := Perform(cfg, before, s, env, op).value.0;
    match op
    case Register(_, _, _, _, _, _) =>
      RegisterKeepsInv(cfg, s, t.workers[|s.workers|]);
    case Rotate(workerId, ttl, tokenId) =>
      var w := WorkerIndex(s, workerId).value;
      TouchWorkerKeepsInv(cfg, s, w, t.workers[w]);
    case Revoke(workerId, reason) =>
      RevokeKeepsInv(cfg, s, env, workerId, reason);
    case Submit(spec, freshId) =>
      SubmitOpKeepsInv(cfg, s, env, spec, freshId);
    case LeaseNext(token, ttl, freshLeaseId) =>
      LeaseKeepsInv(cfg, s, env, token, ttl, freshLeaseId);
    case Complete(token, evidence, signature) =>
      CompleteKeepsInv(cfg, s, env, token, evidence, signature);
    case Acknowledge(token, jobId, leaseId, fence) =>
      AcknowledgeKeepsInv(cfg, s, env, token, jobId, leaseId, fence);
    case Heartbeat(token, jobId, leaseId, fence, ttl) =>
      HeartbeatKeepsInv(cfg, s, env, token, jobId, leaseId, fence, ttl);
    case RecordOutput(token, jobId, leaseId, fence, artifact) =>
      RecordOutputKeepsInv(cfg, s, env, token, jobId, leaseId, fence, artifact);
    case Fail(token, jobId, leaseId, fence, reason) =>
      FailKeepsInv(cfg, s, env, token, jobId, leaseId, fence, reason);
    case Cancel(jobId, reason) =>
      CancelKeepsInv(cfg, s, env, jobId, reason);
    case RetryBlocked(_) =>
    case Recover =>
  }

  lemma SubmitOpKeepsInv(cfg: Config, s: Store, env: Env, spec: JobSpec, freshId: Id)
    requires Inv(cfg, s) && SubmitJob(cfg, s, env, spec, freshId).Ok?
    requires forall i :: 0 <= i < |s.jobs| ==> s.jobs[i].id != freshId
    ensures Inv(cfg, SubmitJob(cfg, s, env, spec, freshId).value.0)
    ensures Advances(s, SubmitJob(cfg, s, env, spec, freshId).value.0)
  {
    var t := SubmitJob(cfg, s, env, spec, freshId).value.0;
    if |t.jobs| > |s.jobs| {
      var job := t.jobs[|s.jobs|];
      SubmitKeepsInv(cfg, s, job);
    }
  }

  /** Every request, successful or not, keeps the invariant and only advances the records. */
  lemma MutateKeepsInv(cfg: Config, s: Store, env: Env, op: Op)
    requires Inv(cfg, s) && Fresh(s, op)
    ensures Inv(cfg, Mutate(cfg, s, env, op).0)
    ensures Advances(s, Mutate(cfg, s, env, op).0)
    ensures Mutate(cfg, s, env, op).1.Err? ==> Mutate(cfg, s, env, op).0 == s
  {
    var r := Recovered(s, env.recoverAt);
    RecoveryKeepsInv(cfg, s, env.recoverAt);
    if Perform(cfg, s, r, env, op).Ok? {
      PerformKeepsInv(cfg, s, r, env, op);
      AdvancesTransitive(s, r, Perform(cfg, s, r, env, op).value.0);
    }
  }
}
