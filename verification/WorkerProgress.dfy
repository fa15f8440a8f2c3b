/** The worker's way through: in good conditions its five steps finish the job, and only executing
    runs the tool. */
module WorkerProgress {
  import opened Prelude
  import opened CoordinatorTypes
  import opened Coordinator
  import opened CoordinatorInvariant
  import opened CoordinatorRuns
  import opened CoordinatorEffects
  import opened CoordinatorAdmin
  import opened WorkerSystem

  // ---------------------------------------------------------------- what each event does to the history

  /** The tool is run, once, under the process's permit, exactly when a cleared process executes. */
  lemma RunsGrowIff(cfg: Config, w: World, e: Event)
    ensures Next(cfg, w, e).runs ==
            if e.Execute? && e.p in w.procs && w.procs[e.p].Cleared? then w.runs + [w.procs[e.p].permit] else w.runs
  {
    hide Mutate;
  }

  /** A crashed process keeps nothing: until it takes a lease again, none of its events does anything. */
  lemma CrashForgets(cfg: Config, w: World, p: nat, e: Event)
    requires e.Execute? || e.Acknowledged? || e.SendHeartbeat? || e.SendUpload? || e.SendCompletion? || e.SendFailure?
    requires e.p == p
    ensures var crashed := Next(cfg, w, Crash(p));
            && crashed.store == w.store && crashed.acks == w.acks && crashed.runs == w.runs
               && crashed.uploads == w.uploads
            && Next(cfg, crashed, e) == crashed
  {
    hide Mutate;
  }

  // ---------------------------------------------------------------- good conditions

  /** Every lease in the store lasts at least until `limit`. */
  ghost predicate Calm(s: Store, limit: int) {
    forall i :: 0 <= i < |s.jobs| && s.jobs[i].lease.Some? ==> limit <= s.jobs[i].lease.value.expiresAt
  }

  /** The request looks at its clocks before `limit`. */
  ghost predicate Early(env: Env, limit: int) { env.recoverAt < limit && env.authAt < limit && env.matchAt < limit }

  lemma CalmRecovered(cfg: Config, s: Store, now: int, limit: int)
    requires Inv(cfg, s) && Calm(s, limit) && now < limit
    ensures Recovered(s, now) == s
  {
    var r := Recovered(s, now);
    forall i | 0 <= i < |s.jobs| ensures r.jobs[i] == s.jobs[i] { RecoveryExactly(cfg, s, now, i); }
    assert |r.jobs| == |s.jobs| && r.jobs == s.jobs;
  }

  /** One lease, as its worker knows it. */
  datatype Claim = Claim(worker: Worker, job: Job, token: Token, leaseId: Id, fence: nat, w: nat, i: nat)

  /** The worker holds the job under the claim, in the given state and with the given outputs. */
  ghost predicate Working(cfg: Config, s: Store, c: Claim, state: JobState, outputs: set<Id>, limit: int) {
    && Inv(cfg, s) && Calm(s, limit) && c.token.Claims? && limit <= c.token.expiresAt && c.w < |s.workers|
       && c.i < |s.jobs|
    && WorkerStands(s.workers[c.w], c) && JobStands(s.jobs[c.i], c, state, outputs) && cfg.matches(JobId, c.job.id)
  }

  ghost predicate WorkerStands(worker: Worker, c: Claim)
    requires c.token.Claims?
  {
    && worker.id == c.worker.id == c.token.workerId && worker.state == Active
    && worker.activeTokenId == Some(c.token.tokenId) && worker.publicKey == c.worker.publicKey
  }

  ghost predicate JobStands(job: Job, c: Claim, state: JobState, outputs: set<Id>) {
    && SameSpec(c.job, job) && job.state == state && job.leaseOutputs == Some(outputs) && job.lease.Some?
    && job.lease.value.workerId == c.worker.id && job.lease.value.id == c.leaseId
       && job.lease.value.fencingToken == c.fence
  }

  lemma WorkingMayAct(cfg: Config, s: Store, c: Claim, state: JobState, outputs: set<Id>, limit: int, env: Env)
    requires Working(cfg, s, c, state, outputs, limit) && Early(env, limit)
    ensures Recovered(s, env.recoverAt) == s
    ensures MayAct(cfg, s, env, c.token, c.job.id, c.leaseId, c.fence, c.w, c.i)
  {
    hide Inv;
    CalmRecovered(cfg, s, env.recoverAt, limit);
  }

  /** Changing only the claimed job and its worker's times keeps the rest calm. */
  lemma StillWorking(cfg: Config, s: Store, t: Store, c: Claim, from: JobState, before: set<Id>, to: JobState,
                     after: set<Id>, limit: int)
    requires Working(cfg, s, c, from, before, limit) && Inv(cfg, t)
    requires |t.workers| == |s.workers| && WorkerStands(t.workers[c.w], c)
    requires |t.jobs| == |s.jobs| && t.jobs == s.jobs[c.i := t.jobs[c.i]] && JobStands(t.jobs[c.i], c, to, after)
    requires limit <= t.jobs[c.i].lease.value.expiresAt
    ensures Working(cfg, t, c, to, after, limit)
  {
    hide Inv;
  }

  // ---------------------------------------------------------------- the five steps

  ghost predicate At(w: World, p: nat, process: Process) { p in w.procs && w.procs[p] == process }

  function PermitOf(c: Claim): Permit { Permit(c.job.id, c.fence) }

  ghost function ClaimOf(s: Store, k: nat, i: nat, token: Token, leaseId: Id): Claim
    requires k < |s.workers| && i < |s.jobs|
  {
    Claim(s.workers[k], s.jobs[i], token, leaseId, s.nextFencingToken + 1, k, i)
  }

  /** An idle process, an active worker presenting its token, holding nothing, and a job it can run. */
  ghost predicate ReadyToLease(cfg: Config, w: World, p: nat, env: Env, token: Token, ttl: int, k: nat, i: nat,
                               limit: int) {
    && Inv(cfg, w.store) && Proc(w, p).Idle? && Calm(w.store, limit) && Early(env, limit)
    && token.Claims? && limit <= token.expiresAt && limit <= env.now + ttl && 1000 <= ttl <= cfg.maxLeaseTtl
    && Presents(w.store, token, env.authAt, k) && HoldsNothing(w.store, w.store.workers[k].id)
    && OldestRunnable(w.store, w.store.workers[k].capabilities, i) && cfg.matches(JobId, w.store.jobs[i].id)
  }

  lemma LeaseStep(cfg: Config, w: World, p: nat, env: Env, token: Token, ttl: int, leaseId: Id, k: nat, i: nat,
                  limit: int)
    requires ReadyToLease(cfg, w, p, env, token, ttl, k, i, limit)
    ensures var c := ClaimOf(w.store, k, i, token, leaseId);
            var v := Next(cfg, w, TakeLease(p, env, token, ttl, leaseId, true));
            && Working(cfg, v.store, c, Leased, {}, limit) && At(v, p, Offered(PermitOf(c), leaseId, token))
            && v.acks == w.acks && v.runs == w.runs && v.uploads == w.uploads
  {
    hide Inv;
    hide LeaseJob;
    hide OldestRunnable;
    CalmRecovered(cfg, w.store, env.recoverAt, limit);
    OldestInRange(w.store, w.store.workers[k].capabilities, i);
    LeaseExactly(cfg, w.store, env, token, ttl, leaseId, k, i);
    MutateKeepsInv(cfg, w.store, env, LeaseNext(token, ttl, leaseId));
    LeasedStands(w.store, k, i, token, ttl, env.now, leaseId, limit);
  }

  lemma OldestInRange(s: Store, capabilities: set<string>, i: nat)
    requires OldestRunnable(s, capabilities, i)
    ensures i < |s.jobs|
  {
  }

  lemma LeasedStands(s: Store, k: nat, i: nat, token: Token, ttl: int, now: int, leaseId: Id, limit: int)
    requires k < |s.workers| && i < |s.jobs| && token.Claims? && Calm(s, limit) && limit <= now + ttl
    requires WorkerStands(s.workers[k], ClaimOf(s, k, i, token, leaseId))
    ensures var t := Leasing(s, k, i, token.tokenId, ttl, now, leaseId);
            var c := ClaimOf(s, k, i, token, leaseId);
            Calm(t, limit) && WorkerStands(t.workers[k], c) && JobStands(t.jobs[i], c, Leased, {})
  {
  }

  lemma AcknowledgeStep(cfg: Config, w: World, p: nat, env: Env, c: Claim, limit: int)
    requires Working(cfg, w.store, c, Leased, {}, limit) && Early(env, limit)
             && At(w, p, Offered(PermitOf(c), c.leaseId, c.token))
    ensures var v := Next(cfg, w, Acknowledged(p, env, true));
            && Working(cfg, v.store, c, Running, {}, limit) && At(v, p, Cleared(PermitOf(c), c.leaseId, c.token))
            && v.acks == w.acks + [PermitOf(c)] && v.runs == w.runs && v.uploads == w.uploads
  {
    hide Inv;
    hide AcknowledgeJob;
    hide MayAct;
    WorkingMayAct(cfg, w.store, c, Leased, {}, limit, env);
    AcknowledgeExactly(cfg, w.store, env, c.token, c.job.id, c.leaseId, c.fence, c.w, c.i);
    var op := Acknowledge(c.token, c.job.id, c.leaseId, c.fence);
    MutateKeepsInv(cfg, w.store, env, op);
    StillWorking(cfg, w.store, Mutate(cfg, w.store, env, op).0, c, Leased, {}, Running, {}, limit);
  }

  lemma ExecuteStep(cfg: Config, w: World, p: nat, c: Claim)
    requires At(w, p, Cleared(PermitOf(c), c.leaseId, c.token))
    ensures var v := Next(cfg, w, Execute(p));
            && v.store == w.store && At(v, p, Executed(PermitOf(c), c.leaseId, c.token))
            && v.runs == w.runs + [PermitOf(c)] && v.acks == w.acks && v.uploads == w.uploads
  {
  }

  lemma UploadStep(cfg: Config, w: World, p: nat, env: Env, c: Claim, artifact: Id, limit: int)
    requires Working(cfg, w.store, c, Running, {}, limit) && Early(env, limit)
             && At(w, p, Executed(PermitOf(c), c.leaseId, c.token))
    requires cfg.matches(ArtifactId, artifact) && artifact in env.artifacts
    ensures var v := Next(cfg, w, SendUpload(p, env, artifact, true));
            && Working(cfg, v.store, c, Running, {artifact}, limit)
            && At(v, p, Uploaded(PermitOf(c), c.leaseId, c.token, artifact))
            && v.uploads == w.uploads + {Upload(c.fence, artifact)} && v.acks == w.acks && v.runs == w.runs
  {
    hide Inv;
    hide RecordOutputArtifact;
    hide MayAct;
    WorkingMayAct(cfg, w.store, c, Running, {}, limit, env);
    RecordExactly(cfg, w.store, env, c.token, c.job.id, c.leaseId, c.fence, artifact, c.w, c.i);
    assert {} + {artifact} == {artifact};
    var op := RecordOutput(c.token, c.job.id, c.leaseId, c.fence, artifact);
    MutateKeepsInv(cfg, w.store, env, op);
    StillWorking(cfg, w.store, Mutate(cfg, w.store, env, op).0, c, Running, {}, Running, {artifact}, limit);
  }

  /** The evidence names the claim, the job, and the one artifact uploaded. */
  ghost predicate Names(e: Evidence, c: Claim, artifact: Id) {
    && e.jobId == c.job.id && e.leaseId == c.leaseId && e.fencingToken == c.fence && e.workerId == c.worker.id
    && e.tool == c.job.tool && e.argsDigest == c.job.argsDigest && e.inputs == c.job.inputs && e.outputs == [artifact]
  }

  /** The evidence is well formed, signed with the worker's key, and sent in time. */
  ghost predicate Presentable(cfg: Config, env: Env, e: Evidence, signature: string, c: Claim) {
    && ValidEvidence(cfg, env, e) && cfg.workerVerifies(c.worker.publicKey, e, signature)
    && e.completedAt - 300000 <= env.now <= e.completedAt + 300000
  }

  lemma CompleteStep(cfg: Config, w: World, p: nat, env: Env, c: Claim, artifact: Id, e: Evidence, signature: string,
                     limit: int)
    requires Working(cfg, w.store, c, Running, {artifact}, limit) && Early(env, limit)
    requires At(w, p, Uploaded(PermitOf(c), c.leaseId, c.token, artifact))
    requires Names(e, c, artifact) && Presentable(cfg, env, e, signature, c)
    ensures var v := Next(cfg, w, SendCompletion(p, env, e, signature));
            && c.i < |v.store.jobs| && SameSpec(c.job, v.store.jobs[c.i])
            && v.store.jobs[c.i].state == (if e.resultOk then Completed else Failed)
            && v.store.jobs[c.i].completion.Some? && v.store.jobs[c.i].completion.value.acceptance.evidence == e
            && v.store.jobs[c.i].lease.None? && At(v, p, Idle)
            && v.acks == w.acks && v.runs == w.runs && v.uploads == w.uploads
  {
    hide Inv;
    hide CompleteJob;
    hide MayAct;
    hide ValidEvidence;
    WorkingMayAct(cfg, w.store, c, Running, {artifact}, limit, env);
    CompleteExactly(cfg, w.store, env, c.token, e, signature, c.w, c.i);
    assert SetOf([artifact]) == {artifact};
  }

  /** A process that fails in between reports it, and the job ends failed with its reason. */
  lemma FailureStep(cfg: Config, w: World, p: nat, env: Env, c: Claim, outputs: set<Id>, reason: string, limit: int)
    requires Working(cfg, w.store, c, Running, outputs, limit) && Early(env, limit) && cfg.bounded(reason, 2000).Some?
    requires At(w, p, Cleared(PermitOf(c), c.leaseId, c.token)) || At(w, p, Executed(PermitOf(c), c.leaseId, c.token))
    ensures var v := Next(cfg, w, SendFailure(p, env, reason));
            && c.i < |v.store.jobs| && v.store.jobs[c.i].state == Failed && v.store.jobs[c.i].lease.None?
            && v.store.jobs[c.i].failure == cfg.bounded(reason, 2000) && At(v, p, Idle)
  {
    hide Inv;
    hide FailJob;
    hide MayAct;
    WorkingMayAct(cfg, w.store, c, Running, outputs, limit, env);
    FailExactly(cfg, w.store, env, c.token, c.job.id, c.leaseId, c.fence, reason, c.w, c.i);
  }

  /** A heartbeat of a working process moves its lease's end to `ttl` from then, and interrupts nothing. */
  lemma HeartbeatStep(cfg: Config, w: World, p: nat, env: Env, c: Claim, outputs: set<Id>, ttl: int, limit: int)
    requires Working(cfg, w.store, c, Running, outputs, limit) && Early(env, limit) && 1000 <= ttl <= cfg.maxLeaseTtl
    requires At(w, p, Cleared(PermitOf(c), c.leaseId, c.token)) || At(w, p, Executed(PermitOf(c), c.leaseId, c.token))
    ensures var v := Next(cfg, w, SendHeartbeat(p, env, ttl));
            && c.i < |v.store.jobs| && v.store.jobs[c.i].lease.Some?
            && v.store.jobs[c.i].lease.value.expiresAt == env.now + ttl
            && (limit <= env.now + ttl ==> Working(cfg, v.store, c, Running, outputs, limit))
            && v.procs == w.procs && v.acks == w.acks && v.runs == w.runs && v.uploads == w.uploads
  {
    hide Inv;
    hide HeartbeatJob;
    hide MayAct;
    WorkingMayAct(cfg, w.store, c, Running, outputs, limit, env);
    HeartbeatExactly(cfg, w.store, env, c.token, c.job.id, c.leaseId, c.fence, ttl, c.w, c.i);
    var op := Heartbeat(c.token, c.job.id, c.leaseId, c.fence, ttl);
    MutateKeepsInv(cfg, w.store, env, op);
    if limit <= env.now + ttl {
      StillWorking(cfg, w.store, Mutate(cfg, w.store, env, op).0, c, Running, outputs, Running, outputs, limit);
    }
  }

  // ---------------------------------------------------------------- the whole way

  /** The five events of one iteration, all replies delivered. */
  function Iteration(p: nat, envs: seq<Env>, token: Token, ttl: int, leaseId: Id, artifact: Id, e: Evidence,
                     signature: string): seq<Event>
    requires |envs| == 4
  {
    [TakeLease(p, envs[0], token, ttl, leaseId, true), Acknowledged(p, envs[1], true), Execute(p),
     SendUpload(p, envs[2], artifact, true), SendCompletion(p, envs[3], e, signature)]
  }

  lemma FinalCons(cfg: Config, w: World, e: Event, rest: seq<Event>)
    ensures Final(cfg, w, [e] + rest) == Final(cfg, Next(cfg, w, e), rest)
  {
    hide Next;
    assert ([e] + rest)[1..] == rest;
  }

  lemma FinalOfFive(cfg: Config, w: World, a: Event, b: Event, c: Event, d: Event, e: Event)
    ensures Final(cfg, w, [a, b, c, d, e])
         == Next(cfg, Next(cfg, Next(cfg, Next(cfg, Next(cfg, w, a), b), c), d), e)
  {
    hide Next;
    hide Final;
    var w1 := Next(cfg, w, a);
    var w2 := Next(cfg, w1, b);
    var w3 := Next(cfg, w2, c);
    var w4 := Next(cfg, w3, d);
    assert [a, b, c, d, e] == [a] + [b, c, d, e] && [b, c, d, e] == [b] + [c, d, e] && [c, d, e] == [c] + [d, e];
    assert [d, e] == [d] + [e] && [e] == [e] + [];
    FinalCons(cfg, w, a, [b, c, d, e]);
    FinalCons(cfg, w1, b, [c, d, e]);
    FinalCons(cfg, w2, c, [d, e]);
    FinalCons(cfg, w3, d, [e]);
    FinalCons(cfg, w4, e, []);
    FinalNothing(cfg, Next(cfg, w4, e));
  }

  lemma FinalNothing(cfg: Config, w: World)
    ensures Final(cfg, w, []) == w
  {
  }

  /** Progress: from any sound world with an idle process, an active worker that holds nothing, a job it
      can run and all clocks before every expiry, one iteration finishes the oldest such job. It ends
      completed if the tool succeeded (failed otherwise), having run once more, with the upload recorded
      under its new fencing token and the worker free again. */
  lemma IterationFinishes(cfg: Config, w: World, p: nat, envs: seq<Env>, token: Token, ttl: int, leaseId: Id,
                          artifact: Id, e: Evidence, signature: string, k: nat, i: nat, limit: int)
    requires |envs| == 4 && ReadyToLease(cfg, w, p, envs[0], token, ttl, k, i, limit)
    requires Early(envs[1], limit) && Early(envs[2], limit) && Early(envs[3], limit)
    requires cfg.matches(ArtifactId, artifact) && artifact in envs[2].artifacts
    requires k < |w.store.workers| && i < |w.store.jobs|
    requires Names(e, ClaimOf(w.store, k, i, token, leaseId), artifact)
    requires Presentable(cfg, envs[3], e, signature, ClaimOf(w.store, k, i, token, leaseId))
    ensures var v := Final(cfg, w, Iteration(p, envs, token, ttl, leaseId, artifact, e, signature));
            var id, fence := w.store.jobs[i].id, w.store.nextFencingToken + 1;
            && i < |v.store.jobs| && v.store.jobs[i].id == id
            && v.store.jobs[i].state == (if e.resultOk then Completed else Failed) && v.store.jobs[i].lease.None?
            && v.runs == w.runs + [Permit(id, fence)] && Count(v.runs, id) == Count(w.runs, id) + 1
            && v.uploads == w.uploads + {Upload(fence, artifact)} && At(v, p, Idle)
  {
    hide Next;
    hide ReadyToLease;
    hide Working;
    hide Names;
    hide Presentable;
    hide SameSpec;
    var c := ClaimOf(w.store, k, i, token, leaseId);
    var events := Iteration(p, envs, token, ttl, leaseId, artifact, e, signature);
    FinalOfFive(cfg, w, events[0], events[1], events[2], events[3], events[4]);
    LeaseStep(cfg, w, p, envs[0], token, ttl, leaseId, k, i, limit);
    var w1 := Next(cfg, w, events[0]);
    AcknowledgeStep(cfg, w1, p, envs[1], c, limit);
    var w2 := Next(cfg, w1, events[1]);
    ExecuteStep(cfg, w2, p, c);
    var w3 := Next(cfg, w2, events[2]);
    UploadStep(cfg, w3, p, envs[2], c, artifact, limit);
    var w4 := Next(cfg, w3, events[3]);
    CompleteStep(cfg, w4, p, envs[3], c, artifact, e, signature, limit);
    SameSpecId(c.job, Next(cfg, w4, events[4]).store.jobs[i]);
    CountSnoc(w.runs, PermitOf(c));
  }

  lemma SameSpecId(a: Job, b: Job)
    requires SameSpec(a, b)
    ensures a.id == b.id
  {
  }

  lemma CountSnoc(runs: seq<Permit>, p: Permit)
    ensures Count(runs + [p], p.jobId) == Count(runs, p.jobId) + 1
  {
    assert (runs + [p])[..|runs|] == runs;
  }
}
