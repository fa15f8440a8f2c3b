/** Provenance of results: an accepted result names exactly the artifacts that were uploaded under
    its own fencing token, over every run of the whole system. */
module WorkerOutputs {
  import opened Prelude
  import opened CoordinatorTypes
  import opened Coordinator
  import opened CoordinatorInvariant
  import opened CoordinatorRuns
  import opened WorkerSystem

  function Recorded(uploads: set<Upload>, fence: int): set<Id> {
    set u | u in uploads && u.fence == fence :: u.artifact
  }

  ghost predicate LeaseOutputsOk(job: Job, uploads: set<Upload>) {
    job.lease.Some? ==> Outputs(job) == Recorded(uploads, job.lease.value.fencingToken)
  }

  ghost predicate ResultOutputsOk(s: Store, job: Job, uploads: set<Upload>) {
    job.completion.Some? ==>
      var e := job.completion.value.acceptance.evidence;
      SetOf(e.outputs) == Recorded(uploads, e.fencingToken) && Dead(s, e.fencingToken)
  }

  ghost predicate OutputsInv(s: Store, uploads: set<Upload>) {
    && (forall u <- uploads :: u.fence <= s.nextFencingToken)
    && (forall i :: 0 <= i < |s.jobs| ==> LeaseOutputsOk(s.jobs[i], uploads))
    && (forall i :: 0 <= i < |s.jobs| ==> ResultOutputsOk(s, s.jobs[i], uploads))
  }

  /** A change that neither records an output nor accepts a result. */
  ghost predicate Quiet(a: Job, b: Job, fence: nat) {
    && a.completion == b.completion
    && (b.lease.Some? ==>
          || (KeepsLease(a, b) && Outputs(a) == Outputs(b))
          || (b.lease.value.fencingToken > fence && Outputs(b) == {}))
  }

  ghost predicate AllQuiet(s: Store, t: Store) {
    && |s.jobs| <= |t.jobs|
    && (forall i :: 0 <= i < |s.jobs| ==> Quiet(s.jobs[i], t.jobs[i], s.nextFencingToken))
    && (forall i :: |s.jobs| <= i < |t.jobs| ==> t.jobs[i].lease.None? && t.jobs[i].completion.None?)
  }

  lemma QuietKeepsOutputs(s: Store, t: Store, uploads: set<Upload>)
    requires OutputsInv(s, uploads) && Advances(s, t) && AllQuiet(s, t)
    ensures OutputsInv(t, uploads)
  {
    forall i | 0 <= i < |t.jobs| ensures LeaseOutputsOk(t.jobs[i], uploads) {
      if i < |s.jobs| { assert LeaseOutputsOk(s.jobs[i], uploads) && Quiet(s.jobs[i], t.jobs[i], s.nextFencingToken); }
    }
    forall i | 0 <= i < |t.jobs| ensures ResultOutputsOk(t, t.jobs[i], uploads) {
      if i < |s.jobs| {
        assert ResultOutputsOk(s, s.jobs[i], uploads) && Quiet(s.jobs[i], t.jobs[i], s.nextFencingToken);
        if t.jobs[i].completion.Some? {
          DeadStaysDead(s, t, t.jobs[i].completion.value.acceptance.evidence.fencingToken);
        }
      }
    }
  }

  lemma RecoveryIsQuiet(s: Store, now: int)
    ensures AllQuiet(s, Recovered(s, now))
  {
  }

  lemma LeasingIsQuiet(cfg: Config, s: Store, env: Env, token: Token, ttl: int, freshLeaseId: Id)
    requires LeaseJob(cfg, s, env, token, ttl, freshLeaseId).Ok?
    ensures AllQuiet(s, LeaseJob(cfg, s, env, token, ttl, freshLeaseId).value.0)
  {
  }

  lemma AdministrationIsQuiet(cfg: Config, before: Store, s: Store, env: Env, op: Op)
    requires op.Register? || op.Rotate? || op.Revoke? || op.Submit? || op.Cancel? || op.Recover?
    requires Perform(cfg, before, s, env, op).Ok?
    ensures AllQuiet(s, Perform(cfg, before, s, env, op).value.0)
  {
  }

  lemma AcknowledgingIsQuiet(cfg: Config, s: Store, env: Env, token: Token, jobId: Id, leaseId: Id, fence: int)
    requires AcknowledgeJob(cfg, s, env, token, jobId, leaseId, fence).Ok?
    ensures AllQuiet(s, AcknowledgeJob(cfg, s, env, token, jobId, leaseId, fence).value.0)
  {
  }

  lemma HeartbeatIsQuiet(cfg: Config, s: Store, env: Env, token: Token, jobId: Id, leaseId: Id, fence: int, ttl: int)
    requires HeartbeatJob(cfg, s, env, token, jobId, leaseId, fence, ttl).Ok?
    ensures AllQuiet(s, HeartbeatJob(cfg, s, env, token, jobId, leaseId, fence, ttl).value.0)
  {
  }

  lemma FailingIsQuiet(cfg: Config, s: Store, env: Env, token: Token, jobId: Id, leaseId: Id, fence: int,
                       reason: string)
    requires FailJob(cfg, s, env, token, jobId, leaseId, fence, reason).Ok?
    ensures AllQuiet(s, FailJob(cfg, s, env, token, jobId, leaseId, fence, reason).value.0)
  {
  }

  /** Recording an artifact under a live lease. */
  lemma RecordingKeepsOutputs(cfg: Config, s: Store, env: Env, token: Token, jobId: Id, leaseId: Id, fence: int,
                              artifact: Id, uploads: set<Upload>)
    requires Inv(cfg, s) && OutputsInv(s, uploads)
    requires RecordOutputArtifact(cfg, s, env, token, jobId, leaseId, fence, artifact).Ok?
    ensures OutputsInv(RecordOutputArtifact(cfg, s, env, token, jobId, leaseId, fence, artifact).value.0,
                       uploads + {Upload(fence, artifact)})
  {
    var t := RecordOutputArtifact(cfg, s, env, token, jobId, leaseId, fence, artifact).value.0;
    var i := Authorize(cfg, s, env, token, jobId, leaseId, fence).value.1;
    assert JobOk(cfg, s, s.jobs[i]);
    RecordedOutputs(cfg, s, t, i, artifact, uploads);
  }

  lemma RecordedSplits(uploads: set<Upload>, fence: int, artifact: Id, f: int)
    ensures Recorded(uploads + {Upload(fence, artifact)}, f) ==
            Recorded(uploads, f) + (if f == fence then {artifact} else {})
  {
    var all := uploads + {Upload(fence, artifact)};
    forall a ensures a in Recorded(all, f) <==> a in Recorded(uploads, f) + (if f == fence then {artifact} else {}) {
      if a in Recorded(uploads, f) { assert Upload(f, a) in all; }
      if f == fence && a == artifact { assert Upload(f, a) in all; }
    }
  }

  lemma RecordedOutputs(cfg: Config, s: Store, t: Store, i: nat, artifact: Id, uploads: set<Upload>)
    requires Inv(cfg, s) && OutputsInv(s, uploads) && i < |s.jobs| && s.jobs[i].lease.Some?
    requires |t.jobs| == |s.jobs| && t == WithJob(s, i, t.jobs[i]) && t.jobs[i].lease == s.jobs[i].lease
    requires t.jobs[i].completion == s.jobs[i].completion && Outputs(t.jobs[i]) == Outputs(s.jobs[i]) + {artifact}
    ensures OutputsInv(t, uploads + {Upload(s.jobs[i].lease.value.fencingToken, artifact)})
  {
    var fence := s.jobs[i].lease.value.fencingToken;
    var all := uploads + {Upload(fence, artifact)};
    assert JobOk(cfg, s, s.jobs[i]);
    forall k | 0 <= k < |t.jobs| ensures LeaseOutputsOk(t.jobs[k], all) {
      assert LeaseOutputsOk(s.jobs[k], uploads);
      if t.jobs[k].lease.Some? { RecordedSplits(uploads, fence, artifact, t.jobs[k].lease.value.fencingToken); }
      if k != i { assert if k < i then Apart(s.jobs[k], s.jobs[i]) else Apart(s.jobs[i], s.jobs[k]); }
    }
    forall k | 0 <= k < |t.jobs| ensures ResultOutputsOk(t, t.jobs[k], all) {
      assert ResultOutputsOk(s, s.jobs[k], uploads);
      if t.jobs[k].completion.Some? {
        RecordedSplits(uploads, fence, artifact, t.jobs[k].completion.value.acceptance.evidence.fencingToken);
      }
    }
  }

  /** Accepting a result: it names what its own lease recorded, and its token dies with the lease. */
  lemma AcceptingKeepsOutputs(cfg: Config, s: Store, env: Env, token: Token, e: Evidence, signature: string,
                              uploads: set<Upload>)
    requires Inv(cfg, s) && OutputsInv(s, uploads) && CompleteJob(cfg, s, env, token, e, signature).Ok?
    ensures OutputsInv(CompleteJob(cfg, s, env, token, e, signature).value.0, uploads)
  {
    hide Inv;
    hide OutputsInv;
    hide Advances;
    var t := CompleteJob(cfg, s, env, token, e, signature).value.0;
    var w := Authenticate(s, token, env.authAt).value;
    var i := MatchLease(cfg, s, s.workers[w].id, e.jobId, e.leaseId, e.fencingToken, env.matchAt).value;
    CompleteKeepsInv(cfg, s, env, token, e, signature);
    assert t == WithJob(s, i, CompletedJob(cfg, s.jobs[i], e, signature, env.now));
    AcceptedOutputs(cfg, s, t, i, e, uploads);
  }

  lemma AcceptedOutputs(cfg: Config, s: Store, t: Store, i: nat, e: Evidence, uploads: set<Upload>)
    requires Inv(cfg, s) && OutputsInv(s, uploads) && Advances(s, t)
    requires i < |s.jobs| && t == WithJob(s, i, t.jobs[i]) && t.jobs[i].lease.None?
    requires s.jobs[i].lease.Some? && s.jobs[i].lease.value.fencingToken == e.fencingToken
    requires t.jobs[i].completion.Some? && t.jobs[i].completion.value.acceptance.evidence == e
    requires SetOf(e.outputs) == Outputs(s.jobs[i])
    ensures OutputsInv(t, uploads)
  {
    assert JobOk(cfg, s, s.jobs[i]) && LeaseOutputsOk(s.jobs[i], uploads);
    forall k | 0 <= k < |t.jobs| && t.jobs[k].lease.Some? ensures t.jobs[k].lease.value.fencingToken != e.fencingToken {
      assert if k < i then Apart(s.jobs[k], s.jobs[i]) else Apart(s.jobs[i], s.jobs[k]);
    }
    forall k | 0 <= k < |t.jobs| ensures LeaseOutputsOk(t.jobs[k], uploads) && ResultOutputsOk(t, t.jobs[k], uploads) {
      assert LeaseOutputsOk(s.jobs[k], uploads) && ResultOutputsOk(s, s.jobs[k], uploads);
      if k != i && t.jobs[k].completion.Some? {
        DeadStaysDead(s, t, t.jobs[k].completion.value.acceptance.evidence.fencingToken);
      }
    }
  }

  lemma ServeKeepsOutputs(cfg: Config, w: World, env: Env, op: Op)
    requires Inv(cfg, w.store) && Fresh(w.store, op) && OutputsInv(w.store, w.uploads)
    ensures OutputsInv(Serve(cfg, w, env, op).store, Serve(cfg, w, env, op).uploads)
  {
    var s, r := w.store, Recovered(w.store, env.recoverAt);
    RecoveryKeepsInv(cfg, s, env.recoverAt);
    RecoveryIsQuiet(s, env.recoverAt);
    QuietKeepsOutputs(s, r, w.uploads);
    PerformKeepsInv(cfg, s, r, env, op);
    var o := Perform(cfg, s, r, env, op);
    if o.Ok? {
      PerformKeepsOutputs(cfg, s, r, env, op, w.uploads);
    }
  }

  lemma PerformKeepsOutputs(cfg: Config, before: Store, s: Store, env: Env, op: Op, uploads: set<Upload>)
    requires Inv(cfg, s) && OutputsInv(s, uploads) && Perform(cfg, before, s, env, op).Ok?
    requires Advances(s, Perform(cfg, before, s, env, op).value.0)
    ensures OutputsInv(Perform(cfg, before, s, env, op).value.0,
                       if op.RecordOutput? then uploads + {Upload(op.fencingToken, op.artifactId)} else uploads)
  {
    var t := Perform(cfg, before, s, env, op).value.0;
    if op.RecordOutput? {
      RecordingKeepsOutputs(cfg, s, env, op.token, op.jobId, op.leaseId, op.fencingToken, op.artifactId, uploads);
    } else if op.Complete? {
      AcceptingKeepsOutputs(cfg, s, env, op.token, op.evidence, op.signature, uploads);
    } else if op.LeaseNext? {
      LeasingIsQuiet(cfg, s, env, op.token, op.ttl, op.freshLeaseId);
      QuietKeepsOutputs(s, t, uploads);
    } else if op.RetryBlocked? {
      RetryBlockedNeverSucceeds(cfg, s, env, op.jobId);
    } else if op.Acknowledge? {
      AcknowledgingIsQuiet(cfg, s, env, op.token, op.jobId, op.leaseId, op.fencingToken);
      QuietKeepsOutputs(s, t, uploads);
    } else if op.Heartbeat? {
      HeartbeatIsQuiet(cfg, s, env, op.token, op.jobId, op.leaseId, op.fencingToken, op.ttl);
      QuietKeepsOutputs(s, t, uploads);
    } else if op.Fail? {
      FailingIsQuiet(cfg, s, env, op.token, op.jobId, op.leaseId, op.fencingToken, op.reason);
      QuietKeepsOutputs(s, t, uploads);
    } else {
      AdministrationIsQuiet(cfg, before, s, env, op);
      QuietKeepsOutputs(s, t, uploads);
    }
  }

  lemma StepKeepsOutputs(cfg: Config, w: World, e: Event)
    requires WorldInv(cfg, w) && OutputsInv(w.store, w.uploads) && FreshEvent(w, e)
    ensures OutputsInv(Next(cfg, w, e).store, Next(cfg, w, e).uploads)
  {
    match RequestOf(w, e)
    case None =>
    case Some((env, op)) => ServeKeepsOutputs(cfg, w, env, op);
  }

  lemma {:induction false} WorldsKeepOutputs(cfg: Config, w: World, events: seq<Event>)
    requires WorldInv(cfg, w) && OutputsInv(w.store, w.uploads) && FreshEvents(cfg, w, events)
    ensures OutputsInv(Final(cfg, w, events).store, Final(cfg, w, events).uploads)
    decreases |events|
  {
    if events != [] {
      StepKeepsInv(cfg, w, events[0]);
      StepKeepsOutputs(cfg, w, events[0]);
      WorldsKeepOutputs(cfg, Next(cfg, w, events[0]), events[1..]);
    }
  }

  /** In every reachable world, every accepted result lists exactly the artifacts recorded under its
      own fencing token, and that token is dead. */
  lemma ResultsListTheirUploads(cfg: Config, events: seq<Event>, i: nat)
    requires FreshEvents(cfg, EMPTY_WORLD, events)
    requires var w := Final(cfg, EMPTY_WORLD, events);
             i < |w.store.jobs| && w.store.jobs[i].completion.Some?
    ensures var w := Final(cfg, EMPTY_WORLD, events);
            var e := w.store.jobs[i].completion.value.acceptance.evidence;
            SetOf(e.outputs) == Recorded(w.uploads, e.fencingToken) && Dead(w.store, e.fencingToken)
  {
    var w := Final(cfg, EMPTY_WORLD, events);
    WorldsKeepOutputs(cfg, EMPTY_WORLD, events);
    assert ResultOutputsOk(w.store, w.store.jobs[i], w.uploads);
  }

  /** The job is running under the lease, token and worker the evidence names. */
  ghost predicate FromHolder(a: Job, e: Evidence) {
    && a.state == Running && a.lease.Some? && a.lease.value.id == e.leaseId
    && a.lease.value.fencingToken == e.fencingToken && a.lease.value.workerId == e.workerId
  }

  lemma QuietKeepsCompletion(s: Store, t: Store, i: nat)
    requires AllQuiet(s, t) && i < |s.jobs|
    ensures i < |t.jobs| && t.jobs[i].completion == s.jobs[i].completion
  {
    assert Quiet(s.jobs[i], t.jobs[i], s.nextFencingToken);
  }

  lemma RecordingKeepsCompletion(cfg: Config, s: Store, env: Env, token: Token, jobId: Id, leaseId: Id, fence: int,
                                 artifact: Id, i: nat)
    requires RecordOutputArtifact(cfg, s, env, token, jobId, leaseId, fence, artifact).Ok? && i < |s.jobs|
    ensures var t := RecordOutputArtifact(cfg, s, env, token, jobId, leaseId, fence, artifact).value.0;
            i < |t.jobs| && t.jobs[i].completion == s.jobs[i].completion
  {
  }

  lemma AcceptedFromHolder(cfg: Config, s: Store, env: Env, token: Token, e: Evidence, signature: string, i: nat)
    requires CompleteJob(cfg, s, env, token, e, signature).Ok? && i < |s.jobs|
    ensures var t := CompleteJob(cfg, s, env, token, e, signature).value.0;
            && i < |t.jobs|
            && (t.jobs[i].completion == s.jobs[i].completion
                || (t.jobs[i].completion.Some? && t.jobs[i].completion.value.acceptance.evidence == e
                    && FromHolder(s.jobs[i], e)))
  {
    var w := Authenticate(s, token, env.authAt).value;
    var k := MatchLease(cfg, s, s.workers[w].id, e.jobId, e.leaseId, e.fencingToken, env.matchAt).value;
  }

  lemma PerformFromHolder(cfg: Config, before: Store, s: Store, env: Env, op: Op, i: nat)
    requires Inv(cfg, s) && Perform(cfg, before, s, env, op).Ok? && i < |s.jobs|
    ensures var t := Perform(cfg, before, s, env, op).value.0;
            && i < |t.jobs|
            && (t.jobs[i].completion == s.jobs[i].completion
                || (t.jobs[i].completion.Some? && FromHolder(s.jobs[i],
                                                             t.jobs[i].completion.value.acceptance.evidence)))
  {
    hide Inv;
    hide AllQuiet;
    hide FromHolder;
    hide CompleteJob;
    hide RecordOutputArtifact;
    hide LeaseJob;
    hide AcknowledgeJob;
    hide HeartbeatJob;
    hide FailJob;
    var t := Perform(cfg, before, s, env, op).value.0;
    if op.RecordOutput? {
      RecordingKeepsCompletion(cfg, s, env, op.token, op.jobId, op.leaseId, op.fencingToken, op.artifactId, i);
    } else if op.Complete? {
      AcceptedFromHolder(cfg, s, env, op.token, op.evidence, op.signature, i);
    } else if op.RetryBlocked? {
      RetryBlockedNeverSucceeds(cfg, s, env, op.jobId);
    } else {
      if op.LeaseNext? {
        LeasingIsQuiet(cfg, s, env, op.token, op.ttl, op.freshLeaseId);
      } else if op.Acknowledge? {
        AcknowledgingIsQuiet(cfg, s, env, op.token, op.jobId, op.leaseId, op.fencingToken);
      } else if op.Heartbeat? {
        HeartbeatIsQuiet(cfg, s, env, op.token, op.jobId, op.leaseId, op.fencingToken, op.ttl);
      } else if op.Fail? {
        FailingIsQuiet(cfg, s, env, op.token, op.jobId, op.leaseId, op.fencingToken, op.reason);
      } else {
        AdministrationIsQuiet(cfg, before, s, env, op);
      }
      QuietKeepsCompletion(s, t, i);
    }
  }

  /** Completion integrity at its source: whatever request made a result appear on a job, the job was
      then running under the very lease the result names, held by the worker the result names. */
  lemma ResultsComeFromHolders(cfg: Config, s: Store, env: Env, op: Op, i: nat)
    requires Inv(cfg, s) && i < |s.jobs|
    ensures var t := Mutate(cfg, s, env, op).0;
            && i < |t.jobs|
            && (t.jobs[i].completion == s.jobs[i].completion
                || (t.jobs[i].completion.Some? && FromHolder(s.jobs[i],
                                                             t.jobs[i].completion.value.acceptance.evidence)))
  {
    hide Inv;
    hide Perform;
    var r := Recovered(s, env.recoverAt);
    RecoveryKeepsInv(cfg, s, env.recoverAt);
    if Mutate(cfg, s, env, op).1.Ok? { PerformFromHolder(cfg, s, r, env, op, i); }
    HolderBeforeRecovery(s, env.recoverAt, i);
  }

  lemma HolderBeforeRecovery(s: Store, now: int, i: nat)
    requires i < |s.jobs|
    ensures i < |Recovered(s, now).jobs| && Recovered(s, now).jobs[i].completion == s.jobs[i].completion
    ensures forall e :: FromHolder(Recovered(s, now).jobs[i], e) ==> FromHolder(s.jobs[i], e)
  {
  }
}
