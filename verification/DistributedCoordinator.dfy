/** The coordinator object: one saved store, changed only by whole transactions. */
module DistributedCoordinatorClass {
  import opened Prelude
  import opened CoordinatorTypes
  import opened Coordinator
  import opened CoordinatorInvariant
  import opened CoordinatorRuns

  /** The recovery loop: expire every overdue lease, collecting what was requeued and what was blocked. */
  method RecoverInStore(s: Store, now: int) returns (t: Store, requeued: seq<Id>, blocked: seq<Id>)
    ensures t == Recovered(s, now)
    ensures requeued == RecoveredIds(s.jobs, now, Queued)
    ensures blocked == RecoveredIds(s.jobs, now, Blocked)
  {
    var jobs := s.jobs;
    requeued, blocked := [], [];
    for i := 0 to |jobs|
      invariant |jobs| == |s.jobs|
      invariant forall k :: 0 <= k < i ==> jobs[k] == RecoverJob(s.jobs[k], now)
      invariant forall k :: i <= k < |jobs| ==> jobs[k] == s.jobs[k]
      invariant requeued == RecoveredIds(s.jobs[..i], now, Queued)
      invariant blocked == RecoveredIds(s.jobs[..i], now, Blocked)
    {
      assert s.jobs[..i + 1][..i] == s.jobs[..i];
      if Expired(jobs[i], now) {
        var job := ExpireLease(jobs[i], now, LeaseExpired);
        jobs := jobs[i := job];
        if job.state == Queued { requeued := requeued + [job.id]; }
        if job.state == Blocked { blocked := blocked + [job.id]; }
      }
    }
    assert s.jobs[..|s.jobs|] == s.jobs;
    t := s.(jobs := jobs);
  }

  /** The revocation loop: expire every lease the worker holds. */
  method ReleaseWorker(jobs: seq<Job>, workerId: Id, now: int) returns (released: seq<Job>)
    ensures released == ReleasedAll(jobs, workerId, now)
  {
    released := jobs;
    for i := 0 to |jobs|
      invariant |released| == |jobs|
      invariant forall k :: 0 <= k < i ==> released[k] == ReleaseFrom(jobs[k], workerId, now)
      invariant forall k :: i <= k < |jobs| ==> released[k] == jobs[k]
    {
      if HeldBy(released[i], workerId) {
        released := released[i := ExpireLease(released[i], now, WorkerRevoked)];
      }
    }
  }

  class DistributedCoordinator {
    const cfg: Config
    /** The contents of the store file. */
    var saved: Store

    ghost predicate Valid()
      reads this
    {
      Inv(cfg, saved)
    }

    constructor (cfg: Config)
      ensures this.cfg == cfg && saved == EMPTY_STORE && Valid()
    {
      this.cfg := cfg;
      this.saved := EMPTY_STORE;
    }

    /** Load, recover, run the operation, save. An error returns before the save. */
    method Transact(env: Env, op: Op) returns (r: Result<Reply, Fault>)
      requires Valid() && Fresh(saved, op)
      modifies this
      ensures (saved, r) == Mutate(cfg, old(saved), env, op)
      ensures Valid() && Advances(old(saved), saved)
      ensures r.Err? ==> saved == old(saved)
    {
      MutateKeepsInv(cfg, saved, env, op);
      var store, requeued, blocked := RecoverInStore(saved, env.recoverAt);
      if op.Revoke? {
        r := RevokeLoaded(store, env, op.workerId, op.reason);
      } else if op.Recover? {
        saved := store;
        r := Ok(RecoverReply(requeued, blocked));
      } else {
        var outcome := Perform(cfg, saved, store, env, op);
        match outcome
        case Ok((next, reply)) =>
          saved := next;
          r := Ok(reply);
        case Err(fault) =>
          r := Err(fault);
      }
    }

    /** Revocation on a loaded and recovered store: the worker record first, then its leases. */
    method RevokeLoaded(store: Store, env: Env, workerId: Id, reason: string) returns (r: Result<Reply, Fault>)
      modifies this
      ensures match RevokeWorker(cfg, store, env, workerId, reason)
              case Ok((next, reply)) => saved == next && r == Ok(reply)
              case Err(fault) => saved == old(saved) && r == Err(fault)
    {
      if !cfg.matches(WorkerId, workerId) { return Err(InvalidInput); }
      var index := WorkerIndex(store, workerId);
      if index.None? { return Err(WorkerNotFound); }
      var text := cfg.bounded(reason, 512);
      if text.None? { return Err(InvalidInput); }
      var w := index.value;
      var worker := store.workers[w].(state := Revoked, revokedAt := Some(env.now), revokeReason := text,
                                      updatedAt := env.now, activeTokenId := None, tokenExpiresAt := None);
      var jobs := ReleaseWorker(store.jobs, workerId, env.now);
      saved := Store(store.nextFencingToken, store.workers[w := worker], jobs);
      r := Ok(WorkerReply(worker));
    }
  }
}
