/** The records of the lease/fencing coordinator and the requests it serves. */
module CoordinatorTypes {
  import opened Prelude

  type Id = string

  datatype ReplayPolicy = Idempotent | NoReplay

  datatype JobState = Queued | Leased | Running | Completed | Failed | Blocked | Cancelled

  datatype WorkerState = Active | Revoked

  datatype BlockReason = LeaseExpired | WorkerRevoked

  datatype SandboxMode = ProcessMode | DockerMode | PodmanMode | RemoteMode | UnknownMode

  datatype Sandbox = Sandbox(mode: SandboxMode, policyDigest: string, imageDigest: Option<string>)

  datatype Evidence = Evidence(
    schemaVersion: int, jobId: Id, leaseId: Id, fencingToken: int, workerId: Id,
    tool: string, argsDigest: string, resultDigest: string, resultOk: bool,
    resultSummary: Option<string>, inputs: seq<Id>, outputs: seq<Id>,
    sandbox: Sandbox, completedAt: int)

  /** What the coordinator countersigns when it accepts a result. */
  datatype Acceptance = Acceptance(evidence: Evidence, workerSignature: string, acceptedAt: int)

  datatype Completion = Completion(acceptance: Acceptance, coordinatorSignature: string)

  datatype Lease = Lease(
    id: Id, workerId: Id, tokenId: Id, fencingToken: nat, issuedAt: int, expiresAt: int,
    acknowledgedAt: Option<int>, lastHeartbeatAt: Option<int>)

  datatype Worker = Worker(
    id: Id, name: string, capabilities: set<string>, publicKey: string, fingerprint: string,
    state: WorkerState, createdAt: int, updatedAt: int,
    activeTokenId: Option<Id>, tokenExpiresAt: Option<int>, lastSeenAt: Option<int>,
    revokedAt: Option<int>, revokeReason: Option<string>)

  datatype Job = Job(
    id: Id, idempotencyKey: string, tool: string, argsDigest: string, payloadDigest: string,
    payload: string, inputs: seq<Id>, required: set<string>, policy: ReplayPolicy,
    state: JobState, attempts: nat, createdAt: int, updatedAt: int,
    lease: Option<Lease>, leaseOutputs: Option<set<Id>>,
    completedAt: Option<int>, failure: Option<string>, blockedReason: Option<BlockReason>,
    completion: Option<Completion>)

  datatype Store = Store(nextFencingToken: nat, workers: seq<Worker>, jobs: seq<Job>)

  /** A bearer token after decoding; `Unreadable` stands for a bad format, signature or claim set.
      No unforgeability is assumed: the safety results hold for every claim set. */
  datatype Token = Unreadable | Claims(workerId: Id, tokenId: Id, expiresAt: int)

  datatype Format = WorkerId | JobId | ArtifactId | Digest | ImageDigest | Capability | ToolName | Ed25519Key

  /** The fixed surroundings of one coordinator: its limits, the text validators, SHA-256 and the
      signature schemes, all as uninterpreted functions. */
  datatype Config = Config(
    maxQueuedJobs: nat, maxTokenTtl: int, maxLeaseTtl: int,
    matches: (Format, string) -> bool,
    bounded: (string, nat) -> Option<string>,
    trim: string -> string,
    byteLength: string -> nat,
    sha256: string -> string,
    fingerprint: string -> string,
    ordered: set<Id> -> seq<Id>,
    workerVerifies: (string, Evidence, string) -> bool,
    seal: Acceptance -> string,
    sealVerifies: (Acceptance, string) -> bool)

  /** What one request sees of the outside: the successive clock readings (recovery, token check,
      lease check, effect), which need not be ordered, and the artifacts that exist. */
  datatype Env = Env(recoverAt: int, authAt: int, matchAt: int, now: int, artifacts: set<Id>)

  datatype JobSpec = JobSpec(
    tool: string, argsText: string, payloadText: string, idempotencyKey: Option<string>,
    policy: ReplayPolicy, required: seq<string>, inputs: seq<Id>)

  /** One public operation. Random identifiers drawn by the operation are parameters (`fresh…`). */
  datatype Op =
    | Register(name: string, capabilities: seq<string>, publicKey: string,
               ttl: int, freshId: Id, freshTokenId: Id)
    | Rotate(workerId: Id, ttl: int, freshTokenId: Id)
    | Revoke(workerId: Id, reason: string)
    | Submit(spec: JobSpec, freshId: Id)
    | LeaseNext(token: Token, ttl: int, freshLeaseId: Id)
    | Acknowledge(token: Token, jobId: Id, leaseId: Id, fencingToken: int)
    | Heartbeat(token: Token, jobId: Id, leaseId: Id, fencingToken: int, ttl: int)
    | RecordOutput(token: Token, jobId: Id, leaseId: Id, fencingToken: int, artifactId: Id)
    | Complete(token: Token, evidence: Evidence, signature: string)
    | Fail(token: Token, jobId: Id, leaseId: Id, fencingToken: int, reason: string)
    | Cancel(jobId: Id, reason: string)
    | RetryBlocked(jobId: Id)
    | Recover

  datatype Fault =
    | InvalidInput | KeyInUse | WorkerNotFound | JobNotFound | WorkerIsRevoked
    | PayloadMismatch | QuotaReached | BadToken | TokenRotated | TokenExpired
    | NoLease | StaleLease | ExpiredLease | WrongState | EvidenceMismatch
    | BadSignature | ClockSkew | NotIdempotent

  datatype Reply =
    | WorkerReply(worker: Worker)
    | JobReply(job: Job)
    | SubmitReply(submitted: Job, duplicate: bool)
    | LeaseReply(leased: Option<Job>)
    | RecoverReply(requeued: seq<Id>, blocked: seq<Id>)

  const MAX_ARGS_BYTES: nat := 256000
  const MAX_CAPABILITIES: nat := 32
  const MAX_ARTIFACTS: nat := 64
  const CLOCK_SKEW: int := 300000
  const DEFAULT_FAILURE: string := "Remote worker reported a failed result."
  const AUTO_KEY_PREFIX: string := "auto:"

  predicate Holding(state: JobState) { state == Leased || state == Running }

  predicate Terminal(state: JobState) { state == Completed || state == Failed || state == Cancelled }

  const EMPTY_STORE := Store(0, [], [])
}
