# FolderForge: a machine-checked model of its protocol cores

FolderForge is a local-first MCP server. This project models the parts of it that are protocols and
state machines, and proves what they promise, in Dafny 4.11:

- **Distributed work.** The lease/fencing coordinator, and any number of remote workers that lease,
  acknowledge, execute, upload and complete, with crashes, lost replies, expiry, revocation, stale
  tokens and retries (`Coordinator*.dfy`, `DistributedCoordinator.dfy`, `Worker*.dfy`).
- **The audit log.** JSON text and canonical JSON, the hash-chain verifier, the appending file store
  with its cached tail, rotation and crash repair, and the import of legacy logs (`Json*.dfy`,
  `CanonicalJson.dfy`, `Audit*.dfy`, `FileAuditStore.dfy`).
- **LSP framing.** The encoder and the incremental decoder (`Lsp*.dfy`).
- **Agent loops.** The run state machine, council voting, the event log and the driver
  (`AgentLoop*.dfy`).
- **Policy.** The glob-to-regular-expression compiler (`RegexFragment.dfy`, `Glob*.dfy`), workspace
  capsules (`Capsules.dfy`, `CapsuleProof.dfy`, `CapsuleEffects.dfy`) and the bandwidth shaper (`Bandwidth.dfy`).

`dafny verify dfyconfig.toml` checks everything.

Each transition is a function on values and each loop or object of the program is a method or class
whose postcondition equates its new state with that function; the theorems are about the functions
and hold for all inputs, all runs or all reachable states. What the program takes from outside
(clock readings, random identifiers, signatures, hashes, replies of tools, how far a write gets) is a
parameter of the step that uses it.

## Findings

Places where the code does not meet a promise on all inputs. Each has a lemma giving the exact
condition, and most an example.

- `retryBlocked` can never succeed: a blocked job is always a no-replay job, and those are refused
  (`CoordinatorInvariant.RetryBlockedNeverSucceeds`).
- Canonical JSON sorts keys with `localeCompare`, under which different keys may tie. It ignores the
  order of an object's members exactly when no two of its keys tie
  (`CanonicalJson.OrderIgnoredIffUntied`).
- The audit log hashes an undefined member as null and then drops it when the record is written. An
  appended record is accepted exactly when its event has no undefined member anywhere and has its
  two strings (`AuditAppend.WrittenAcceptedIff`; the smallest rejected event:
  `AuditAppend.UndefinedNoteRejected`).
- An append does not refuse every file whose complete part fails to verify. Rotation comes before the
  integrity check, and a stat equal to the cached one skips it. Such a file is refused and left
  untouched exactly when repair itself throws on it, or it is within its size budget and the cache does
  not serve (its size and time differ from the cached ones, or the cached number has no successor). Over
  budget it is archived and a fresh chain begun; with a serving cache the record is written after the
  damage (`AuditRecovery.DamagedFileRefused`).
- A rotation keeps the older archives, and a repair the older quarantined tails, exactly when its stamp
  is new or names the same text (`AuditRecovery.RotationKeepsArchivesIff`,
  `AuditRecovery.RepairKeepsQuarantinesIff`).
- In a glob, `**` does not cross a line terminator. A value gets the documented answer from all globs
  without star or question mark inside braces exactly when it has no line terminator
  (`GlobMeaning.DocumentedIffOneLine`), and such a glob gives it for all values exactly when it has no
  `**` (`GlobMeaning.DocumentedIffNoDoubleStar`).
- A star or question mark inside braces is read as a regular-expression repetition. A brace list accepts
  exactly its alternatives iff it holds neither (`GlobMeaning.BracesLiteralIff`), and compiling a glob
  throws exactly when one of them has nothing to repeat, as in `{*.ts,*.js}` (`Glob.CompilesIff`).
- Capsule limits above the largest safe integer are accepted on creation and refused on loading
  (`CapsuleProof.UnsafeLimitBlocksReload`; exactly when: `CapsuleProof.ReloadIff`).

## Model

| member | source | states |
|---|---|---|
| `WorkerSystem.AtMostOnce` | src/distributed/worker-runtime.ts:177-299 | Over every interleaving of workers, crashes, lost replies, expiries, revocations and other clients' requests: executions have pairwise different fencing tokens, a job's tool is invoked at most `attempts` times, and a no-replay job's at most once. |
| `WorkerSystem.StepKeepsInv` | src/distributed/worker-runtime.ts:185-233 | Every event of the whole system keeps: each execution used its own acknowledged permit, permits of one job have different tokens, and an acknowledged no-replay job is never offered again. |
| `WorkerProgress.IterationFinishes` | src/distributed/worker-runtime.ts:185-281 | Progress: from any sound world with an idle process, an active worker that holds nothing, a job it can run and all clocks before every expiry, the five events of one iteration end the oldest such job completed (failed if the tool failed), run once more, its upload recorded under the new token. |
| `WorkerProgress.RunsGrowIff` | src/distributed/worker-runtime.ts:222-233 | The tool is run exactly when a cleared process executes, once, under that process's permit. |
| `WorkerProgress.CrashForgets` | src/distributed/worker-runtime.ts:185-233 | A crash changes nothing but the process, and until it takes a lease again none of its events does anything. |
| `WorkerProgress.FailureStep` | src/distributed/worker-runtime.ts:282-293 | A working process that reports a failure leaves its job failed with that reason and without a lease. |
| `WorkerProgress.HeartbeatStep` | src/distributed/worker-runtime.ts:197-208 | A working process's heartbeat moves its lease's end and interrupts nothing. |
| `WorkerOutputs.ResultsListTheirUploads` | src/distributed/coordinator.ts:578-598 | In every reachable world an accepted result lists exactly the artifacts uploaded under its own fencing token, and that token is dead. |
| `WorkerOutputs.ResultsComeFromHolders` | src/distributed/coordinator.ts:506-568 | Whatever request makes a result appear on a job, the job was then running under the lease, token and worker that the result names; no other request adds or changes a result. |
| `CoordinatorInvariant.MutateKeepsInv` | src/distributed/coordinator.ts:943-952 | Every operation, successful or not, keeps the whole-store invariant: lease iff leased or running, one lease per worker, active and capable holders, distinct keys, distinct active fingerprints, quota, attempts summing to the fencing counter; and no finished or committed record is ever reopened. |
| `CoordinatorInvariant.RecoveryKeepsInv` | src/distributed/coordinator.ts:803-830 | Expiring overdue leases keeps the invariant, never grants anything, and blocks rather than requeues an acknowledged no-replay job. |
| `CoordinatorEffects.RecoveryExactly` | src/distributed/coordinator.ts:803-830 | Recovery changes a job iff its lease has run out; then the job has no lease, is queued if idempotent or never acknowledged and blocked otherwise, and keeps everything else. |
| `CoordinatorEffects.RecoveredListsAre` | src/distributed/coordinator.ts:803-814 | The two lists of a recovery name exactly those jobs, in store order. |
| `CoordinatorEffects.AuthenticateIff` | src/distributed/coordinator.ts:757-780 | A token authenticates a worker iff it names that active worker and the token it holds now, and has not run out. |
| `CoordinatorEffects.AuthorizeIff` | src/distributed/coordinator.ts:570-576 | A request is authorised for a job iff, besides, that worker holds it under this lease and fencing token and the lease has not run out. |
| `CoordinatorEffects.OnlyAdmittedServed` | src/distributed/coordinator.ts:782-801 | No acknowledgement, heartbeat, artifact record, completion or failure succeeds without that, and no lease is granted without a token so presented. |
| `CoordinatorEffects.AcknowledgeExactly` | src/distributed/coordinator.ts:474-488 | Acknowledging succeeds iff the job is leased, and makes it running with the time on its lease; nothing else changes but when the worker was seen. |
| `CoordinatorEffects.HeartbeatExactly` | src/distributed/coordinator.ts:490-504 | A heartbeat succeeds iff its span is in range, and moves the lease's end to that long after now. |
| `CoordinatorEffects.RecordExactly` | src/distributed/coordinator.ts:578-598 | An artifact is recorded iff it exists and there is room, and is then added to the lease's outputs. |
| `CoordinatorEffects.FailExactly` | src/distributed/coordinator.ts:600-612 | Failing ends the job failed, with the reason and without lease or outputs. |
| `CoordinatorEffects.CompleteExactly` | src/distributed/coordinator.ts:506-568 | A result is accepted iff it is well formed, names the job, worker, inputs and exactly the recorded outputs, is signed by the worker and recent; it is then stored under the coordinator's seal in the state it reports. |
| `CoordinatorAdmin.EvidenceIff` | src/distributed/coordinator.ts:710-732 | Evidence is well formed iff each of its parts is, with artifacts that exist. |
| `CoordinatorAdmin.RegisterExactly` | src/distributed/coordinator.ts:316-346 | Registering succeeds iff the data are valid and no active worker has the key; one active worker is added, with the token drawn. |
| `CoordinatorAdmin.RotateExactly` | src/distributed/coordinator.ts:348-357 | Rotating succeeds iff the worker is active, and replaces its token and end only. |
| `CoordinatorAdmin.RevokeExactly` | src/distributed/coordinator.ts:359-376 | Revoking leaves the worker revoked and without a token, and gives up exactly the jobs it held, as recovery does. |
| `CoordinatorAdmin.RevokedForGood` | src/distributed/coordinator.ts:359-376 | In every later store a revoked worker holds no job and every request in its name fails without effect. |
| `CoordinatorAdmin.ReplacedTokenRefused` | src/distributed/coordinator.ts:734-780 | A token that no worker holds any more fails in every later store, as long as it is not drawn again. |
| `CoordinatorAdmin.HeartbeatHolds` | src/distributed/coordinator.ts:490-504 | After a heartbeat the lease lasts exactly until the end it set: a later request's recovery leaves it before, and takes it from then on. |
| `CoordinatorAdmin.SubmitNewExactly` | src/distributed/coordinator.ts:382-438 | A valid job under a new key is accepted iff the quota has room, and is queued without attempt, lease or result. |
| `CoordinatorAdmin.SubmitAgainExactly` | src/distributed/coordinator.ts:410-416 | Under a known key nothing changes: the known job is returned iff the payload is the same. |
| `CoordinatorAdmin.SubmitBadRefused` | src/distributed/coordinator.ts:390-408 | A malformed job is refused as invalid. |
| `CoordinatorAdmin.OpenCountIs` | src/distributed/coordinator.ts:417-418 | The quota counts the jobs that are not completed, failed or cancelled. |
| `CoordinatorAdmin.LeaseExactly` | src/distributed/coordinator.ts:440-472 | A worker that holds nothing gets the oldest job it can run, under the next fencing token and for the span asked, and nothing else changes. |
| `CoordinatorAdmin.LeaseAnsweredIff` | src/distributed/coordinator.ts:440-447 | A lease request is answered iff the token is presented and the span is in range. |
| `CoordinatorAdmin.LeaseWithoutGrant` | src/distributed/coordinator.ts:448-459 | A worker that holds a job is given it again as it is, and one for which none is eligible gets none; only when it was seen changes. |
| `CoordinatorAdmin.CancelExactly` | src/distributed/coordinator.ts:614-627 | Cancelling leaves a finished job as it is and ends any other cancelled, with the reason and without a lease. |
| `CoordinatorAdmin.VerifyExactly` | src/distributed/coordinator.ts:663-687 | Verification answers no without a result, and otherwise with the two signature checks. |
| `CoordinatorInvariant.GrantKeepsInv` | src/distributed/coordinator.ts:440-472 | Granting a lease, the one step that raises the fencing counter, keeps the invariant. |
| `CoordinatorInvariant.CompleteKeepsInv` | src/distributed/coordinator.ts:506-568 | Accepting a result keeps the invariant, including that the stored completion is about this job, signed by a known worker and sealed. |
| `CoordinatorInvariant.RevokeKeepsInv` | src/distributed/coordinator.ts:359-376 | Revoking a worker ends all its leases and keeps the invariant. |
| `CoordinatorInvariant.RetryBlockedNeverSucceeds` | src/distributed/coordinator.ts:629-641 | In every store satisfying the invariant, retrying a blocked job fails. |
| `CoordinatorRuns.ReachableInv` | src/distributed/coordinator.ts:316-641 | The invariant holds after every sequence of requests from the empty store, for every clock behaviour. |
| `CoordinatorRuns.EndedLeaseIsFenced` | src/distributed/coordinator.ts:782-801 | Once no lease carries a token, no acknowledgement, heartbeat, artifact record, completion or failure with it succeeds or changes the store, after any further requests. |
| `CoordinatorRuns.NewLeaseOutranks` | src/distributed/coordinator.ts:440-472 | A newly granted lease carries a token above every token issued so far and counts an attempt. |
| `CoordinatorRuns.GrantServesOldest` | src/distributed/coordinator.ts:440-472 | A lease request gives the job already held; else the oldest eligible job under the next token; else nothing, and then no job is eligible. |
| `CoordinatorRuns.TerminalIsFrozen` | src/distributed/coordinator.ts:614-641 | A completed, failed or cancelled record is identical in every later store. |
| `CoordinatorRuns.CompletedIffProven` | src/distributed/coordinator.ts:506-568 | In every reachable store a job is completed iff it carries accepted evidence with `resultOk`, and that evidence names the job, its tool, its arguments' digest and its inputs. |
| `CoordinatorRuns.CompletionVerifiesForever` | src/distributed/coordinator.ts:663-687 | An accepted result verifies, on both signatures, in every later store, also after its worker was revoked. |
| `DistributedCoordinatorClass.RecoverInStore` | src/distributed/coordinator.ts:803-814 | The recovery loop gives the recovered store and lists exactly the requeued and the blocked jobs in order. |
| `DistributedCoordinatorClass.ReleaseWorker` | src/distributed/coordinator.ts:359-376 | The revocation loop expires exactly the leases of the revoked worker. |
| `DistributedCoordinatorClass.DistributedCoordinator.Transact` | src/distributed/coordinator.ts:943-952 | Load, recover, operate, save: the saved store and reply are the specified ones, the invariant is kept, and an error leaves the saved store unchanged. |
| `DistributedCoordinatorClass.DistributedCoordinator.RevokeLoaded` | src/distributed/coordinator.ts:359-376 | Revocation on a loaded store saves the specified store, or nothing on an error. |
| `LspProtocol.ChunkInvariance` | src/lsp/protocol.ts:60-97 | However a byte stream is cut into chunks, the delivered messages and the leftover are those of the whole stream at once. |
| `LspProtocol.DrainSplits` | src/lsp/protocol.ts:67-97 | Draining `a + b` is draining `a`, then draining its leftover followed by `b`. |
| `LspProtocol.RoundTrip` | src/lsp/protocol.ts:42-46 | The encodings of any messages, cut anywhere, decode to exactly those messages with nothing left. |
| `LspProtocol.HeaderRoundTrip` | src/lsp/protocol.ts:101-110 | The decimal length the encoder writes is read back as that length. |
| `LspProtocol.Resync` | src/lsp/protocol.ts:69-96 | A malformed header block ended by the separator affects no frame before or after it. |
| `LspHeaders.MatchLineIff` | src/lsp/protocol.ts:101-107 | A header line gives a length iff it is the field name in any case, blanks, decimal digits, blanks. |
| `LspHeaders.FirstLengthIs` | src/lsp/protocol.ts:101-110 | The first line that gives a length decides, whatever stands before or after it; a number too large is none. |
| `LspHeaders.AnyHeaderDelivers` | src/lsp/protocol.ts:67-97 | A frame with any other header fields before or after its length, however spelled, is delivered and decoding goes on behind it. |
| `LspHeaders.LengthlessDropped` | src/lsp/protocol.ts:76-81 | A block of header lines none of which gives a length is dropped with its separator. |
| `LspProtocol.MessageBuffer.Append` | src/lsp/protocol.ts:60-65 | Appending a chunk delivers and leaves what draining buffer plus chunk does. |
| `LspProtocol.MessageBuffer.Drain` | src/lsp/protocol.ts:67-97 | The drain loop terminates (the buffer shrinks) and delivers exactly the specified messages. |
| `JsonText.ReadsBack` | src/evidence/audit-chain.ts:28-37 | Unique reading of JSON text: two texts that agree up to what may follow a value come from the same value. |
| `JsonReader.TextRoundTrip` | src/evidence/file-audit-store.ts:157 | A reader written from the JSON grammar reads back every printed value. |
| `CanonicalJson.CanonicalDecidesEquality` | src/evidence/audit-chain.ts:28-37 | On values whose keys do not tie, canonical texts are equal iff the values are equal up to the order of members, at every depth: insensitive to order, and injective. |
| `CanonicalJson.CanonicalInOrder` | src/evidence/audit-chain.ts:28-37 | The canonical text is the text of the same value with the members of every object in key order. |
| `CanonicalJson.OrderIgnoredIffUntied` | src/evidence/audit-chain.ts:28-37 | Every reordering of an object, whatever values it holds, has the same canonical text iff no two of its keys compare equal. |
| `CanonicalJson.DroppingSurvivesRoundTrip` | src/distributed/coordinator.ts:177-188 | The coordinator's canonical text is unchanged by stringify-then-parse, for all values. |
| `CanonicalJson.CanonicalSurvivesRoundTripIff` | src/evidence/audit-chain.ts:28-37 | The audit log's canonical text is unchanged by stringify-then-parse iff no object in the value has an undefined member. |
| `AuditChain.ParseAuditChain` | src/evidence/audit-chain.ts:101-236 | The verifier loop, which resumes from each bad record, gives the specified report, or none where a bare null line makes it throw. |
| `AuditChain.CheckRecord` | src/evidence/audit-chain.ts:153-219 | The checks on one schema-valid record give the specified issues and counters, in order. |
| `AuditProof.VerifierIff` | src/evidence/audit-chain.ts:101-236 | The report is ok iff the text is complete and its records are numbered by position, linked, correctly hashed and, where the key is known, correctly signed; its head and count are then those of the chain. |
| `AuditReport.ReportMeaning` | src/evidence/audit-chain.ts:101-236 | An issue with a line and a code is reported iff that line has that defect, relative to the last conforming record before it (or the text is incomplete); the counters are the numbers of conforming, signed, verified and unverifiable records. |
| `AuditReport.VerifierThrowsIff` | src/evidence/audit-chain.ts:122-143 | The verifier throws iff some line is a bare null. |
| `AuditReport.SplitIs` | src/evidence/audit-chain.ts:121 | Splitting gives back the lines a text was put together from, with LF or CR LF after each, and what follows the last. |
| `AuditProof.HeadDeterminesLog` | src/evidence/audit-chain.ts:49-57 | With a collision-free hash, accepted chains with equal head hash have equally many records with equal events and sources, up to member order. |
| `AuditAppend.WrittenAccepted` | src/evidence/audit-chain.ts:69-99 | A well-shaped event without undefined members, written after an accepted text with the next number and link, gives an accepted text with exactly one record more and that record's hash as head. |
| `AuditAppend.WrittenAcceptedIff` | src/evidence/file-audit-store.ts:144-174 | With a collision-free hash that condition is exact. |
| `AuditAppend.UndefinedNoteRejected` | src/evidence/audit-chain.ts:36 | After any accepted text, the record of an event with its two strings and one undefined member is rejected. |
| `AuditEffects.WrittenSignature` | src/evidence/audit-chain.ts:86-98 | A written record is signed iff there was a signer; it then names the signer's key and verifies under it. |
| `AuditAppend.WrittenLine` | src/evidence/file-audit-store.ts:157 | A printed record is one line, so writing it and a newline adds exactly one record to the text's lines. |
| `AuditAppend.IdealHost` | src/evidence/audit-chain.ts:116-128 | The assumptions about parsing and hashing can all be met together. |
| `AuditRecovery.RepairRecovers` | src/evidence/file-audit-store.ts:265-356 | A repair that ends leaves a verifying file with every complete record in order and one linked marker, the torn text quarantined, other files untouched; any second repair changes nothing. |
| `AuditRecovery.RepairOfTorn` | src/evidence/file-audit-store.ts:265-356 | On a torn file whose complete part verifies, repair ends exactly when it is not cut off and the marker can be numbered; until then the live file is unchanged. |
| `AuditRecovery.StoppedRepairLosesNothing` | src/evidence/file-audit-store.ts:298-343 | A repair cut off at any point leaves the live file as it was. |
| `AuditRecovery.DamageUntouched` | src/evidence/file-audit-store.ts:287-291 | If the complete part does not verify, repair changes nothing at all. |
| `AuditRecovery.WriteLeaves` | src/evidence/file-audit-store.ts:367-388 | Wherever a write stops, the complete part of the file is the old text, or the old text and the whole record. |
| `AuditRecovery.DamagedFileRefused` | src/evidence/file-audit-store.ts:144-250 | A file whose complete part does not verify is refused, and then left untouched, iff repair throws on it, or it is within the size budget and the cache does not serve; otherwise it is archived unchanged, or the record is written after the damage. |
| `AuditRecovery.RotationKeepsArchivesIff` | src/evidence/file-audit-store.ts:235-250 | Rotation keeps every earlier archive iff its stamp is new or names the same text. |
| `AuditRecovery.RepairKeepsQuarantinesIff` | src/evidence/file-audit-store.ts:294-303 | A repair, wherever it stops, keeps every earlier quarantined text iff its stamp is new or names the same text. |
| `AuditRecovery.EveryCutReachable` | src/evidence/file-audit-store.ts:367-388 | For every number of characters of a record, some behaviour of the write call leaves exactly so many in the file, and the append ends iff all were written. |
| `AuditEffects.AppendLands` | src/evidence/file-audit-store.ts:144-174 | An append whose writes make progress lands: on an accepted file it ends with one record more, or over budget in a fresh chain with the old text archived whole; the result is accepted and the cache describes it. |
| `AuditEffects.RotationExactly` | src/evidence/file-audit-store.ts:235-250 | Exactly a file over the budget becomes the archive of the stamp, and nothing else changes. |
| `AuditEffects.MarkerSays` | src/evidence/file-audit-store.ts:303-320 | The repair marker gives the time, the quarantine file, the torn size and the hash it resumes from. |
| `AuditRuns.RunSound` | src/evidence/file-audit-store.ts:144-250 | For any number of instances taking turns, with crashes anywhere: the live file's complete part and every archive verify alone, archives in order followed by the live file hold exactly the logged events, and every cache is the tail of the file it was taken from. |
| `AuditRuns.CacheRefinesParse` | src/evidence/file-audit-store.ts:183-226 | In every reachable state the tail an instance reads, cached or not, is the tail of a full parse. |
| `AuditRuns.CrashRecovery` | src/evidence/file-audit-store.ts:265-356 | After any run, however cut off, a repair that ends leaves a verifying file showing every logged event in order, with a marker iff there was a torn tail, which is then quarantined. |
| `AuditRuns.TornTailsSurvive` | src/evidence/file-audit-store.ts:294-303 | A torn tail, once quarantined in any run, is kept through every continuation whose repairs use new stamps. |
| `FileAuditStoreClass.FileAuditStore.AppendRecord` | src/evidence/file-audit-store.ts:144-174 | Appending leaves the disk, cache and outcome of the specified repair, rotation, tail and write. |
| `FileAuditStoreClass.FileAuditStore.RepairTornTail` | src/evidence/file-audit-store.ts:265-356 | Disk, cache and outcome are the specified ones for every stopping point. |
| `FileAuditStoreClass.FileAuditStore.ReadTailForAppend` | src/evidence/file-audit-store.ts:183-226 | Gives the specified tail or error; the cache changes only on a missing file or a successful parse. |
| `FileAuditStoreClass.FileAuditStore.RotateIfOversized` | src/evidence/file-audit-store.ts:235-250 | Exactly an oversized live file is moved to an archive, and then the cache is cleared. |
| `FileAuditStoreClass.FileAuditStore.WriteRequired` | src/evidence/file-audit-store.ts:367-388 | The write loop appends exactly the characters accepted before the first call without progress. |
| `AuditMigration.VerifyLegacyAuditLog` | src/evidence/migration.ts:20-59 | The loop gives the specified count and issue lines. |
| `AuditMigration.MigrateLegacyAuditLog` | src/evidence/migration.ts:61-98 | The loop gives the specified envelopes and text, or the specified error. |
| `AuditMigration.LegacyVerifierIff` | src/evidence/migration.ts:20-59 | A legacy log is reported ok iff it is complete and every record is an event, and then the count is the number of records. |
| `AuditMigration.LegacyIssuesAre` | src/evidence/migration.ts:20-59 | The reported lines are exactly those that hold no event, and the last if the log is incomplete; the digest is that of the whole text. |
| `AuditMigration.MigratedFrom` | src/evidence/migration.ts:77-91 | Every envelope holds one legacy event, numbered by its place, and names the digest of the whole log, the event's line in it and the time of migration. |
| `AuditMigration.MigrationAccepted` | src/evidence/migration.ts:61-98 | Migration succeeds exactly for such logs, and what it writes is an accepted chain showing the legacy events in order, one record each. |
| `AgentLoopInvariant.NextKeepsInv` | src/agent-loops/agent-loop-manager.ts:299-515 | Every call keeps: state and phase agree, a decision names a current proposal and meets both thresholds, verification implies a completed implementation, one vote per expert and iteration, newest events numbered consecutively up to the revision. |
| `AgentLoopInvariant.CreateInv` | src/agent-loops/agent-loop-manager.ts:177-235 | Every created run satisfies the invariant: at least two distinct experts of positive weight, quorum between 2 and their number, threshold in [0.5, 1], 1 to 100 iterations. |
| `AgentLoopEffects.CreateExactly` | src/agent-loops/agent-loop-manager.ts:177-235 | Creation succeeds iff there is a title, a criterion and two usable, distinctly named experts; the run then waits in discovery of iteration one with nothing proposed, voted or decided. |
| `AgentLoopEffects.CreateLimits` | src/agent-loops/agent-loop-manager.ts:221-223 | Quorum, threshold and iteration limit are what was asked, within their ranges, or the defaults. |
| `AgentLoopEffects.ExpertsAre` | src/agent-loops/agent-loop-manager.ts:193-202 | The experts are those offered, or the built-in ones, that have a name, a role and a positive weight. |
| `AgentLoopEffects.PermittedIff` | src/agent-loops/agent-loop-manager.ts:245-258 | Only an administrator, or the owner within the client, session and task the run is bound to, may touch it. |
| `AgentLoopEffects.ClaimExactly` | src/agent-loops/agent-loop-manager.ts:299-314 | The first key claims a run that has not ended; the same key changes nothing and another is refused. |
| `AgentLoopEffects.StartExactly` | src/agent-loops/agent-loop-manager.ts:316-326 | Starting makes any run that has not ended running, from discovery if it was paused, and changes no other field. |
| `AgentLoopEffects.PauseExactly` | src/agent-loops/agent-loop-manager.ts:328-336 | Pausing makes any run that has not ended paused, and changes no other field. |
| `AgentLoopEffects.CancelExactly` | src/agent-loops/agent-loop-manager.ts:338-347 | Cancelling makes any run that has not ended cancelled, changes no other field, and leaves an ended one. |
| `AgentLoopEffects.CancelledForGood` | src/agent-loops/agent-loop-manager.ts:338-347 | A cancelled run stays exactly so under every continuation. |
| `AgentLoopEffects.ErrorExactly` | src/agent-loops/agent-loop-manager.ts:349-358 | A runner's error pauses a run that has not ended and leaves one that has. |
| `AgentLoopEffects.ProposeExactly` | src/agent-loops/agent-loop-manager.ts:360-389 | A summarised proposal of an expert is taken in discovery or the council, at the end of the list, and ends discovery. |
| `AgentLoopEffects.VoteExactly` | src/agent-loops/agent-loop-manager.ts:391-412 | A vote is taken in the council from an expert for a current proposal with a score from 0 to 1, in place of that expert's earlier vote and no other. |
| `AgentLoopEffects.DecideExactly` | src/agent-loops/agent-loop-manager.ts:414-444 | Deciding succeeds iff there are proposals, a quorum of votes, and a leading rank that meets both thresholds; only decision and phase change. |
| `AgentLoopEffects.ImplementExactly` | src/agent-loops/agent-loop-manager.ts:446-459 | A report is taken in implementation: completed leads to verification, blocked pauses, running changes nothing else. |
| `AgentLoopEffects.VerifyExactly` | src/agent-loops/agent-loop-manager.ts:461-486 | A verification passes iff it says so with at least as many named criteria as the run has, all passed; it completes the run, or else begins the next iteration or fails the run at the last. |
| `AgentLoopInvariant.ReachableInv` | src/agent-loops/agent-loop-manager.ts:261-273 | In every reachable run the invariant holds and the goal gate is satisfied iff the run is completed. |
| `AgentLoopInvariant.TerminalForever` | src/agent-loops/agent-loop-manager.ts:299-358 | A completed, failed or cancelled run never changes, whatever is called. |
| `AgentLoopInvariant.DecisionIsBest` | src/agent-loops/agent-loop-manager.ts:414-444 | The decision is the rank of a current proposal; none has a higher consensus, or equal consensus and higher approval, or both equal and more votes; it beats every earlier one; the ranking is a sorted permutation, and thresholds and quorum are met. |
| `AgentLoopInvariant.QuorumIsDistinct` | src/agent-loops/agent-loop-manager.ts:391-420 | A decision rests on votes of at least the quorum of different experts. |
| `AgentLoopInvariant.ConsensusWithin` | src/agent-loops/agent-loop-manager.ts:421-436 | In every run satisfying the invariant, each proposal's consensus and approval rate lie in [0, 1]. |
| `AgentLoopRanks.RankMeans` | src/agent-loops/agent-loop-manager.ts:421-436 | A proposal's consensus is the weighted mean score, and its approval rate the share of approvals, over the experts whose current vote is for it, summed over the experts. |
| `AgentLoopInvariant.PagesCover` | src/agent-loops/agent-loop-manager.ts:287-297 | Reading events page by page from the last number seen misses and repeats nothing. |
| `AgentLoopInvariant.PageIs` | src/agent-loops/agent-loop-manager.ts:287-297 | A page is the next events after the cursor, as many as there are up to the size asked, and more is said iff some are left. |
| `AgentLoopCouncil.CouncilDecidesIff` | src/agent-loops/agent-loop-runner.ts:185-217 | The runner's council decides, for its own choice, iff 0.82 plus a tenth of the chosen proposer's share of the weight reaches the threshold: always up to 0.82. The quorum never fails. |
| `AgentLoopCouncil.FullBallot` | src/agent-loops/agent-loop-runner.ts:201-215 | After the runner's ballot the iteration's votes are one vote of each expert, all for its choice, whatever votes there were before. |
| `AgentLoopCouncil.ChoiceIsBest` | src/agent-loops/agent-loop-runner.ts:195-200 | The runner's choice has the highest sum of twice its evidence, its plan and its expert's weight less its risks, and a higher one than every earlier proposal. |
| `AgentLoopCouncil.DiscoverySucceeds` | src/agent-loops/agent-loop-runner.ts:156-183 | Discovery always ends in the council phase of the same iteration with one proposal more for each expert. |
| `AgentLoopCouncil.DiscoveryProposes` | src/agent-loops/agent-loop-runner.ts:174-183 | It proposes for every expert in order, in the current iteration, with the evidence gathered. |
| `AgentLoopRunnerClass.VerificationOutcome` | src/agent-loops/agent-loop-runner.ts:304-405 | The runner's verification completes the run iff the verification passed, fails it iff not and at the last iteration, and otherwise starts the next iteration. |
| `AgentLoopRunnerClass.AgentLoopManager.CreateRun` | src/agent-loops/agent-loop-manager.ts:177-235 | Stores the created run, which satisfies the invariant, or changes nothing. |
| `AgentLoopRunnerClass.AgentLoopManager.Perform` | src/agent-loops/agent-loop-manager.ts:237-259 | An unknown or forbidden run is refused and unchanged; otherwise the stored run takes exactly the specified transition. |
| `AgentLoopRunnerClass.AgentLoopRunner.DiscoveryTurn` | src/agent-loops/agent-loop-runner.ts:156-183 | The loop over experts stores the run with all their proposals. |
| `AgentLoopRunnerClass.AgentLoopRunner.CouncilTurn` | src/agent-loops/agent-loop-runner.ts:185-217 | The loop over experts and the decision store the specified run; when the decision or a tool fails, the votes already cast stay stored. |
| `AgentLoopRunnerClass.TurnProgress` | src/agent-loops/agent-loop-runner.ts:129-147 | Every turn, whatever tools answer, keeps the invariant and lowers the measure (remaining iterations, phases to come), or fails leaving the run running. |
| `AgentLoopRunnerClass.AgentLoopRunner.TakeTurn` | src/agent-loops/agent-loop-runner.ts:129-147 | One pass of the loop body stores the specified run and changes no other. |
| `AgentLoopRunnerClass.DriverTerminates` | src/agent-loops/agent-loop-runner.ts:107-154 | For every run and everything tools and clients may answer, the driver ends after at most 4 * (maxIterations - iteration + 1) turns with the run paused, completed, failed or as terminal as it was, satisfying the invariant and within its iteration limit. |
| `AgentLoopDriver.DriverCompletes` | src/agent-loops/agent-loop-runner.ts:107-154 | Uninterrupted, with every implementation completed and every verification passed, the driver completes the run in its iteration with one turn for each phase left. |
| `AgentLoopDriver.DriverExhausts` | src/agent-loops/agent-loop-runner.ts:107-154 | Uninterrupted, with no verification passed, it fails the run at its last iteration after exactly as many turns as the bound allows. |
| `AgentLoopDriver.DriverBlocks` | src/agent-loops/agent-loop-runner.ts:219-302 | Uninterrupted, with the implementation blocked, it pauses the run in the implementation turn. |
| `AgentLoopDriver.InterruptionPauses` | src/agent-loops/agent-loop-runner.ts:129-136 | An abort, a failed progress report or a failed tool pauses the run there. |
| `AgentLoopRunnerClass.AgentLoopRunner.Execute` | src/agent-loops/agent-loop-runner.ts:107-154 | The loop terminates by the measure and reaches exactly the specified end after the specified number of turns, touching no other run. |
| `AgentLoopRunnerClass.AgentLoopRunner.Start` | src/agent-loops/agent-loop-runner.ts:76-105 | Stores exactly the run that driving ends in, an error being recorded on it. |
| `Glob.GlobToRegExp` | src/policy/glob-match.ts:10-43 | The index loop writes the concatenation of the texts of the glob's tokens between anchors. |
| `Glob.Emit` | src/policy/glob-match.ts:13-40 | One pass of the loop writes the text of the token at the index and stops on its last character. |
| `Glob.CompiledParses` | src/policy/glob-match.ts:42 | Read as a regular expression, the compiled text of every glob is the expected expression, or no expression where the glob has none. |
| `Glob.CompilesIff` | src/policy/glob-match.ts:31-42 | Compiling a glob throws iff a star or question mark in one of its brace alternatives begins the alternative or follows another that it cannot make lazy. |
| `Glob.EscapedParses` | src/policy/glob-match.ts:45-47 | An escaped brace alternative reads back as its characters, each with the star or question mark that follows it, or not at all when one has nothing to repeat. |
| `GlobMeaning.CompilationPreservesMeaning` | src/policy/glob-match.ts:10-58 | For every glob without star or question mark inside braces and every value, the compiled expression accepts iff the direct matcher does, with `**` kept to one line. |
| `GlobMeaning.CompilationPreservesDocumentedMeaning` | src/policy/glob-match.ts:1-9 | On values without line terminators, iff the direct matcher with unrestricted `**` does. |
| `GlobMeaning.DocumentedIffOneLine` | src/policy/glob-match.ts:20-27 | All globs with plain braces give a value the documented answer iff it has no line terminator. |
| `GlobMeaning.DocumentedIffNoDoubleStar` | src/policy/glob-match.ts:20-27 | A glob with plain braces gives all values the documented answer iff it has no `**`. |
| `GlobMeaning.LineFeedDiffers` | src/policy/glob-match.ts:22 | A value with a line feed on which the two differ. |
| `GlobMeaning.BracesLiteralIff` | src/policy/glob-match.ts:31-36 | A brace list accepts exactly its comma-separated alternatives, for all values, iff it holds no star and no question mark; an alternative that holds one is itself never accepted. |
| `GlobMeaning.BraceThrowsIff` | src/policy/glob-match.ts:31-42 | A brace list throws when compiled iff one of its alternatives has a star or question mark with nothing to repeat. |
| `GlobMeaning.StarInBracesDiffers` | src/policy/glob-match.ts:33-35 | A glob with a star inside braces that accepts another value and not its own alternative. |
| `GlobMeaning.GlobMatcher.Matches` | src/policy/glob-match.ts:49-58 | The cached matcher answers as recompiling would, hence as the direct matcher does. |
| `CapsuleProof.BudgetsHold` | src/capsule/workspace-capsule-manager.ts:406-420 | In every reachable state mutations <= calls <= maxCalls and mutations <= maxMutations, and observing capsules have no mutation. |
| `CapsuleProof.CapsulesOnlyEvolve` | src/capsule/workspace-capsule-manager.ts:256-265 | Over every continuation of every run a capsule is kept, its terms never change, its usage never falls, and revocation is permanent. |
| `CapsuleProof.BindingIsNewestLive` | src/capsule/workspace-capsule-manager.ts:440-487 | A call is bound to a capsule iff some live capsule matches, and then to the newest such one, never shadowed by a newer dead one. |
| `CapsuleProof.PersistKeepsBinding` | src/capsule/workspace-capsule-manager.ts:588-595 | Persisting, which reorders the capsules, changes no binding decision. |
| `CapsuleProof.RestartKeepsChecks` | src/capsule/workspace-capsule-manager.ts:274-404 | A check after loading decides as before persisting. |
| `CapsuleProof.ReloadIff` | src/capsule/workspace-capsule-manager.ts:505-586 | Stored capsules load again iff every limit is a safe integer, and come back the same, newest first. |
| `CapsuleProof.UnsafeLimitBlocksReload` | src/capsule/workspace-capsule-manager.ts:206-211 | A capsule that creation accepts and loading refuses. |
| `CapsuleProof.CheckedCallReserves` | src/capsule/workspace-capsule-manager.ts:274-420 | A check that allows a call under a capsule implies that reserving succeeds in the same state, on a live capsule. |
| `CapsuleEffects.CheckIff` | src/capsule/workspace-capsule-manager.ts:274-404 | Under a bound capsule a call is allowed iff the scopes grant it, profile and isolation admit its mutation, its tool is neither reserved, a command nor cut off from the network, an autopilot's call is not critical, both budgets have room, and all its paths, within their number, lie in the root and in no other worktree. |
| `CapsuleEffects.ResolveExactly` | src/capsule/workspace-capsule-manager.ts:440-487 | Which capsule binds, and which of the refusals is given when none does, for every principal. |
| `CapsuleEffects.CreateExactly` | src/capsule/workspace-capsule-manager.ts:182-243 | Creation succeeds iff root, principal, life and limits are valid; the capsule is new, unused and alive for that long. |
| `CapsuleEffects.ProfileDefaults` | src/capsule/workspace-capsule-manager.ts:90-115 | What each profile gives where nothing is asked for. |
| `CapsuleEffects.ReserveExactly` | src/capsule/workspace-capsule-manager.ts:406-420 | Reserving succeeds iff the named capsule has room in its budgets; its call, and mutation if it is one, are counted and nothing else changes. |
| `CapsuleEffects.RevokeExactly` | src/capsule/workspace-capsule-manager.ts:256-265 | Revoking marks exactly the named capsule, once. |
| `CapsuleEffects.LoadIff` | src/capsule/workspace-capsule-manager.ts:505-586 | Whatever is stored, loading succeeds iff names differ and each capsule is allowed, belongs to its project, ends after it began and is used within safe limits. |
| `CapsuleProof.ReadStore` | src/capsule/workspace-capsule-manager.ts:570-586 | The loading loop accepts exactly the specified stores. |
| `CapsuleProof.WorkspaceCapsuleManager.Reload` | src/capsule/workspace-capsule-manager.ts:570-586 | Succeeds iff all limits are safe; keeps the invariant and what is stored. |
| `CapsuleProof.WorkspaceCapsuleManager.CreateCapsule` | src/capsule/workspace-capsule-manager.ts:182-243 | Adds the created capsule and stores the new state, or changes nothing. |
| `CapsuleProof.WorkspaceCapsuleManager.RevokeCapsule` | src/capsule/workspace-capsule-manager.ts:256-265 | The capsule found is revoked afterwards; a first revocation is not overwritten. |
| `CapsuleProof.WorkspaceCapsuleManager.ReserveCall` | src/capsule/workspace-capsule-manager.ts:406-420 | Counts the call within its budgets or changes nothing. |
| `Bandwidth.RateBound` | src/browser/network-proxy.ts:56-81 | For all chunk sizes and arrival times, release times never decrease and the bytes of chunks j to k-1 are at most rate * (s_k - s_j) / 1000. |
| `Bandwidth.DelayIsNeeded` | src/browser/network-proxy.ts:73-77 | A chunk is released at its arrival, or exactly when the chunks since some earlier arrival have had their time: no delay beyond the rate. |
| `Bandwidth.BandwidthTransform.Transform` | src/browser/network-proxy.ts:66-81 | The chunk's delay gives the specified release time, is zero iff the earlier budget has elapsed, and an unlimited shaper passes chunks at once. |
| `StableSort.SortFilter` | src/capsule/workspace-capsule-manager.ts:461-476 | A stable sort commutes with filtering. |

## Left out

Assumptions and simplifications of what is modelled:

- Cryptography, text validators and identifier formats are uninterpreted functions; their laws appear as named hypotheses (`SealsVerify`, `HashIsInjective`, `Parses`, `SignerTrusted`). No theorem assumes that bearer tokens cannot be forged.
- Random identifiers are parameters assumed new when drawn (`Fresh`, `FreshRun`).
- Clock readings are arbitrary in the coordinator (each of the readings in a request is separate); a capsule decision uses one reading.
- Lock files with stale reclaim: every critical section is one atomic step.
- Strings are sequences of characters; a character outside the basic plane counts once, where the program sees two code units.
- A JSON number that does not print as an integer numeral is represented by its printed form; objects keep their members in the order written, and key order is any comparison function. The law about parsing is stated for all values of the model, also those with numerals or member orders no program would hold.
- Audit files are characters, so sizes count characters; modification times are chosen by the environment, and the cache theorems assume that equal size and time mean equal content among the live files of a run (`Unambiguous`) and that rotation stamps are new.
- `AuditStore.Repair`: the write loop of the temporary file is one step that may stop after any number of characters.
- `AgentLoop.Create`: criteria are filtered for emptiness but not trimmed, deduplicated or cut to length; texts of proposals, rationales and summaries are not modelled.
- `AgentLoopRunnerClass.TurnEnv`: what tools answer is reduced to whether a turn or a progress report throws, whether the implementation completed and which criteria passed; polling and proof packs are not modelled.
- `RegexFragment.RegExp`: reads only the constructs that compiled globs use; other regular expressions are not part of this model.
- `Capsules.Check`: path canonicalisation, and which arguments are paths, are abstract; the tests of command length and of network commands come after every command tool has been refused, can never be reached, and are left out.
- Scores, weights and durations are exact numbers, not floating point.

Not modelled:

- Payload encryption and the redacted views of workers and jobs.
- The worker's artifact cache, downloads, sandbox choice and heartbeat timer (heartbeats themselves may happen at any time).
- `preflight`'s file permissions and directory creation.
- HTTP servers, dashboards, command lines, tunnels, process control and the clients of outside services.
- The artifact store, whose quota check looks only at its newest entries; the coordinator needs only whether an artifact exists.
- The ChatGPT life cycle and other decision tables, which would only add easy members.
