/** What each agent-loop call accepts and what it leaves, field by field. */
module AgentLoopEffects {
  import opened Prelude
  import opened StableSort
  import opened AgentLoop
  import opened AgentLoopInvariant

  // ---------------------------------------------------------------- saving

  /** The newest five hundred. */
  function Kept(events: seq<Event>): seq<Event> { if |events| <= 500 then events else events[|events| - 500..] }

  /** `next`, saved after `run`: one more revision, and one more event under its number. */
  ghost function SavedAs(run: Run, next: Run): Run {
    next.(revision := run.revision + 1,
          events := Kept(run.events + [Event(run.revision + 1, next.phase, next.iteration)]))
  }

  lemma CommitSaves(run: Run, next: Run)
    requires Logged(run) && next.events == run.events && next.revision == run.revision
    ensures Commit(next) == SavedAs(run, next)
  {
  }

  // ---------------------------------------------------------------- creation and access

  /** Creation succeeds exactly with a title, a criterion and at least two usable experts under different
      names; the run then waits in discovery of its first iteration, with nothing proposed or decided. */
  lemma CreateExactly(input: Input, binding: Binding)
    ensures var r := Create(input, binding);
            var experts := Experts(input);
            && (r.Ok? <==>
                  && input.titled && (exists c :: c in input.acceptance && c != []) && |experts| >= 2
                  && forall i, j :: 0 <= i < j < |experts| ==> experts[i].id != experts[j].id)
            && (r.Ok? ==>
                  && r.value.experts == experts && r.value.binding == binding
                  && (forall c :: c in r.value.acceptance <==> c in input.acceptance && c != [])
                  && r.value.state == Created && r.value.phase == Discovery && r.value.iteration == 1
                  && r.value.revision == 1 && r.value.events == [Event(1, Discovery, 1)]
                  && r.value.proposals == [] && r.value.votes == [] && r.value.decision.None?
                  && r.value.implementation.None? && r.value.verification.None? && r.value.claimed.None?)
  {
    hide Filter;
    hide DefaultExperts;
    FilterContents(NonEmpty(), input.acceptance);
    assert Criteria(input) != [] ==> Criteria(input)[0] in Criteria(input);
  }

  /** The limits of a created run: what was asked for, within the allowed range. */
  lemma CreateLimits(input: Input, binding: Binding)
    requires Create(input, binding).Ok?
    ensures var r := Create(input, binding).value;
            var n := |Experts(input)|;
            && (input.minVotes.None? ==> r.minVotes == if n < 3 then n else 3)
            && (input.minVotes.Some? && 2 <= input.minVotes.value.Floor <= n ==>
                r.minVotes == input.minVotes.value.Floor)
            && (input.minVotes.Some? && input.minVotes.value.Floor < 2 ==> r.minVotes == 2)
            && (input.minVotes.Some? && n < input.minVotes.value.Floor ==> r.minVotes == n)
            && (input.threshold.None? ==> r.threshold == 0.7)
            && (input.threshold.Some? && 0.5 <= input.threshold.value <= 1.0 ==> r.threshold == input.threshold.value)
            && (input.threshold.Some? && input.threshold.value < 0.5 ==> r.threshold == 0.5)
            && (input.threshold.Some? && 1.0 < input.threshold.value ==> r.threshold == 1.0)
            && (input.maxIterations.None? ==> r.maxIterations == 20)
            && (input.maxIterations.Some? && 1 <= input.maxIterations.value.Floor <= 100 ==>
                  r.maxIterations == input.maxIterations.value.Floor)
            && (input.maxIterations.Some? && input.maxIterations.value.Floor < 1 ==> r.maxIterations == 1)
            && (input.maxIterations.Some? && 100 < input.maxIterations.value.Floor ==> r.maxIterations == 100)
  {
    hide Filter;
    hide DefaultExperts;
    hide AddEvent;
  }

  /** The experts are those offered (the four built-in ones if none was) with a name, a role and a
      positive weight, in order. */
  lemma ExpertsAre(input: Input)
    ensures forall e :: e in Experts(input) <==>
              && e in (if input.experts == [] then DefaultExperts() else input.experts)
              && e.id != [] && e.role != [] && e.weight > 0.0
  {
    FilterContents(Usable(), if input.experts == [] then DefaultExperts() else input.experts);
  }

  /** Only the owner, from the client, session and task the run is bound to, or an administrator, may touch it. */
  lemma PermittedIff(run: Run, who: Principal)
    ensures Permitted(run, who) <==>
            || who.admin
            || (&& who.id == run.binding.owner
                && (run.binding.client == None || run.binding.client == Some("") || who.client == run.binding.client)
                && (run.binding.session == None || run.binding.session == Some("")
                    || who.session == run.binding.session)
                && (run.binding.job == None || run.binding.job == Some("") || who.job == run.binding.job))
  {
  }

  // ---------------------------------------------------------------- life cycle

  ghost predicate Ended(run: Run) { run.state in {Completed, Failed, Cancelled} }

  /** Claiming: the first key is kept; the same again changes nothing, another is refused. */
  lemma ClaimExactly(run: Run, key: string, keyHash: string)
    requires Logged(run)
    ensures var r := Act(run, DoClaim(key, keyHash));
            && (r.Ok? <==>
                  && 1 <= |key| <= 256
                  && (run.claimed == Some(keyHash) || (run.claimed.None? && !Ended(run))))
            && (r.Ok? ==> r.value == if run.claimed.Some? then run else SavedAs(run, run.(claimed := Some(keyHash))))
  {
    CommitSaves(run, run.(claimed := Some(keyHash)));
  }

  /** Starting: a run that has not ended becomes running, from discovery if it was paused. */
  lemma StartExactly(run: Run)
    requires Logged(run)
    ensures var r := Act(run, DoStart);
            var phase := if run.phase == PausedPhase then Discovery else run.phase;
            && (r.Ok? <==> !Ended(run))
            && (r.Ok? ==> r.value == SavedAs(run, run.(state := Running, phase := phase)))
  {
    CommitSaves(run, run.(state := Running, phase := if run.phase == PausedPhase then Discovery else run.phase));
  }

  /** Pausing: a run that has not ended becomes paused, and keeps everything else. */
  lemma PauseExactly(run: Run)
    requires Logged(run)
    ensures var r := Act(run, DoPause);
            && (r.Ok? <==> !Ended(run))
            && (r.Ok? ==> r.value == SavedAs(run, run.(state := Paused, phase := PausedPhase)))
  {
    CommitSaves(run, run.(state := Paused, phase := PausedPhase));
  }

  /** Cancelling: a run that has not ended becomes cancelled; one that has is returned unchanged. */
  lemma CancelExactly(run: Run)
    requires Logged(run)
    ensures Act(run, DoCancel) ==
            Ok(if Ended(run) then run else SavedAs(run, run.(state := Cancelled, phase := CancelledPhase)))
  {
    CommitSaves(run, run.(state := Cancelled, phase := CancelledPhase));
  }

  /** A runner's error pauses a run that has not ended, and leaves one that has. */
  lemma ErrorExactly(run: Run)
    requires Logged(run)
    ensures Act(run, DoRunnerError) == Ok(if Ended(run) then run
                                          else SavedAs(run, run.(state := Paused, phase := PausedPhase)))
  {
    CommitSaves(run, run.(state := Paused, phase := PausedPhase));
  }

  /** A cancelled run stays exactly as it was cancelled, whatever is called afterwards. */
  lemma CancelledForGood(run: Run, actions: seq<Action>)
    requires Inv(run) && !Ended(run)
    ensures var cancelled := Next(run, DoCancel);
            cancelled.state == Cancelled && AfterAll(cancelled, actions) == cancelled
  {
    hide AfterAll;
    hide Agree;
    hide Setup;
    hide Ballots;
    hide DecisionOk;
    hide Implemented;
    hide Gate;
    NextKeepsInv(run, DoCancel);
    CancelExactly(run);
    TerminalForever(Next(run, DoCancel), actions);
  }

  // ---------------------------------------------------------------- proposals and votes

  ghost predicate Knows(run: Run, id: string) { exists i :: 0 <= i < |run.experts| && run.experts[i].id == id }

  /** Proposing: in discovery or the council, by an expert, with a summary; it goes to the end of the
      proposals, of this iteration, and ends discovery. */
  lemma ProposeExactly(run: Run, id: string, expertId: string, summarised: bool, plan: nat, risks: nat, evidence: nat)
    requires Logged(run)
    ensures var r := Act(run, DoPropose(id, expertId, summarised, plan, risks, evidence));
            var proposal := Proposal(id, run.iteration, expertId, plan, risks, evidence);
            && (r.Ok? <==>
                  run.state == Running && run.phase in {Discovery, Council} && Knows(run, expertId) && summarised)
            && (r.Ok? ==> r.value == SavedAs(run, run.(proposals := run.proposals + [proposal], phase := Council)))
  {
    CommitSaves(run, run.(proposals := run.proposals + [Proposal(id, run.iteration, expertId, plan, risks, evidence)],
                          phase := Council));
  }

  /** Voting: in the council, by an expert, for a proposal of this iteration, with a score from 0 to 1; it
      takes the place of the expert's earlier vote of this iteration, and no other vote changes. */
  lemma VoteExactly(run: Run, expertId: string, proposalId: string, score: real, approve: bool)
    requires Logged(run)
    ensures var r := Act(run, DoVote(expertId, proposalId, score, approve));
            var vote := Vote(run.iteration, expertId, proposalId, score, approve);
            && (r.Ok? <==>
                  && run.state == Running && run.phase == Council && Knows(run, expertId) && 0.0 <= score <= 1.0
                  && exists p :: p in run.proposals && p.id == proposalId && p.iteration == run.iteration)
            && (r.Ok? ==>
                  && r.value == SavedAs(run, run.(votes := r.value.votes))
                  && |r.value.votes| >= 1 && r.value.votes[|r.value.votes| - 1] == vote
                  && forall v :: v in r.value.votes <==>
                       v == vote || (v in run.votes && (v.iteration != run.iteration || v.expertId != expertId)))
  {
    hide Filter;
    var kept := Filter(NotBy(run.iteration, expertId), run.votes);
    FilterContents(NotBy(run.iteration, expertId), run.votes);
    CommitSaves(run, run.(votes := kept + [Vote(run.iteration, expertId, proposalId, score, approve)]));
    if p :| p in run.proposals && p.id == proposalId && p.iteration == run.iteration {
      var i :| 0 <= i < |run.proposals| && run.proposals[i] == p;
    }
  }

  /** Deciding: in the council, with a proposal and a quorum of votes of this iteration, and a leading
      rank that meets both thresholds; only the decision and the phase change. */
  lemma DecideExactly(run: Run)
    requires Logged(run)
    ensures var r := Act(run, DoDecide);
            var ranked := Ranked(run);
            && |ranked| == |CurrentProposals(run)|
            && (r.Ok? <==>
                  && run.state == Running && run.phase == Council && ranked != []
                  && |CurrentVotes(run)| >= run.minVotes
                  && ranked[0].consensus >= run.threshold && ranked[0].approvalRate >= 0.5)
            && (r.Ok? ==> r.value == SavedAs(run,
                                             run.(decision := Some(Decision(ranked[0], ranked)),
                                                  phase := Implementation)))
  {
    hide Filter;
    hide Sort;
    hide RankOf;
    if Ranked(run) != [] {
      CommitSaves(run, run.(decision := Some(Decision(Ranked(run)[0], Ranked(run))), phase := Implementation));
    }
  }

  /** The proposals and votes a council looks at are those of the run's iteration. */
  lemma CurrentAre(run: Run)
    ensures forall p :: p in CurrentProposals(run) <==> p in run.proposals && p.iteration == run.iteration
    ensures forall v :: v in CurrentVotes(run) <==> v in run.votes && v.iteration == run.iteration
  {
    FilterContents(ProposedIn(run.iteration), run.proposals);
    FilterContents(VotedIn(run.iteration), run.votes);
  }

  // ---------------------------------------------------------------- implementation and verification

  /** Reporting on the implementation: completed leads to verification, blocked pauses the run, running
      changes only the report. */
  lemma ImplementExactly(run: Run, status: Status)
    requires Logged(run)
    ensures var r := Act(run, DoImplement(status));
            && (r.Ok? <==> run.state == Running && run.phase == Implementation)
            && (r.Ok? ==>
                  r.value == SavedAs(run, run.(
                    implementation := Some(status),
                    state := if status == StatusBlocked then Paused else Running,
                    phase := if status == StatusBlocked then PausedPhase
                             else if status == StatusCompleted then Verification else Implementation)))
  {
    var next := run.(implementation := Some(status),
                     state := if status == StatusBlocked then Paused else Running,
                     phase := if status == StatusBlocked then PausedPhase
                              else if status == StatusCompleted then Verification else Implementation);
    if run.state == Running && run.phase == Implementation { CommitSaves(run, next); }
  }

  /** Recording a verification: passed, if it says so with a named criterion for each of the run's, all
      passed, completes the run. Otherwise it fails at the last iteration, and before it the next begins
      in discovery, with decision and implementation forgotten. */
  lemma VerifyExactly(run: Run, passed: bool, input: seq<Criterion>)
    requires Logged(run)
    ensures var r := Act(run, DoVerify(passed, input));
            && (r.Ok? <==> run.state == Running && run.phase == Verification)
            && (r.Ok? ==>
                  && r.value.verification.Some?
                  && var check := r.value.verification.value;
                     var checked := run.(verification := Some(check));
                  && (forall c :: c in check.criteria <==> c in input && c.name != [])
                  && check.passed == (passed && |check.criteria| >= |run.acceptance|
                                      && forall c :: c in input && c.name != [] ==> c.passed)
                  && r.value == SavedAs(run,
                       if check.passed then checked.(state := Completed, phase := CompletedPhase)
                       else if run.iteration < run.maxIterations
                       then checked.(iteration := run.iteration + 1, phase := Discovery, decision := None,
                                     implementation := None)
                       else checked.(state := Failed, phase := FailedPhase)))
  {
    hide Filter;
    var criteria := Filter(Named(), input);
    FilterContents(Named(), input);
    AllPassedIs(criteria, input);
    if run.state == Running && run.phase == Verification {
      var ok := passed && |criteria| >= |run.acceptance| && AllPassed(criteria);
      var checked := run.(verification := Some(Check(ok, criteria)));
      CommitSaves(run,
                  if ok then checked.(state := Completed, phase := CompletedPhase)
                  else if run.iteration >= run.maxIterations then checked.(state := Failed, phase := FailedPhase)
                  else checked.(iteration := run.iteration + 1, phase := Discovery, decision := None,
                                implementation := None));
    }
  }

  lemma AllPassedIs(criteria: seq<Criterion>, input: seq<Criterion>)
    requires forall c :: c in criteria <==> c in input && c.name != []
    ensures AllPassed(criteria) <==> forall c :: c in input && c.name != [] ==> c.passed
  {
    if AllPassed(criteria) {
      forall c | c in input && c.name != [] ensures c.passed {
        assert c in criteria;
        var i :| 0 <= i < |criteria| && criteria[i] == c;
      }
    }
    forall i | 0 <= i < |criteria| ensures criteria[i] in criteria { }
  }
}
