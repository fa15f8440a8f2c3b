/** What every reachable agent-loop run satisfies. */
module AgentLoopInvariant {
  import opened Prelude
  import opened StableSort
  import opened AgentLoop

  // ---------------------------------------------------------------- the invariant

  /** State and phase agree. */
  ghost predicate Agree(run: Run) {
    match run.state
    case Created => run.phase == Discovery
    case Running => run.phase in {Discovery, Council, Implementation, Verification}
    case Paused => run.phase == PausedPhase
    case Completed => run.phase == CompletedPhase
    case Failed => run.phase == FailedPhase
    case Cancelled => run.phase == CancelledPhase
  }

  ghost predicate Setup(run: Run) {
    && run.acceptance != [] && (forall i :: 0 <= i < |run.acceptance| ==> run.acceptance[i] != [])
    && |run.experts| >= 2 && DistinctIds(run.experts)
    && (forall i :: 0 <= i < |run.experts| ==> run.experts[i].weight > 0.0)
    && 2 <= run.minVotes <= |run.experts| && 0.5 <= run.threshold <= 1.0
    && 1 <= run.iteration <= run.maxIterations <= 100
  }

  /** No expert has two votes in one iteration. */
  ghost predicate OneVoteEach(votes: seq<Vote>) {
    forall i, j :: 0 <= i < j < |votes| ==>
        votes[i].iteration != votes[j].iteration || votes[i].expertId != votes[j].expertId
  }

  ghost predicate VoteOk(run: Run, v: Vote) {
    && v.iteration <= run.iteration && IsExpert(run.experts, v.expertId) && 0.0 <= v.score <= 1.0
    && HasProposal(run.proposals, v.iteration, v.proposalId)
  }

  ghost predicate Ballots(run: Run) {
    && OneVoteEach(run.votes)
    && (forall i :: 0 <= i < |run.votes| ==> VoteOk(run, run.votes[i]))
    && (forall i :: 0 <= i < |run.proposals| ==>
        run.proposals[i].iteration <= run.iteration && IsExpert(run.experts, run.proposals[i].expertId))
    && (run.state == Running && run.phase == Council ==> CurrentProposals(run) != [])
  }

  ghost predicate Decided(run: Run) { run.phase in {Implementation, Verification, CompletedPhase, FailedPhase} }

  /** A decision names a proposal of the current iteration, meets both thresholds and leads its ranking. */
  ghost predicate DecisionOk(run: Run) {
    && (Decided(run) ==> run.decision.Some?)
    && (run.decision.Some? ==>
          var d := run.decision.value;
          && HasProposal(run.proposals, run.iteration, d.winner.proposalId)
          && run.threshold <= d.winner.consensus && 0.5 <= d.winner.approvalRate
          && d.ranked != [] && d.winner == d.ranked[0] && Sorted(ByRank(), d.ranked))
  }

  /** The verification phase, and what follows it, is reached only with a completed implementation. */
  ghost predicate Implemented(run: Run) {
    run.phase in {Verification, CompletedPhase, FailedPhase} ==> run.implementation == Some(StatusCompleted)
  }

  ghost predicate Gate(run: Run) {
    && (run.verification.Some? && run.verification.value.passed ==> run.state == Completed)
    && (run.state == Completed ==> Satisfied(run))
    && (run.state == Failed ==> run.iteration == run.maxIterations)
  }

  /** The newest events, numbered consecutively up to the revision. */
  ghost predicate Logged(run: Run) {
    && run.revision >= 1 && |run.events| == Min(run.revision, MAX_EVENTS)
    && forall i :: 0 <= i < |run.events| ==> run.events[i].number == run.revision - |run.events| + 1 + i
  }

  ghost predicate Inv(run: Run) {
    Agree(run) && Setup(run) && Ballots(run) && DecisionOk(run) && Implemented(run) && Gate(run) && Logged(run)
  }

  // ---------------------------------------------------------------- commits

  /** Everything but the log. */
  ghost predicate Core(run: Run) {
    Agree(run) && Setup(run) && Ballots(run) && DecisionOk(run) && Implemented(run) && Gate(run)
  }

  lemma CommitCore(run: Run)
    requires Core(run)
    ensures Core(Commit(run))
  {
    hide AddEvent;
  }

  lemma CommitLogs(run: Run)
    requires Logged(run) || (run.revision == 0 && run.events == [])
    ensures Logged(Commit(run))
    ensures var e := Commit(run).events; e[|e| - 1] == Event(run.revision + 1, run.phase, run.iteration)
  {
  }

  lemma CommitInv(run: Run)
    requires Core(run) && (Logged(run) || (run.revision == 0 && run.events == []))
    ensures Inv(Commit(run))
  {
    hide Core;
    hide Logged;
    hide Commit;
    CommitCore(run);
    CommitLogs(run);
    CoreAndLog(Commit(run));
  }

  lemma CoreAndLog(run: Run)
    requires Core(run) && Logged(run)
    ensures Inv(run)
  {
    hide Agree;
    hide Setup;
    hide Ballots;
    hide DecisionOk;
    hide Implemented;
    hide Gate;
    hide Logged;
  }

  // ---------------------------------------------------------------- creation

  lemma {:induction false} FilteredUsable(s: seq<Expert>)
    ensures forall i :: 0 <= i < |Filter(Usable(), s)| ==> Filter(Usable(), s)[i].weight > 0.0
  {
    FilterContents(Usable(), s);
    forall i | 0 <= i < |Filter(Usable(), s)| ensures Filter(Usable(), s)[i].weight > 0.0 {
      assert Filter(Usable(), s)[i] in Filter(Usable(), s);
    }
  }

  lemma CreateInv(input: Input, binding: Binding)
    requires Create(input, binding).Ok?
    ensures Inv(Create(input, binding).value)
  {
    hide Filter;
    hide Commit;
    FilteredUsable(if input.experts == [] then DefaultExperts() else input.experts);
    FilterContents(NonEmpty(), input.acceptance);
    assert forall i :: 0 <= i < |Criteria(input)| ==> Criteria(input)[i] in Criteria(input);
    var experts := Experts(input);
    var run := Run(
      0, binding, Criteria(input), experts,
      Max(2, Min(|experts|, match input.minVotes case None => Min(3, |experts|) case Some(x) => x.Floor)),
      Clamp(0.5, 1.0, match input.threshold case None => 0.7 case Some(x) => x),
      Max(1, Min(100, match input.maxIterations case None => 20 case Some(x) => x.Floor)),
      1, Discovery, Created, [], [], [], None, None, None, None);
    assert Core(run);
    CommitInv(run);
  }

  // ---------------------------------------------------------------- votes

  lemma {:induction false} FilterOneVote(p: Vote -> bool, s: seq<Vote>)
    requires OneVoteEach(s)
    ensures OneVoteEach(Filter(p, s))
  {
    if s != [] {
      FilterOneVote(p, s[1..]);
      FilterContents(p, s[1..]);
      var rest := Filter(p, s[1..]);
      forall j | 0 <= j < |rest| ensures s[0].iteration != rest[j].iteration || s[0].expertId != rest[j].expertId {
        assert rest[j] in rest;
        var k :| 0 <= k < |s[1..]| && s[1..][k] == rest[j];
      }
    }
  }

  lemma VotesAfterCast(votes: seq<Vote>, v: Vote)
    requires OneVoteEach(votes)
    ensures OneVoteEach(Filter(NotBy(v.iteration, v.expertId), votes) + [v])
  {
    var kept := Filter(NotBy(v.iteration, v.expertId), votes);
    FilterOneVote(NotBy(v.iteration, v.expertId), votes);
    FilterContents(NotBy(v.iteration, v.expertId), votes);
    forall i | 0 <= i < |kept| ensures kept[i].iteration != v.iteration || kept[i].expertId != v.expertId {
      assert kept[i] in kept;
    }
  }

  lemma CastKeepsInv(run: Run, expertId: string, proposalId: string, score: real, approve: bool)
    requires Inv(run) && CastVote(run, expertId, proposalId, score, approve).Ok?
    ensures Inv(CastVote(run, expertId, proposalId, score, approve).value)
  {
    hide Filter;
    hide Commit;
    hide Logged;
    var v := Vote(run.iteration, expertId, proposalId, score, approve);
    var votes := Filter(NotBy(run.iteration, expertId), run.votes) + [v];
    var next := run.(votes := votes);
    VotesAfterCast(run.votes, v);
    FilterContents(NotBy(run.iteration, expertId), run.votes);
    forall i | 0 <= i < |votes| ensures VoteOk(next, votes[i]) {
      if i < |votes| - 1 {
        assert votes[i] in run.votes;
        var k :| 0 <= k < |run.votes| && run.votes[k] == votes[i];
        assert VoteOk(run, run.votes[k]);
      }
    }
    LoggedSame(run, next);
    CommitInv(next);
  }

  lemma LoggedSame(run: Run, next: Run)
    requires Logged(run) && next.events == run.events && next.revision == run.revision
    ensures Logged(next)
  {
  }

  lemma HasProposalGrows(proposals: seq<Proposal>, p: Proposal, iteration: nat, id: string)
    requires HasProposal(proposals, iteration, id)
    ensures HasProposal(proposals + [p], iteration, id)
  {
    var i :| 0 <= i < |proposals| && proposals[i].id == id && proposals[i].iteration == iteration;
    assert (proposals + [p])[i] == proposals[i];
  }

  lemma ProposeKeepsInv(run: Run, id: string, expertId: string, plan: nat, risks: nat, evidence: nat)
    requires Inv(run) && Propose(run, id, expertId, true, plan, risks, evidence).Ok?
    ensures Inv(Propose(run, id, expertId, true, plan, risks, evidence).value)
  {
    hide Commit;
    hide Logged;
    hide HasProposal;
    hide Filter;
    var p := Proposal(id, run.iteration, expertId, plan, risks, evidence);
    var next := run.(proposals := run.proposals + [p], phase := if run.phase == Discovery then Council else run.phase);
    forall i | 0 <= i < |run.votes| ensures VoteOk(next, run.votes[i]) {
      HasProposalGrows(run.proposals, p, run.votes[i].iteration, run.votes[i].proposalId);
    }
    if run.decision.Some? { HasProposalGrows(run.proposals, p, run.iteration, run.decision.value.winner.proposalId); }
    FilterContents(ProposedIn(run.iteration), next.proposals);
    assert next.proposals[|run.proposals|] == p && p in CurrentProposals(next);
    LoggedSame(run, next);
    CommitInv(next);
  }

  // ---------------------------------------------------------------- the decision

  lemma ByRankTotal()
    ensures Total(ByRank())
  {
  }

  lemma CurrentProposalExists(run: Run, p: Proposal)
    requires p in CurrentProposals(run)
    ensures HasProposal(run.proposals, run.iteration, p.id)
  {
    FilterContents(ProposedIn(run.iteration), run.proposals);
  }

  /** A higher consensus, or the same and a higher approval rate, or both the same and more votes. */
  ghost predicate Beats(a: Rank, b: Rank) {
    || a.consensus > b.consensus
    || (a.consensus == b.consensus && a.approvalRate > b.approvalRate)
    || (a.consensus == b.consensus && a.approvalRate == b.approvalRate && a.voteCount > b.voteCount)
  }

  /** The decision: the winner is the rank of a current proposal, none beats it, it beats every earlier
      one, and the thresholds and the quorum are met. */
  lemma DecisionIsBest(run: Run) returns (k: nat)
    requires Decide(run).Ok?
    ensures k < |CurrentProposals(run)|
    ensures var d := Decide(run).value.decision.value;
            var votes := CurrentVotes(run);
            && d.winner == RankOf(run.experts, votes, CurrentProposals(run)[k].id)
            && (forall i :: 0 <= i < |CurrentProposals(run)| ==>
                !Beats(RankOf(run.experts, votes, CurrentProposals(run)[i].id), d.winner))
            && (forall i :: 0 <= i < k ==> Beats(d.winner, RankOf(run.experts, votes, CurrentProposals(run)[i].id)))
            && multiset(d.ranked) == multiset(Ranks(run.experts, votes, CurrentProposals(run)))
            && Sorted(ByRank(), d.ranked) && d.winner == d.ranked[0]
            && run.threshold <= d.winner.consensus && 0.5 <= d.winner.approvalRate && |votes| >= run.minVotes
  {
    hide Filter;
    hide Sort;
    hide RankOf;
    hide AddEvent;
    hide Sorted;
    var ranks := Ranks(run.experts, CurrentVotes(run), CurrentProposals(run));
    ByRankTotal();
    SortSorted(ByRank(), ranks);
    SortContents(ByRank(), ranks);
    k := SortFirst(ByRank(), ranks);
    assert forall i :: 0 <= i < |ranks| ==> ByRank()(ranks[k], ranks[i]) == Ahead(ranks[k], ranks[i]);
    assert forall i :: 0 <= i < k ==> ByRank()(ranks[i], ranks[k]) == Ahead(ranks[i], ranks[k]);
    forall i | 0 <= i < |ranks| ensures Ahead(ranks[k], ranks[i]) <==> !Beats(ranks[i], ranks[k]) { }
    forall i | 0 <= i < |ranks| ensures Ahead(ranks[i], ranks[k]) <==> !Beats(ranks[k], ranks[i]) { }
  }

  lemma DecideKeepsInv(run: Run)
    requires Inv(run) && Decide(run).Ok?
    ensures Inv(Decide(run).value)
  {
    hide Filter;
    hide Sort;
    hide Commit;
    hide Logged;
    hide Sorted;
    hide HasProposal;
    hide VoteOk;
    var ranks := Ranks(run.experts, CurrentVotes(run), CurrentProposals(run));
    ByRankTotal();
    SortSorted(ByRank(), ranks);
    var k := SortFirst(ByRank(), ranks);
    CurrentProposalExists(run, CurrentProposals(run)[k]);
    var next := run.(decision := Some(Decision(Ranked(run)[0], Ranked(run))), phase := Implementation);
    SameBallots(run, next);
    LoggedSame(run, next);
    CommitInv(next);
  }

  lemma SameBallots(run: Run, next: Run)
    requires Ballots(run) && next.votes == run.votes && next.proposals == run.proposals && next.experts == run.experts
    requires run.iteration <= next.iteration
             && !(next.state == Running && next.phase == Council && !(run.state == Running && run.phase == Council))
    requires next.state == Running && next.phase == Council ==> next.iteration == run.iteration
    ensures Ballots(next)
  {
    hide Filter;
    hide HasProposal;
    hide IsExpert;
    hide OneVoteEach;
    forall i | 0 <= i < |next.votes| ensures VoteOk(next, next.votes[i]) { assert VoteOk(run, run.votes[i]); }
  }

  // ---------------------------------------------------------------- the other transitions

  lemma ImplementKeepsInv(run: Run, status: Status)
    requires Inv(run) && RecordImplementation(run, status).Ok?
    ensures Inv(RecordImplementation(run, status).value)
  {
    hide Commit;
    hide Logged;
    hide Ballots;
    hide HasProposal;
    hide Sorted;
    var next := match status
      case StatusRunning => run.(implementation := Some(status))
      case StatusCompleted => run.(implementation := Some(status), phase := Verification)
      case StatusBlocked => run.(implementation := Some(status), state := Paused, phase := PausedPhase);
    SameBallots(run, next);
    LoggedSame(run, next);
    CommitInv(next);
  }

  lemma VerifyKeepsInv(run: Run, passed: bool, input: seq<Criterion>)
    requires Inv(run) && RecordVerification(run, passed, input).Ok?
    ensures Inv(RecordVerification(run, passed, input).value)
  {
    hide Commit;
    hide Logged;
    hide Ballots;
    hide HasProposal;
    hide Sorted;
    hide Filter;
    var criteria := Filter(Named(), input);
    var ok := passed && |criteria| >= |run.acceptance| && AllPassed(criteria);
    var checked := run.(verification := Some(Check(ok, criteria)));
    var next :=
      if ok then checked.(state := Completed, phase := CompletedPhase)
      else if run.iteration >= run.maxIterations then checked.(state := Failed, phase := FailedPhase)
      else checked.(iteration := run.iteration + 1, phase := Discovery, decision := None, implementation := None);
    SameBallots(run, next);
    LoggedSame(run, next);
    CommitInv(next);
  }

  /** Start, pause, cancel, error and claim change only state, phase and claim. */
  lemma LifeCycleKeepsInv(run: Run, next: Run)
    requires Inv(run) && !Terminal(run)
    requires next == run.(state := next.state, phase := next.phase, claimed := next.claimed)
    requires || (next.state == Running && next.phase == if run.phase == PausedPhase then Discovery else run.phase)
             || (next.state == Paused && next.phase == PausedPhase)
             || (next.state == Cancelled && next.phase == CancelledPhase)
             || (next.state == run.state && next.phase == run.phase)
    ensures Inv(Commit(next))
  {
    hide Commit;
    hide Logged;
    hide Ballots;
    hide HasProposal;
    hide Sorted;
    SameBallots(run, next);
    LoggedSame(run, next);
    CommitInv(next);
  }

  /** Every call keeps the invariant, whatever its arguments. */
  lemma NextKeepsInv(run: Run, a: Action)
    requires Inv(run)
    ensures Inv(Next(run, a))
  {
    hide Inv;
    hide Commit;
    hide Filter;
    hide Decide;
    if Act(run, a).Ok? {
      match a
      case DoClaim(key, keyHash) => if run.claimed.None? { LifeCycleKeepsInv(run, run.(claimed := Some(keyHash))); }
      case DoStart =>
        var phase := if run.phase == PausedPhase then Discovery else run.phase;
        LifeCycleKeepsInv(run, run.(state := Running, phase := phase));
      case DoPause => LifeCycleKeepsInv(run, run.(state := Paused, phase := PausedPhase));
      case DoCancel => if !Terminal(run) { LifeCycleKeepsInv(run, run.(state := Cancelled, phase := CancelledPhase)); }
      case DoRunnerError => if !Terminal(run) { LifeCycleKeepsInv(run, run.(state := Paused, phase := PausedPhase)); }
      case DoPropose(id, expertId, _, plan, risks, evidence) =>
        ProposeKeepsInv(run, id, expertId, plan, risks, evidence);
      case DoVote(expertId, proposalId, score, approve) => CastKeepsInv(run, expertId, proposalId, score, approve);
      case DoDecide => DecideKeepsInv(run);
      case DoImplement(status) => ImplementKeepsInv(run, status);
      case DoVerify(passed, criteria) => VerifyKeepsInv(run, passed, criteria);
    }
  }

  // ---------------------------------------------------------------- whole runs

  function AfterAll(run: Run, actions: seq<Action>): Run {
    if actions == [] then run else Next(AfterAll(run, actions[..|actions| - 1]), actions[|actions| - 1])
  }

  lemma {:induction false} EveryRunInv(run: Run, actions: seq<Action>)
    requires Inv(run)
    ensures Inv(AfterAll(run, actions))
  {
    hide Inv;
    hide Next;
    if actions != [] {
      EveryRunInv(run, actions[..|actions| - 1]);
      NextKeepsInv(AfterAll(run, actions[..|actions| - 1]), actions[|actions| - 1]);
    }
  }

  /** Every run that `create` can begin, after any calls: the invariant holds, and the goal gate is
      satisfied exactly when the run is completed. */
  lemma ReachableInv(input: Input, binding: Binding, actions: seq<Action>)
    requires Create(input, binding).Ok?
    ensures var run := AfterAll(Create(input, binding).value, actions);
            Inv(run) && (Satisfied(run) <==> run.state == Completed)
  {
    hide Agree;
    hide Setup;
    hide Ballots;
    hide DecisionOk;
    hide Implemented;
    hide Logged;
    hide Create;
    hide AfterAll;
    CreateInv(input, binding);
    EveryRunInv(Create(input, binding).value, actions);
  }

  lemma TerminalStep(run: Run, a: Action)
    requires Inv(run) && Terminal(run)
    ensures Next(run, a) == run
  {
    hide Filter;
    hide Setup;
    hide Ballots;
    hide DecisionOk;
    hide Ranked;
  }

  /** A completed, failed or cancelled run never changes again. */
  lemma {:induction false} TerminalForever(run: Run, actions: seq<Action>)
    requires Inv(run) && Terminal(run)
    ensures AfterAll(run, actions) == run
  {
    hide Next;
    hide Inv;
    if actions != [] {
      TerminalForever(run, actions[..|actions| - 1]);
      TerminalStep(run, actions[|actions| - 1]);
    }
  }

  // ---------------------------------------------------------------- quorum and consensus

  ghost function Voters(votes: seq<Vote>): set<string> { set v | v in votes :: v.expertId }

  lemma {:induction false} DistinctVoters(votes: seq<Vote>, iteration: nat)
    requires OneVoteEach(votes) && forall v <- votes :: v.iteration == iteration
    ensures |Voters(votes)| == |votes|
  {
    if votes != [] {
      var rest, last := votes[..|votes| - 1], votes[|votes| - 1];
      DistinctVoters(rest, iteration);
      forall i | 0 <= i < |rest| ensures rest[i].expertId != last.expertId {
        assert votes[i] == rest[i] && rest[i] in votes && last in votes;
      }
      VotersSnoc(rest, last);
      assert votes == rest + [last];
    }
  }

  lemma VotersSnoc(votes: seq<Vote>, v: Vote)
    ensures Voters(votes + [v]) == Voters(votes) + {v.expertId}
  {
  }

  /** A decision rests on votes of at least `minVotes` different experts. */
  lemma QuorumIsDistinct(run: Run)
    requires Inv(run) && Decide(run).Ok?
    ensures |Voters(CurrentVotes(run))| >= run.minVotes
  {
    hide Filter;
    hide Ranked;
    FilterOneVote(VotedIn(run.iteration), run.votes);
    FilterContents(VotedIn(run.iteration), run.votes);
    DistinctVoters(CurrentVotes(run), run.iteration);
  }

  lemma {:induction false} WeightPositive(experts: seq<Expert>, id: string)
    requires forall i :: 0 <= i < |experts| ==> experts[i].weight > 0.0
    ensures WeightOf(experts, id) > 0.0
  {
    if experts != [] { WeightPositive(experts[1..], id); }
  }

  lemma {:induction false} WeightedBounds(experts: seq<Expert>, votes: seq<Vote>)
    requires forall i :: 0 <= i < |experts| ==> experts[i].weight > 0.0
    requires forall i :: 0 <= i < |votes| ==> 0.0 <= votes[i].score <= 1.0
    ensures 0.0 <= Weighted(experts, votes) <= Weight(experts, votes)
    ensures votes != [] ==> Weight(experts, votes) > 0.0
  {
    hide Scaled;
    hide WeightOf;
    if votes != [] {
      var v := votes[|votes| - 1];
      WeightedBounds(experts, votes[..|votes| - 1]);
      WeightPositive(experts, v.expertId);
      ScaledWithin(v.score, WeightOf(experts, v.expertId));
    }
  }

  lemma ScaledWithin(score: real, w: real)
    requires 0.0 <= score <= 1.0 && w > 0.0
    ensures 0.0 <= Scaled(score, w) <= w
  {
  }

  lemma MeanWithin(x: real, w: real)
    requires 0.0 <= x <= w && 0.0 < w
    ensures 0.0 <= x / w <= 1.0
  {
    assert (x / w) * w == x;
  }

  /** Consensus and approval rate of every proposal lie between 0 and 1 in every reachable run. */
  lemma ConsensusWithin(run: Run, proposalId: string)
    requires Inv(run)
    ensures var r := RankOf(run.experts, CurrentVotes(run), proposalId);
            0.0 <= r.consensus <= 1.0 && 0.0 <= r.approvalRate <= 1.0
  {
    hide Filter;
    hide Weight;
    hide Weighted;
    var mine := Filter(VotedFor(proposalId), CurrentVotes(run));
    FilterContents(VotedFor(proposalId), CurrentVotes(run));
    FilterContents(VotedIn(run.iteration), run.votes);
    FilterContents(Approving(), mine);
    forall i | 0 <= i < |mine| ensures 0.0 <= mine[i].score <= 1.0 {
      assert mine[i] in mine && mine[i] in run.votes;
      var k :| 0 <= k < |run.votes| && run.votes[k] == mine[i];
      assert VoteOk(run, run.votes[k]);
    }
    WeightedBounds(run.experts, mine);
    if Weight(run.experts, mine) != 0.0 { MeanWithin(Weighted(run.experts, mine), Weight(run.experts, mine)); }
    if mine != [] {
      MeanWithin(|Filter(Approving(), mine)| as real, |mine| as real);
    }
  }

  // ---------------------------------------------------------------- reading the log by pages

  ghost predicate Consecutive(events: seq<Event>) {
    forall i :: 0 <= i < |events| ==> events[i].number == events[0].number + i
  }

  /** In a consecutively numbered list, the events after a cursor are a suffix. */
  lemma {:induction false} AfterIsSuffix(events: seq<Event>, cursor: nat, k: nat)
    requires Consecutive(events) && k <= |events|
    requires forall i :: 0 <= i < |events| ==> (events[i].number > cursor <==> i >= k)
    ensures Filter(After(cursor), events) == events[k..]
  {
    if events != [] {
      var rest := events[1..];
      assert forall i :: 0 <= i < |rest| ==> rest[i] == events[i + 1];
      AfterIsSuffix(rest, cursor, if k == 0 then 0 else k - 1);
      if k == 0 {
        assert events == [events[0]] + rest && rest[0..] == rest && events[0..] == events;
      } else {
        assert events[k..] == rest[k - 1..];
      }
    }
  }

  /** How many retained events a reader at `cursor` has seen or lost. */
  ghost function Passed(run: Run, cursor: nat): nat {
    var first := run.revision - |run.events| + 1;
    if cursor < first then 0 else if cursor > run.revision then |run.events| else cursor - first + 1
  }

  lemma Pending(run: Run, cursor: nat)
    requires Logged(run)
    ensures Passed(run, cursor) <= |run.events|
    ensures Filter(After(cursor), run.events) == run.events[Passed(run, cursor)..]
  {
    AfterIsSuffix(run.events, cursor, Passed(run, cursor));
  }

  /** The page is the next events after the cursor, as many as there are up to the size asked for (a hundred
      if none is, two hundred at most), and more is said exactly when some are left. */
  lemma PageIs(run: Run, cursor: nat, limit: nat)
    requires Logged(run)
    ensures var page := EventsSince(run, cursor, limit);
            var size := if limit == 0 then 100 else if limit > 200 then 200 else limit;
            var k := Passed(run, cursor);
            var pending := |run.events| - k;
            && page.latest == run.revision && (page.more <==> pending > size)
            && |page.events| == (if pending > size then size else pending)
            && page.events == run.events[k..k + |page.events|]
            && Filter(After(cursor), run.events) == run.events[k..]
  {
    hide Filter;
    Pending(run, cursor);
  }

  /** The page that begins at position `k` ends where the page after its last event begins. */
  lemma NextPassed(run: Run, k: nat, n: nat)
    requires Logged(run) && n > 0 && k + n <= |run.events|
    ensures Passed(run, run.events[k + n - 1].number) == k + n
  {
  }

  /** Reading page after page, each from the number of the last event seen, misses nothing and repeats
      nothing: what a reader at the cursor has to come is this page followed by what is to come after it. */
  lemma PagesCover(run: Run, cursor: nat, limit: nat)
    requires Logged(run)
    ensures var page := EventsSince(run, cursor, limit);
            && (page.more ==> page.events != [])
            && (!page.more ==> page.events == Filter(After(cursor), run.events))
            && (page.events != [] ==>
                  && (cursor >= run.revision - |run.events| ==> page.events[0].number == cursor + 1)
                  && Filter(After(cursor), run.events)
                     == page.events + Filter(After(page.events[|page.events| - 1].number), run.events))
  {
    hide Filter;
    hide EventsSince;
    PageIs(run, cursor, limit);
    var page := EventsSince(run, cursor, limit);
    var k := Passed(run, cursor);
    if page.events != [] {
      NextPassed(run, k, |page.events|);
      Pending(run, page.events[|page.events| - 1].number);
      assert run.events[k..] == run.events[k..k + |page.events|] + run.events[k + |page.events|..];
    }
  }
}
