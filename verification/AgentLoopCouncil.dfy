/** The built-in runner's turns, and exactly when its council decides. */
module AgentLoopCouncil {
  import opened Prelude
  import opened StableSort
  import opened AgentLoop
  import opened AgentLoopInvariant

  // ---------------------------------------------------------------- discovery

  /** The lists of a generated proposal, and the evidence gathered for this turn. */
  const PLAN_ITEMS: nat := 3
  const RISK_ITEMS: nat := 1

  /** One proposal for each of the first `n` experts. */
  function ProposeAll(run: Run, n: nat, ids: nat -> string, evidence: nat): Result<Run, LoopError>
    requires n <= |run.experts|
    decreases n
  {
    if n == 0 then Ok(run)
    else
      match ProposeAll(run, n - 1, ids, evidence)
      case Err(e) => Err(e)
      case Ok(r) => Propose(r, ids(n - 1), run.experts[n - 1].id, true, PLAN_ITEMS, RISK_ITEMS, evidence)
  }

  /** What proposals and votes leave alone. */
  ghost predicate SameCouncil(run: Run, next: Run) {
    && next.experts == run.experts && next.iteration == run.iteration && next.maxIterations == run.maxIterations
    && next.minVotes == run.minVotes && next.threshold == run.threshold && next.binding == run.binding
    && next.state == run.state && next.acceptance == run.acceptance
  }

  lemma ExpertIsExpert(experts: seq<Expert>, i: nat)
    requires i < |experts|
    ensures IsExpert(experts, experts[i].id)
  {
  }

  /** Discovery always ends in the council phase of the same iteration. */
  lemma {:induction false} DiscoverySucceeds(run: Run, n: nat, ids: nat -> string, evidence: nat)
    requires Inv(run) && run.state == Running && run.phase in {Discovery, Council} && n <= |run.experts|
    ensures var r := ProposeAll(run, n, ids, evidence);
            && r.Ok? && Inv(r.value) && SameCouncil(run, r.value)
            && (r.value.phase == if n == 0 then run.phase else Council)
            && |r.value.proposals| == |run.proposals| + n
  {
    hide Inv;
    hide IsExpert;
    if n > 0 {
      DiscoverySucceeds(run, n - 1, ids, evidence);
      var r := ProposeAll(run, n - 1, ids, evidence).value;
      ExpertIsExpert(run.experts, n - 1);
      ProposeKeepsInv(r, ids(n - 1), run.experts[n - 1].id, PLAN_ITEMS, RISK_ITEMS, evidence);
    }
  }

  /** It proposes for every expert in order, in the iteration, with the same evidence. */
  lemma {:induction false} DiscoveryProposes(run: Run, n: nat, ids: nat -> string, evidence: nat)
    requires Inv(run) && run.state == Running && run.phase in {Discovery, Council} && n <= |run.experts|
    ensures var r := ProposeAll(run, n, ids, evidence);
            && r.Ok? && |r.value.proposals| == |run.proposals| + n
            && (forall i :: 0 <= i < |run.proposals| ==> r.value.proposals[i] == run.proposals[i])
            && forall i :: 0 <= i < n ==>
                 r.value.proposals[|run.proposals| + i]
                     == Proposal(ids(i), run.iteration, run.experts[i].id, 3, 1, evidence)
  {
    hide Inv;
    hide Propose;
    DiscoverySucceeds(run, n, ids, evidence);
    if n > 0 {
      DiscoverySucceeds(run, n - 1, ids, evidence);
      DiscoveryProposes(run, n - 1, ids, evidence);
      ProposeAdds(ProposeAll(run, n - 1, ids, evidence).value, ids(n - 1), run.experts[n - 1].id, evidence);
    }
  }

  lemma ProposeAdds(run: Run, id: string, expertId: string, evidence: nat)
    ensures var r := Propose(run, id, expertId, true, PLAN_ITEMS, RISK_ITEMS, evidence);
            r.Ok? ==> r.value.proposals == run.proposals + [Proposal(id, run.iteration, expertId, 3, 1, evidence)]
  {
    hide AddEvent;
    hide IsExpert;
  }

  // ---------------------------------------------------------------- the council's votes

  function Affinity(experts: seq<Expert>, p: Proposal): real {
    (p.evidence * 2 + p.plan - p.risks) as real + WeightOf(experts, p.expertId)
  }

  function ByAffinity(experts: seq<Expert>): Compare<Proposal> {
    (a, b) => Affinity(experts, a) >= Affinity(experts, b)
  }

  /** The proposal the runner votes for. */
  function Choice(run: Run): Proposal
    requires CurrentProposals(run) != []
  {
    Sort(ByAffinity(run.experts), CurrentProposals(run))[0]
  }

  function Score(expert: Expert, choice: Proposal): real { if expert.id == choice.expertId then 0.92 else 0.82 }

  /** The first `n` experts' votes. */
  function Ballot(run: Run, choice: Proposal, n: nat): Result<Run, LoopError>
    requires n <= |run.experts|
    decreases n
  {
    if n == 0 then Ok(run)
    else
      match Ballot(run, choice, n - 1)
      case Err(e) => Err(e)
      case Ok(r) => CastVote(r, run.experts[n - 1].id, choice.id, Score(run.experts[n - 1], choice), true)
  }

  function RunnerCouncil(run: Run): Result<Run, LoopError> {
    if CurrentProposals(run) == [] then Err(NoProposals)
    else
      match Ballot(run, Choice(run), |run.experts|)
      case Err(e) => Err(e)
      case Ok(r) => Decide(r)
  }

  // ---------------------------------------------------------------- what the votes amount to

  lemma {:induction false} FilterCommutes<T>(p: T -> bool, q: T -> bool, s: seq<T>)
    ensures Filter(p, Filter(q, s)) == Filter(q, Filter(p, s))
  {
    if s != [] {
      FilterCommutes(p, q, s[1..]);
      if p(s[0]) { FilterCons(q, s[0], Filter(p, s[1..])); }
      if q(s[0]) { FilterCons(p, s[0], Filter(q, s[1..])); }
    }
  }

  lemma {:induction false} FilterAll<T>(p: T -> bool, s: seq<T>)
    requires forall i :: 0 <= i < |s| ==> p(s[i])
    ensures Filter(p, s) == s
  {
    if s != [] { FilterAll(p, s[1..]); }
  }

  lemma {:induction false} FilterNone<T>(p: T -> bool, s: seq<T>)
    requires forall i :: 0 <= i < |s| ==> !p(s[i])
    ensures Filter(p, s) == []
  {
    if s != [] { FilterNone(p, s[1..]); }
  }

  /** The vote the runner casts for expert `i`. */
  function NewVote(run: Run, choice: Proposal, i: nat): Vote
    requires i < |run.experts|
  {
    Vote(run.iteration, run.experts[i].id, choice.id, Score(run.experts[i], choice), true)
  }

  function NewVotes(run: Run, choice: Proposal, n: nat): (r: seq<Vote>)
    requires n <= |run.experts|
    ensures |r| == n && forall i :: 0 <= i < n ==> r[i] == NewVote(run, choice, i)
  {
    seq(n, i requires 0 <= i < n => NewVote(run, choice, i))
  }

  lemma CurrentAfterCast(votes: seq<Vote>, v: Vote)
    ensures Filter(VotedIn(v.iteration), Filter(NotBy(v.iteration, v.expertId), votes) + [v])
         == Filter(NotBy(v.iteration, v.expertId), Filter(VotedIn(v.iteration), votes)) + [v]
  {
    FilterConcat(VotedIn(v.iteration), Filter(NotBy(v.iteration, v.expertId), votes), [v]);
    FilterCommutes(VotedIn(v.iteration), NotBy(v.iteration, v.expertId), votes);
    FilterAll(VotedIn(v.iteration), [v]);
  }

  /** Casting a vote when earlier votes are `earlier` and then votes by other experts. */
  lemma CastOnto(earlier: seq<Vote>, cast: seq<Vote>, v: Vote)
    requires forall i :: 0 <= i < |cast| ==> cast[i].expertId != v.expertId
    ensures Filter(NotBy(v.iteration, v.expertId), earlier + cast)
         == Filter(NotBy(v.iteration, v.expertId), earlier) + cast
  {
    FilterConcat(NotBy(v.iteration, v.expertId), earlier, cast);
    FilterAll(NotBy(v.iteration, v.expertId), cast);
  }

  /** Earlier votes of this iteration by experts still to be asked. */
  ghost predicate OldVotes(run: Run, n: nat, earlier: seq<Vote>)
    requires n <= |run.experts|
  {
    forall v <- earlier :: v.iteration == run.iteration && IsExpert(run.experts, v.expertId)
        && forall k :: 0 <= k < n ==> run.experts[k].id != v.expertId
  }

  lemma OldVotesStep(run: Run, n: nat, earlier: seq<Vote>)
    requires 0 < n <= |run.experts| && OldVotes(run, n - 1, earlier)
    ensures OldVotes(run, n, Filter(NotBy(run.iteration, run.experts[n - 1].id), earlier))
  {
    FilterContents(NotBy(run.iteration, run.experts[n - 1].id), earlier);
  }

  lemma OldVotesStart(run: Run)
    requires Inv(run)
    ensures OldVotes(run, 0, CurrentVotes(run))
  {
    hide Filter;
    hide HasProposal;
    hide IsExpert;
    FilterContents(VotedIn(run.iteration), run.votes);
    forall v | v in CurrentVotes(run) ensures v.iteration == run.iteration && IsExpert(run.experts, v.expertId) {
      var k :| 0 <= k < |run.votes| && run.votes[k] == v;
      assert VoteOk(run, run.votes[k]);
    }
  }

  function First(votes: seq<Vote>): (r: Option<Vote>)
    ensures r.Some? ==> r.value in votes
    ensures r.None? <==> votes == []
  {
    if votes == [] then None else Some(votes[0])
  }

  lemma OldVotesEnd(run: Run, earlier: seq<Vote>)
    requires OldVotes(run, |run.experts|, earlier)
    ensures earlier == []
  {
    var first := First(earlier);
  }

  lemma {:induction false} BallotVotes(run: Run, choice: Proposal, n: nat) returns (earlier: seq<Vote>)
    requires Inv(run) && run.state == Running && run.phase == Council && choice in CurrentProposals(run)
             && n <= |run.experts|
    ensures var r := Ballot(run, choice, n);
            && r.Ok? && Inv(r.value) && SameCouncil(run, r.value) && r.value.phase == Council
            && r.value.proposals == run.proposals
            && CurrentVotes(r.value) == earlier + NewVotes(run, choice, n) && OldVotes(run, n, earlier)
  {
    hide Inv;
    hide Filter;
    hide IsExpert;
    hide HasProposal;
    if n == 0 {
      earlier := CurrentVotes(run);
      OldVotesStart(run);
    } else {
      var before := BallotVotes(run, choice, n - 1);
      var r := Ballot(run, choice, n - 1).value;
      var v := NewVote(run, choice, n - 1);
      ExpertIsExpert(run.experts, n - 1);
      CurrentProposalExists(run, choice);
      CastKeepsInv(r, v.expertId, v.proposalId, v.score, v.approve);
      CurrentAfterCast(r.votes, v);
      ExpertsDiffer(run, n);
      CastOnto(before, NewVotes(run, choice, n - 1), v);
      OldVotesStep(run, n, before);
      earlier := Filter(NotBy(v.iteration, v.expertId), before);
      assert NewVotes(run, choice, n) == NewVotes(run, choice, n - 1) + [v];
    }
  }

  lemma ExpertsDiffer(run: Run, n: nat)
    requires Inv(run) && 0 < n <= |run.experts|
    ensures forall i :: 0 <= i < n - 1 ==> run.experts[i].id != run.experts[n - 1].id
  {
  }

  /** After the runner's ballot the iteration's votes are one vote of each expert, all for its choice. */
  lemma FullBallot(run: Run, choice: Proposal)
    requires Inv(run) && run.state == Running && run.phase == Council && choice in CurrentProposals(run)
    ensures var r := Ballot(run, choice, |run.experts|);
            && r.Ok? && Inv(r.value) && SameCouncil(run, r.value) && r.value.phase == Council
               && r.value.proposals == run.proposals
            && CurrentVotes(r.value) == NewVotes(run, choice, |run.experts|)
  {
    hide Inv;
    hide Filter;
    hide Ballot;
    var earlier := BallotVotes(run, choice, |run.experts|);
    OldVotesEnd(run, earlier);
    assert [] + NewVotes(run, choice, |run.experts|) == NewVotes(run, choice, |run.experts|);
  }

  // ---------------------------------------------------------------- their weighted mean

  /** The weight of the first `n` experts together. */
  function TotalWeight(experts: seq<Expert>, n: nat): real
    requires n <= |experts|
  {
    if n == 0 then 0.0 else TotalWeight(experts, n - 1) + experts[n - 1].weight
  }

  lemma {:induction false} OwnWeight(experts: seq<Expert>, i: nat)
    requires i < |experts| && DistinctIds(experts)
    ensures WeightOf(experts, experts[i].id) == experts[i].weight
  {
    if i > 0 {
      assert experts[1..][i - 1] == experts[i];
      OwnWeight(experts[1..], i - 1);
    }
  }

  lemma {:induction false} BallotWeights(run: Run, choice: Proposal, k: nat, n: nat)
    requires DistinctIds(run.experts) && k < |run.experts| && run.experts[k].id == choice.expertId && n <= |run.experts|
    ensures Weight(run.experts, NewVotes(run, choice, n)) == TotalWeight(run.experts, n)
    ensures Weighted(run.experts, NewVotes(run, choice, n))
         == 0.82 * TotalWeight(run.experts, n) + (if k < n then 0.1 * run.experts[k].weight else 0.0)
  {
    hide WeightOf;
    if n > 0 {
      BallotWeights(run, choice, k, n - 1);
      var votes := NewVotes(run, choice, n);
      assert votes[..n - 1] == NewVotes(run, choice, n - 1);
      OwnWeight(run.experts, n - 1);
      assert votes[n - 1] == NewVote(run, choice, n - 1);
    }
  }

  lemma {:induction false} TotalPositive(experts: seq<Expert>, n: nat)
    requires n <= |experts| && forall i :: 0 <= i < |experts| ==> experts[i].weight > 0.0
    ensures TotalWeight(experts, n) >= 0.0 && (n > 0 ==> TotalWeight(experts, n) > 0.0)
  {
    if n > 0 { TotalPositive(experts, n - 1); }
  }

  /** The consensus on the runner's choice. */
  ghost function ChoiceConsensus(run: Run, k: nat): real
    requires k < |run.experts| && TotalWeight(run.experts, |run.experts|) != 0.0
  {
    0.82 + 0.1 * run.experts[k].weight / TotalWeight(run.experts, |run.experts|)
  }

  lemma MeanSplits(total: real, w: real)
    requires total != 0.0
    ensures (0.82 * total + 0.1 * w) / total == 0.82 + 0.1 * w / total
  {
    var q := 0.1 * w / total;
    assert q * total == 0.1 * w;
    Divides(0.82 + q, total, 0.82 * total + 0.1 * w);
  }

  lemma Divides(a: real, b: real, c: real)
    requires b != 0.0 && c == a * b
    ensures c / b == a
  {
  }

  lemma BallotRanks(run: Run, choice: Proposal, k: nat, id: string)
    requires Inv(run) && k < |run.experts| && run.experts[k].id == choice.expertId
    ensures TotalWeight(run.experts, |run.experts|) > 0.0
    ensures RankOf(run.experts, NewVotes(run, choice, |run.experts|), id)
         == if id == choice.id then Rank(id, ChoiceConsensus(run, k), 1.0, |run.experts|) else Rank(id, 0.0, 0.0, 0)
  {
    hide RankOf;
    hide NewVotes;
    SetupOf(run);
    TotalPositive(run.experts, |run.experts|);
    if id == choice.id { ChoiceRank(run, choice, k); } else { OtherRank(run, choice, id); }
  }

  lemma SetupOf(run: Run)
    requires Inv(run)
    ensures |run.experts| >= 2 && DistinctIds(run.experts)
    ensures forall i :: 0 <= i < |run.experts| ==> run.experts[i].weight > 0.0
  {
  }

  lemma ChoiceConsensusIs(run: Run, choice: Proposal, k: nat)
    requires DistinctIds(run.experts) && k < |run.experts| && run.experts[k].id == choice.expertId
    requires TotalWeight(run.experts, |run.experts|) > 0.0
    ensures Consensus(run.experts, NewVotes(run, choice, |run.experts|)) == ChoiceConsensus(run, k)
  {
    hide Weight;
    hide Weighted;
    hide TotalWeight;
    hide NewVotes;
    BallotWeights(run, choice, k, |run.experts|);
    MeanSplits(TotalWeight(run.experts, |run.experts|), run.experts[k].weight);
  }

  lemma AllApprove(run: Run, choice: Proposal)
    requires |run.experts| > 0
    ensures ApprovalRate(NewVotes(run, choice, |run.experts|)) == 1.0
  {
    hide Filter;
    var votes := NewVotes(run, choice, |run.experts|);
    FilterAll(Approving(), votes);
    Divides(1.0, |votes| as real, |votes| as real);
  }

  lemma ChoiceRank(run: Run, choice: Proposal, k: nat)
    requires DistinctIds(run.experts) && k < |run.experts| && run.experts[k].id == choice.expertId
    requires TotalWeight(run.experts, |run.experts|) > 0.0
    ensures RankOf(run.experts, NewVotes(run, choice, |run.experts|), choice.id)
         == Rank(choice.id, ChoiceConsensus(run, k), 1.0, |run.experts|)
  {
    hide Consensus;
    hide ApprovalRate;
    hide ChoiceConsensus;
    hide Filter;
    FilterAll(VotedFor(choice.id), NewVotes(run, choice, |run.experts|));
    ChoiceConsensusIs(run, choice, k);
    AllApprove(run, choice);
  }

  lemma OtherRank(run: Run, choice: Proposal, id: string)
    requires id != choice.id
    ensures RankOf(run.experts, NewVotes(run, choice, |run.experts|), id) == Rank(id, 0.0, 0.0, 0)
  {
    hide Weight;
    hide Weighted;
    hide Filter;
    FilterNone(VotedFor(id), NewVotes(run, choice, |run.experts|));
    NoVotes(run.experts);
  }

  lemma NoVotes(experts: seq<Expert>)
    ensures Weight(experts, []) == 0.0 && Filter(Approving(), []) == []
  {
  }

  lemma ChoiceExpert(run: Run) returns (k: nat)
    requires Inv(run) && CurrentProposals(run) != []
    ensures Choice(run) in CurrentProposals(run)
    ensures k < |run.experts| && run.experts[k].id == Choice(run).expertId
  {
    hide Filter;
    hide Sort;
    hide VoteOk;
    SortContents(ByAffinity(run.experts), CurrentProposals(run));
    assert Choice(run) in multiset(Sort(ByAffinity(run.experts), CurrentProposals(run)));
    assert Choice(run) in multiset(CurrentProposals(run));
    assert Choice(run) in CurrentProposals(run);
    FilterContents(ProposedIn(run.iteration), run.proposals);
    var i :| 0 <= i < |run.proposals| && run.proposals[i] == Choice(run);
    assert IsExpert(run.experts, run.proposals[i].expertId);
    k :| 0 <= k < |run.experts| && run.experts[k].id == run.proposals[i].expertId;
  }

  /** The runner's choice has the most evidence, plan and weight and the fewest risks among the current
      proposals, and more than every earlier one. */
  lemma ChoiceIsBest(run: Run) returns (k: nat)
    requires CurrentProposals(run) != []
    ensures k < |CurrentProposals(run)| && Choice(run) == CurrentProposals(run)[k]
    ensures forall i :: 0 <= i < |CurrentProposals(run)| ==>
              Merit(run.experts, CurrentProposals(run)[i]) <= Merit(run.experts, Choice(run))
    ensures forall i :: 0 <= i < k ==> Merit(run.experts, CurrentProposals(run)[i]) < Merit(run.experts, Choice(run))
  {
    hide Filter;
    hide Sort;
    hide WeightOf;
    var ps, order := CurrentProposals(run), ByAffinity(run.experts);
    AffinityTotal(run.experts);
    k := SortFirst(order, ps);
    assert forall i :: 0 <= i < |ps| ==>
           order(ps[k], ps[i]) == (Affinity(run.experts, ps[k]) >= Affinity(run.experts, ps[i]));
    assert forall i :: 0 <= i < k ==>
           order(ps[i], ps[k]) == (Affinity(run.experts, ps[i]) >= Affinity(run.experts, ps[k]));
    forall i | 0 <= i < |ps| ensures Affinity(run.experts, ps[i]) == Merit(run.experts, ps[i]) { }
  }

  function Merit(experts: seq<Expert>, p: Proposal): real {
    2.0 * p.evidence as real + p.plan as real - p.risks as real + WeightOf(experts, p.expertId)
  }

  lemma AffinityTotal(experts: seq<Expert>)
    ensures Total(ByAffinity(experts))
  {
    hide WeightOf;
  }

  /** With one vote of every expert for one proposal, that proposal leads the ranking. */
  lemma ChoiceLeads(run: Run, r: Run, k: nat)
    requires Inv(run) && CurrentProposals(run) != []
    requires Choice(run) in CurrentProposals(run) && k < |run.experts| && run.experts[k].id == Choice(run).expertId
    requires SameCouncil(run, r) && r.proposals == run.proposals
    requires CurrentVotes(r) == NewVotes(run, Choice(run), |run.experts|)
    ensures TotalWeight(run.experts, |run.experts|) > 0.0
    ensures Ranked(r) != [] && Ranked(r)[0] == Rank(Choice(run).id, ChoiceConsensus(run, k), 1.0, |run.experts|)
  {
    hide RankOf;
    hide Filter;
    hide Sort;
    hide Inv;
    var choice := Choice(run);
    var ranks := Ranks(r.experts, CurrentVotes(r), CurrentProposals(r));
    ByRankTotal();
    var j := SortFirst(ByRank(), ranks);
    var i :| 0 <= i < |CurrentProposals(run)| && CurrentProposals(run)[i] == choice;
    BallotRanks(run, choice, k, choice.id);
    BallotRanks(run, choice, k, CurrentProposals(run)[j].id);
    ConsensusPositive(run, k);
    assert ByRank()(ranks[j], ranks[i]) == Ahead(ranks[j], ranks[i]);
  }

  lemma ConsensusPositive(run: Run, k: nat)
    requires Inv(run) && k < |run.experts| && TotalWeight(run.experts, |run.experts|) > 0.0
    ensures ChoiceConsensus(run, k) > 0.82
  {
    hide TotalWeight;
    QuotientPositive(0.1 * run.experts[k].weight, TotalWeight(run.experts, |run.experts|));
  }

  lemma QuotientPositive(a: real, b: real)
    requires a > 0.0 && b > 0.0
    ensures a / b > 0.0
  {
    assert (a / b) * b == a;
  }

  /** The runner's council decides exactly when the weighted mean of its votes, 0.82 plus a tenth of the
      chosen proposer's share of the weight, reaches the threshold: always when the threshold is at
      most 0.82. The quorum is never what fails, and the decision is for the runner's choice. */
  lemma CouncilDecidesIff(run: Run) returns (k: nat)
    requires Inv(run) && run.state == Running && run.phase == Council
    ensures CurrentProposals(run) != [] && k < |run.experts| && run.experts[k].id == Choice(run).expertId
    ensures TotalWeight(run.experts, |run.experts|) > 0.0
    ensures RunnerCouncil(run).Ok? <==> run.threshold <= ChoiceConsensus(run, k)
    ensures RunnerCouncil(run).Err? ==> RunnerCouncil(run) == Err(NoConsensus)
    ensures run.threshold <= 0.82 ==> RunnerCouncil(run).Ok?
    ensures RunnerCouncil(run).Ok? ==>
              var next := RunnerCouncil(run).value;
              Inv(next) && SameCouncil(run, next) && next.phase == Implementation
              && next.decision.Some? && next.decision.value.winner.proposalId == Choice(run).id
  {
    hide Filter;
    hide Sort;
    hide Ballot;
    hide Ranked;
    hide AddEvent;
    CouncilHasProposals(run);
    k := ChoiceExpert(run);
    FullBallot(run, Choice(run));
    var r := Ballot(run, Choice(run), |run.experts|).value;
    ChoiceLeads(run, r, k);
    ConsensusPositive(run, k);
    assert CurrentProposals(r) == CurrentProposals(run);
    EnoughVotes(run);
    if Decide(r).Ok? { DecideKeepsInv(r); }
  }

  lemma CouncilHasProposals(run: Run)
    requires Inv(run) && run.state == Running && run.phase == Council
    ensures CurrentProposals(run) != []
  {
  }

  lemma EnoughVotes(run: Run)
    requires Inv(run)
    ensures run.minVotes <= |run.experts|
  {
  }
}
