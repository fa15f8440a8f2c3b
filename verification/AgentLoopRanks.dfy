/** What a proposal's rank means: means over the experts, each with at most one vote. */
module AgentLoopRanks {
  import opened Prelude
  import opened StableSort
  import opened AgentLoop
  import opened AgentLoopInvariant

  // ---------------------------------------------------------------- sums over experts and over votes

  type Measured = (Expert, Vote) -> real

  /** The expert's vote among these, if any. */
  function VoteOf(votes: seq<Vote>, id: string): Option<Vote> {
    if votes == [] then None
    else if votes[|votes| - 1].expertId == id then Some(votes[|votes| - 1])
    else VoteOf(votes[..|votes| - 1], id)
  }

  /** The sum over the experts who voted. */
  function OverExperts(experts: seq<Expert>, votes: seq<Vote>, f: Measured): real {
    if experts == [] then 0.0
    else
      (match VoteOf(votes, experts[0].id) case None => 0.0 case Some(v) => f(experts[0], v))
      + OverExperts(experts[1..], votes, f)
  }

  lemma {:induction false} OthersUnmoved(experts: seq<Expert>, votes: seq<Vote>, v: Vote, f: Measured)
    requires forall i :: 0 <= i < |experts| ==> experts[i].id != v.expertId
    ensures OverExperts(experts, votes + [v], f) == OverExperts(experts, votes, f)
  {
    if experts != [] {
      assert (votes + [v])[..|votes|] == votes;
      OthersUnmoved(experts[1..], votes, v, f);
    }
  }

  /** One more vote, by an expert with none, adds that expert's term. */
  lemma {:induction false} OneMoreVote(experts: seq<Expert>, votes: seq<Vote>, v: Vote, k: nat, f: Measured)
    requires DistinctIds(experts) && k < |experts| && experts[k].id == v.expertId && VoteOf(votes, v.expertId).None?
    ensures OverExperts(experts, votes + [v], f) == OverExperts(experts, votes, f) + f(experts[k], v)
  {
    assert (votes + [v])[..|votes|] == votes;
    if k == 0 {
      OthersUnmoved(experts[1..], votes, v, f);
    } else {
      assert experts[1..][k - 1] == experts[k];
      OneMoreVote(experts[1..], votes, v, k - 1, f);
    }
  }

  lemma {:induction false} NoVoteOf(votes: seq<Vote>, id: string)
    requires forall i :: 0 <= i < |votes| ==> votes[i].expertId != id
    ensures VoteOf(votes, id).None?
  {
    if votes != [] { NoVoteOf(votes[..|votes| - 1], id); }
  }

  lemma {:induction false} NothingSummed(experts: seq<Expert>, f: Measured)
    ensures OverExperts(experts, [], f) == 0.0
  {
    if experts != [] { NothingSummed(experts[1..], f); }
  }

  /** Each expert of a list votes at most once. */
  ghost predicate Single(experts: seq<Expert>, votes: seq<Vote>) {
    && (forall i, j :: 0 <= i < j < |votes| ==> votes[i].expertId != votes[j].expertId)
    && (forall i :: 0 <= i < |votes| ==> IsExpert(experts, votes[i].expertId))
  }

  /** The last of the votes, and its expert. */
  lemma LastVote(experts: seq<Expert>, votes: seq<Vote>, f: Measured) returns (k: nat)
    requires DistinctIds(experts) && Single(experts, votes) && votes != []
    ensures k < |experts| && experts[k].id == votes[|votes| - 1].expertId && Single(experts, votes[..|votes| - 1])
    ensures OverExperts(experts, votes, f) == OverExperts(experts, votes[..|votes| - 1], f)
            + f(experts[k], votes[|votes| - 1])
    ensures WeightOf(experts, votes[|votes| - 1].expertId) == experts[k].weight
  {
    var before, v := votes[..|votes| - 1], votes[|votes| - 1];
    assert IsExpert(experts, v.expertId);
    k :| 0 <= k < |experts| && experts[k].id == v.expertId;
    forall i | 0 <= i < |before| ensures before[i].expertId != v.expertId { assert votes[i] == before[i]; }
    NoVoteOf(before, v.expertId);
    OneMoreVote(experts, before, v, k, f);
    assert votes == before + [v];
    OwnWeightAt(experts, k);
  }

  lemma {:induction false} OwnWeightAt(experts: seq<Expert>, i: nat)
    requires i < |experts| && DistinctIds(experts)
    ensures WeightOf(experts, experts[i].id) == experts[i].weight
  {
    if i > 0 {
      assert experts[1..][i - 1] == experts[i];
      OwnWeightAt(experts[1..], i - 1);
    }
  }

  function Weights(): Measured { (e: Expert, v: Vote) => e.weight }

  function WeightedScores(): Measured { (e: Expert, v: Vote) => Scaled(v.score, e.weight) }

  function Ones(): Measured { (e: Expert, v: Vote) => 1.0 }

  function Approvals(): Measured { (e: Expert, v: Vote) => if v.approve then 1.0 else 0.0 }

  lemma ApprovingSnoc(votes: seq<Vote>)
    requires votes != []
    ensures |Filter(Approving(), votes)| == |Filter(Approving(), votes[..|votes| - 1])|
            + (if votes[|votes| - 1].approve then 1 else 0)
  {
    var last := [votes[|votes| - 1]];
    assert votes == votes[..|votes| - 1] + last && last[1..] == [];
    FilterConcat(Approving(), votes[..|votes| - 1], last);
  }

  lemma {:induction false} SumsAgree(experts: seq<Expert>, votes: seq<Vote>)
    requires DistinctIds(experts) && Single(experts, votes)
    ensures Weight(experts, votes) == OverExperts(experts, votes, Weights())
    ensures Weighted(experts, votes) == OverExperts(experts, votes, WeightedScores())
    ensures |votes| as real == OverExperts(experts, votes, Ones())
    ensures |Filter(Approving(), votes)| as real == OverExperts(experts, votes, Approvals())
  {
    if votes == [] {
      NothingSummed(experts, Weights());
      NothingSummed(experts, WeightedScores());
      NothingSummed(experts, Ones());
      NothingSummed(experts, Approvals());
    } else {
      hide Filter;
      hide WeightOf;
      hide OverExperts;
      hide Single;
      hide DistinctIds;
      hide Scaled;
      var a := LastVote(experts, votes, Weights());
      var b := LastVote(experts, votes, WeightedScores());
      var c := LastVote(experts, votes, Ones());
      var d := LastVote(experts, votes, Approvals());
      SumsAgree(experts, votes[..|votes| - 1]);
      ApprovingSnoc(votes);
    }
  }

  // ---------------------------------------------------------------- ranks

  /** The current votes for a proposal. */
  function VotesFor(run: Run, id: string): seq<Vote> { Filter(VotedFor(id), CurrentVotes(run)) }

  lemma {:induction false} FilterSingle(p: Vote -> bool, s: seq<Vote>)
    requires forall i, j :: 0 <= i < j < |s| ==> s[i].expertId != s[j].expertId
    ensures forall i, j :: 0 <= i < j < |Filter(p, s)| ==> Filter(p, s)[i].expertId != Filter(p, s)[j].expertId
  {
    if s != [] {
      var rest := Filter(p, s[1..]);
      FilterSingle(p, s[1..]);
      FilterContents(p, s[1..]);
      forall j | 0 <= j < |rest| ensures s[0].expertId != rest[j].expertId {
        assert rest[j] in rest;
        var k :| 0 <= k < |s[1..]| && s[1..][k] == rest[j];
      }
    }
  }

  lemma CurrentSingle(run: Run, id: string)
    requires Inv(run)
    ensures DistinctIds(run.experts) && Single(run.experts, VotesFor(run, id))
    ensures forall v :: v in VotesFor(run, id) <==> v in run.votes && v.iteration == run.iteration && v.proposalId == id
  {
    hide Filter;
    hide HasProposal;
    var votes := CurrentVotes(run);
    FilterContents(VotedIn(run.iteration), run.votes);
    FilterOneVote(VotedIn(run.iteration), run.votes);
    assert forall i :: 0 <= i < |votes| ==> votes[i] in votes;
    FilterSingle(VotedFor(id), votes);
    FilterContents(VotedFor(id), votes);
    var mine := VotesFor(run, id);
    forall i | 0 <= i < |mine| ensures IsExpert(run.experts, mine[i].expertId) {
      assert mine[i] in mine;
      var k :| 0 <= k < |run.votes| && run.votes[k] == mine[i];
      assert VoteOk(run, run.votes[k]);
    }
  }

  /** A proposal's rank, as means over the experts whose current vote is for it: the consensus is the
      mean of their scores by weight, the approval rate the share of those who approve, and the count
      their number; with no such expert consensus and rate are zero. */
  lemma RankMeans(run: Run, id: string)
    requires Inv(run)
    ensures var r := RankOf(run.experts, CurrentVotes(run), id);
            var votes := VotesFor(run, id);
            && (forall v :: v in votes <==> v in run.votes && v.iteration == run.iteration && v.proposalId == id)
            && r.proposalId == id && r.voteCount as real == OverExperts(run.experts, votes, Ones())
            && r.consensus * OverExperts(run.experts, votes, Weights())
               == OverExperts(run.experts, votes, WeightedScores())
            && r.approvalRate * OverExperts(run.experts, votes, Ones()) == OverExperts(run.experts, votes, Approvals())
            && (r.voteCount == 0 ==> r.consensus == 0.0 && r.approvalRate == 0.0)
            && (r.voteCount > 0 ==> OverExperts(run.experts, votes, Weights()) > 0.0)
  {
    hide Filter;
    hide Single;
    hide OverExperts;
    var votes := VotesFor(run, id);
    CurrentSingle(run, id);
    SumsAgree(run.experts, votes);
    VotesPositive(run, votes);
    NoVotesNoRank(run.experts, votes);
    if votes != [] {
      Quotient(Weighted(run.experts, votes), Weight(run.experts, votes));
      Quotient(|Filter(Approving(), votes)| as real, |votes| as real);
    }
  }

  lemma Quotient(a: real, b: real)
    requires b != 0.0
    ensures (a / b) * b == a
  {
  }

  lemma NoVotesNoRank(experts: seq<Expert>, votes: seq<Vote>)
    ensures votes == [] ==>
            Weight(experts, votes) == 0.0 && Weighted(experts, votes) == 0.0 && |Filter(Approving(), votes)| == 0
  {
  }

  lemma VotesPositive(run: Run, votes: seq<Vote>)
    requires Inv(run)
    ensures votes != [] ==> Weight(run.experts, votes) > 0.0
  {
    hide Ballots;
    hide DecisionOk;
    WeightAdds(run.experts, votes);
  }

  lemma {:induction false} WeightAdds(experts: seq<Expert>, votes: seq<Vote>)
    requires forall i :: 0 <= i < |experts| ==> experts[i].weight > 0.0
    ensures Weight(experts, votes) >= 0.0 && (votes != [] ==> Weight(experts, votes) > 0.0)
  {
    if votes != [] {
      WeightAdds(experts, votes[..|votes| - 1]);
      WeightPositive(experts, votes[|votes| - 1].expertId);
    }
  }
}
