/** The agent-loop manager's transitions on one run. Scores and weights are exact reals; texts that no
    branch looks at are left out. */
module AgentLoop {
  import opened Prelude
  import opened StableSort

  datatype Phase =
    | Discovery | Council | Implementation | Verification
    | CompletedPhase | PausedPhase | FailedPhase | CancelledPhase

  datatype State = Created | Running | Paused | Completed | Failed | Cancelled

  datatype Expert = Expert(id: string, role: string, weight: real)

  /** The lists of a proposal, by length. */
  datatype Proposal = Proposal(id: string, iteration: nat, expertId: string, plan: nat, risks: nat, evidence: nat)

  datatype Vote = Vote(iteration: nat, expertId: string, proposalId: string, score: real, approve: bool)

  datatype Rank = Rank(proposalId: string, consensus: real, approvalRate: real, voteCount: nat)

  datatype Decision = Decision(winner: Rank, ranked: seq<Rank>)

  datatype Status = StatusRunning | StatusCompleted | StatusBlocked

  datatype Criterion = Criterion(name: string, passed: bool)

  datatype Check = Check(passed: bool, criteria: seq<Criterion>)

  datatype Event = Event(number: nat, phase: Phase, iteration: nat)

  datatype Binding = Binding(owner: string, client: Option<string>, session: Option<string>, job: Option<string>)

  datatype Principal = Principal(id: string, admin: bool, client: Option<string>, session: Option<string>,
                                 job: Option<string>)

  datatype Run = Run(
    revision: nat, binding: Binding, acceptance: seq<string>, experts: seq<Expert>,
    minVotes: int, threshold: real, maxIterations: int, iteration: nat,
    phase: Phase, state: State, proposals: seq<Proposal>, votes: seq<Vote>, events: seq<Event>,
    decision: Option<Decision>, implementation: Option<Status>, verification: Option<Check>, claimed: Option<string>)

  datatype LoopError =
    | TitleMissing | NoCriteria | TooFewExperts | DuplicateExpert
    | NotFound | AccessDenied | IsTerminal | BadKey | OtherKey
    | WrongPhase | UnknownExpert | SummaryMissing | UnknownProposal | BadScore
    | NoProposals | NoQuorum | NoConsensus | ToolFailed

  const MAX_EVENTS: nat := 500

  // ---------------------------------------------------------------- creation

  datatype Input = Input(
    titled: bool, acceptance: seq<string>, experts: seq<Expert>,
    minVotes: Option<real>, threshold: Option<real>, maxIterations: Option<real>)

  function DefaultExperts(): seq<Expert> {
    [Expert("architect", "architecture and systems design", 1.2),
     Expert("security", "security and threat modeling", 1.2),
     Expert("implementer", "implementation and maintainability", 1.0), Expert("qa", "testing and verification", 1.0)]
  }

  function Usable(): Expert -> bool { (e: Expert) => e.id != [] && e.role != [] && e.weight > 0.0 }

  function Experts(input: Input): seq<Expert> {
    Filter(Usable(), if input.experts == [] then DefaultExperts() else input.experts)
  }

  function NonEmpty(): string -> bool { (s: string) => s != [] }

  function Criteria(input: Input): seq<string> { Filter(NonEmpty(), input.acceptance) }

  predicate DistinctIds(experts: seq<Expert>) {
    forall i, j :: 0 <= i < j < |experts| ==> experts[i].id != experts[j].id
  }

  function Min(a: int, b: int): int { if a < b then a else b }

  function Max(a: int, b: int): int { if a < b then b else a }

  function Clamp(low: real, high: real, x: real): real {
    if (if x < high then x else high) < low then low else if x < high then x else high
  }

  function Create(input: Input, binding: Binding): Result<Run, LoopError> {
    var experts := Experts(input);
    if !input.titled then Err(TitleMissing)
    else if Criteria(input) == [] then Err(NoCriteria)
    else if |experts| < 2 then Err(TooFewExperts)
    else if !DistinctIds(experts) then Err(DuplicateExpert)
    else
      Ok(Commit(Run(
        0, binding, Criteria(input), experts,
        Max(2, Min(|experts|, match input.minVotes case None => Min(3, |experts|) case Some(x) => x.Floor)),
        Clamp(0.5, 1.0, match input.threshold case None => 0.7 case Some(x) => x),
        Max(1, Min(100, match input.maxIterations case None => 20 case Some(x) => x.Floor)),
        1, Discovery, Created, [], [], [], None, None, None, None)))
  }

  // ---------------------------------------------------------------- the event log

  function LastNumber(events: seq<Event>): nat { if events == [] then 0 else events[|events| - 1].number }

  function Newest(events: seq<Event>): seq<Event> {
    if |events| > MAX_EVENTS then events[|events| - MAX_EVENTS..] else events
  }

  function AddEvent(events: seq<Event>, phase: Phase, iteration: nat): seq<Event> {
    Newest(events + [Event(LastNumber(events) + 1, phase, iteration)])
  }

  /** Record an event and save. */
  function Commit(run: Run): Run {
    run.(events := AddEvent(run.events, run.phase, run.iteration), revision := run.revision + 1)
  }

  // ---------------------------------------------------------------- access

  predicate Bound(want: Option<string>, have: Option<string>) { want.Some? && want.value != [] ==> have == want }

  predicate Permitted(run: Run, who: Principal) {
    who.admin ||
    (&& run.binding.owner == who.id && Bound(run.binding.client, who.client)
     && Bound(run.binding.session, who.session) && Bound(run.binding.job, who.job))
  }

  predicate Terminal(run: Run) { run.state == Completed || run.state == Failed || run.state == Cancelled }

  // ---------------------------------------------------------------- life cycle

  function Claim(run: Run, key: string, keyHash: string): Result<Run, LoopError> {
    if key == [] || |key| > 256 then Err(BadKey)
    else if run.claimed.Some? then (if run.claimed.value != keyHash then Err(OtherKey) else Ok(run))
    else if Terminal(run) then Err(IsTerminal)
    else Ok(Commit(run.(claimed := Some(keyHash))))
  }

  function Start(run: Run): Result<Run, LoopError> {
    if Terminal(run) then Err(IsTerminal)
    else Ok(Commit(run.(state := Running, phase := if run.phase == PausedPhase then Discovery else run.phase)))
  }

  function PausedRun(run: Run): Run { Commit(run.(state := Paused, phase := PausedPhase)) }

  function Pause(run: Run): Result<Run, LoopError> { if Terminal(run) then Err(IsTerminal) else Ok(PausedRun(run)) }

  function Cancel(run: Run): Result<Run, LoopError> {
    if Terminal(run) then Ok(run) else Ok(Commit(run.(state := Cancelled, phase := CancelledPhase)))
  }

  function RunnerError(run: Run): Result<Run, LoopError> { if Terminal(run) then Ok(run) else Ok(PausedRun(run)) }

  // ---------------------------------------------------------------- proposals and votes

  predicate IsExpert(experts: seq<Expert>, id: string) { exists i :: 0 <= i < |experts| && experts[i].id == id }

  function Propose(run: Run, id: string, expertId: string, summarised: bool, plan: nat, risks: nat, evidence: nat)
    : Result<Run, LoopError>
  {
    if run.state != Running || (run.phase != Discovery && run.phase != Council) then Err(WrongPhase)
    else if !IsExpert(run.experts, expertId) then Err(UnknownExpert)
    else if !summarised then Err(SummaryMissing)
    else
      Ok(Commit(run.(proposals := run.proposals + [Proposal(id, run.iteration, expertId, plan, risks, evidence)],
                     phase := if run.phase == Discovery then Council else run.phase)))
  }

  predicate HasProposal(proposals: seq<Proposal>, iteration: nat, id: string) {
    exists i :: 0 <= i < |proposals| && proposals[i].id == id && proposals[i].iteration == iteration
  }

  /** Every vote but this expert's in this iteration. */
  function NotBy(iteration: nat, expertId: string): Vote -> bool {
    (v: Vote) => !(v.iteration == iteration && v.expertId == expertId)
  }

  function CastVote(run: Run, expertId: string, proposalId: string, score: real, approve: bool)
    : Result<Run, LoopError>
  {
    if run.state != Running || run.phase != Council then Err(WrongPhase)
    else if !IsExpert(run.experts, expertId) then Err(UnknownExpert)
    else if !HasProposal(run.proposals, run.iteration, proposalId) then Err(UnknownProposal)
    else if score < 0.0 || score > 1.0 then Err(BadScore)
    else
      Ok(Commit(run.(votes := Filter(NotBy(run.iteration, expertId), run.votes)
                              + [Vote(run.iteration, expertId, proposalId, score, approve)])))
  }

  // ---------------------------------------------------------------- the council's decision

  function ProposedIn(iteration: nat): Proposal -> bool { (p: Proposal) => p.iteration == iteration }

  function VotedIn(iteration: nat): Vote -> bool { (v: Vote) => v.iteration == iteration }

  function VotedFor(proposalId: string): Vote -> bool { (v: Vote) => v.proposalId == proposalId }

  function Approving(): Vote -> bool { (v: Vote) => v.approve }

  function CurrentProposals(run: Run): seq<Proposal> { Filter(ProposedIn(run.iteration), run.proposals) }

  function CurrentVotes(run: Run): seq<Vote> { Filter(VotedIn(run.iteration), run.votes) }

  function WeightOf(experts: seq<Expert>, id: string): real {
    if experts == [] then 1.0 else if experts[0].id == id then experts[0].weight else WeightOf(experts[1..], id)
  }

  function Weight(experts: seq<Expert>, votes: seq<Vote>): real {
    if votes == [] then 0.0 else Weight(experts, votes[..|votes| - 1]) + WeightOf(experts, votes[|votes| - 1].expertId)
  }

  function Weighted(experts: seq<Expert>, votes: seq<Vote>): real {
    if votes == [] then 0.0
    else
      var v := votes[|votes| - 1];
      Weighted(experts, votes[..|votes| - 1]) + Scaled(v.score, WeightOf(experts, v.expertId))
  }

  function Scaled(score: real, weight: real): real { score * weight }

  function Consensus(experts: seq<Expert>, votes: seq<Vote>): real {
    if Weight(experts, votes) != 0.0 then Weighted(experts, votes) / Weight(experts, votes) else 0.0
  }

  function ApprovalRate(votes: seq<Vote>): real {
    if votes == [] then 0.0 else |Filter(Approving(), votes)| as real / |votes| as real
  }

  function RankOf(experts: seq<Expert>, votes: seq<Vote>, proposalId: string): Rank {
    var mine := Filter(VotedFor(proposalId), votes);
    Rank(proposalId, Consensus(experts, mine), ApprovalRate(mine), |mine|)
  }

  function Ranks(experts: seq<Expert>, votes: seq<Vote>, proposals: seq<Proposal>): (r: seq<Rank>)
    ensures |r| == |proposals|
    ensures forall i :: 0 <= i < |r| ==> r[i] == RankOf(experts, votes, proposals[i].id)
  {
    seq(|proposals|, i requires 0 <= i < |proposals| => RankOf(experts, votes, proposals[i].id))
  }

  /** Consensus first, then approval rate, then number of votes. */
  predicate Ahead(a: Rank, b: Rank) {
    a.consensus > b.consensus ||
    (a.consensus == b.consensus &&
     (a.approvalRate > b.approvalRate || (a.approvalRate == b.approvalRate && a.voteCount >= b.voteCount)))
  }

  function ByRank(): Compare<Rank> { (a, b) => Ahead(a, b) }

  function Ranked(run: Run): seq<Rank> {
    Sort(ByRank(), Ranks(run.experts, CurrentVotes(run), CurrentProposals(run)))
  }

  function Decide(run: Run): Result<Run, LoopError> {
    if run.state != Running || run.phase != Council then Err(WrongPhase)
    else if CurrentProposals(run) == [] then Err(NoProposals)
    else if |CurrentVotes(run)| < run.minVotes then Err(NoQuorum)
    else
      var ranked := Ranked(run);
      var winner := ranked[0];
      if winner.consensus < run.threshold || winner.approvalRate < 0.5 then Err(NoConsensus)
      else Ok(Commit(run.(decision := Some(Decision(winner, ranked)), phase := Implementation)))
  }

  // ---------------------------------------------------------------- implementation and verification

  function RecordImplementation(run: Run, status: Status): Result<Run, LoopError> {
    if run.state != Running || run.phase != Implementation then Err(WrongPhase)
    else
      Ok(Commit(match status
                case StatusRunning => run.(implementation := Some(status))
                case StatusCompleted => run.(implementation := Some(status), phase := Verification)
                case StatusBlocked => run.(implementation := Some(status), state := Paused, phase := PausedPhase)))
  }

  predicate AllPassed(criteria: seq<Criterion>) { forall i :: 0 <= i < |criteria| ==> criteria[i].passed }

  function Named(): Criterion -> bool { (c: Criterion) => c.name != [] }

  function RecordVerification(run: Run, passed: bool, input: seq<Criterion>): Result<Run, LoopError> {
    if run.state != Running || run.phase != Verification then Err(WrongPhase)
    else
      var criteria := Filter(Named(), input);
      var ok := passed && |criteria| >= |run.acceptance| && AllPassed(criteria);
      var checked := run.(verification := Some(Check(ok, criteria)));
      Ok(Commit(
        if ok then checked.(state := Completed, phase := CompletedPhase)
        else if run.iteration >= run.maxIterations then checked.(state := Failed, phase := FailedPhase)
        else checked.(iteration := run.iteration + 1, phase := Discovery, decision := None, implementation := None)))
  }

  // ---------------------------------------------------------------- actions

  datatype Action =
    | DoClaim(key: string, keyHash: string)
    | DoStart | DoPause | DoCancel | DoRunnerError
    | DoPropose(id: string, expertId: string, summarised: bool, plan: nat, risks: nat, evidence: nat)
    | DoVote(expertId: string, proposalId: string, score: real, approve: bool)
    | DoDecide
    | DoImplement(status: Status)
    | DoVerify(passed: bool, criteria: seq<Criterion>)

  function Act(run: Run, a: Action): Result<Run, LoopError> {
    match a
    case DoClaim(key, keyHash) => Claim(run, key, keyHash)
    case DoStart => Start(run)
    case DoPause => Pause(run)
    case DoCancel => Cancel(run)
    case DoRunnerError => RunnerError(run)
    case DoPropose(id, expertId, summarised, plan, risks, evidence) =>
      Propose(run, id, expertId, summarised, plan, risks, evidence)
    case DoVote(expertId, proposalId, score, approve) => CastVote(run, expertId, proposalId, score, approve)
    case DoDecide => Decide(run)
    case DoImplement(status) => RecordImplementation(run, status)
    case DoVerify(passed, criteria) => RecordVerification(run, passed, criteria)
  }

  /** The run on disk after a call: a call that throws saves nothing. */
  function Next(run: Run, a: Action): Run {
    match Act(run, a)
    case Err(_) => run
    case Ok(r) => r
  }

  // ---------------------------------------------------------------- views

  /** The goal gate shown to clients. */
  predicate Satisfied(run: Run) {
    && run.verification.Some? && run.verification.value.passed
    && run.verification.value.criteria != [] && AllPassed(run.verification.value.criteria)
  }

  function After(number: nat): Event -> bool { (e: Event) => e.number > number }

  datatype Page = Page(events: seq<Event>, latest: nat, more: bool)

  /** One page of events after a cursor. */
  function EventsSince(run: Run, after: nat, limit: nat): Page {
    var size := Max(1, Min(200, if limit == 0 then 100 else limit));
    var pending := Filter(After(after), run.events);
    Page(if |pending| > size then pending[..size] else pending,
         if run.events == [] then after else LastNumber(run.events), |pending| > size)
  }
}
