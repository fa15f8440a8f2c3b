/** The manager as an object over stored runs, and the driver loop that takes a run through its phases. */
module AgentLoopRunnerClass {
  import opened Prelude
  import opened StableSort
  import opened AgentLoop
  import opened AgentLoopInvariant
  import opened AgentLoopCouncil

  class AgentLoopManager {
    var runs: map<string, Run>

    constructor ()
      ensures runs == map[]
    {
      runs := map[];
    }

    /** Create a run under a new id. */
    method CreateRun(id: string, input: Input, binding: Binding) returns (r: Result<Run, LoopError>)
      modifies this
      ensures r == Create(input, binding)
      ensures runs == if r.Ok? then old(runs)[id := r.value] else old(runs)
      ensures r.Ok? ==> Inv(r.value)
    {
      r := Create(input, binding);
      if r.Ok? {
        CreateInv(input, binding);
        runs := runs[id := r.value];
      }
    }

    /** Load, check access, act, save; a call that throws saves nothing. */
    method Perform(id: string, who: Principal, a: Action) returns (r: Result<Run, LoopError>)
      modifies this
      ensures id !in old(runs) ==> r == Err(NotFound) && runs == old(runs)
      ensures id in old(runs) && !Permitted(old(runs)[id], who) ==> r == Err(AccessDenied) && runs == old(runs)
      ensures id in old(runs) && Permitted(old(runs)[id], who) ==>
                r == Act(old(runs)[id], a) && runs == old(runs)[id := Next(old(runs)[id], a)]
    {
      if id !in runs { return Err(NotFound); }
      if !Permitted(runs[id], who) { return Err(AccessDenied); }
      r := Act(runs[id], a);
      if r.Ok? { runs := runs[id := r.value]; }
      assert r.Err? ==> runs == old(runs)[id := old(runs)[id]];
    }
  }

  /** What tools, clients and the clock contribute to one turn of the driver. The first progress report
      comes before anything else; `throws` is a tool, or the council's second report after its votes. */
  datatype TurnEnv = TurnEnv(
    aborted: bool, reportThrows: bool, throws: bool, ids: nat -> string, evidence: nat, implemented: bool, passed: bool,
    verdicts: nat -> bool)

  /** The criteria as the runner reports them: all passed when the whole verification passed. */
  function Verdicts(acceptance: seq<string>, env: TurnEnv): (r: seq<Criterion>)
    ensures |r| == |acceptance| && forall i :: 0 <= i < |r| ==>
            r[i].name == acceptance[i] && (env.passed ==> r[i].passed)
  {
    seq(|acceptance|, i requires 0 <= i < |acceptance| => Criterion(acceptance[i], env.passed || env.verdicts(i)))
  }

  /** Turns left: four for each further iteration, and the phases still to come in this one. */
  function Measure(run: Run): int {
    if run.state != Running then 0
    else
      4 * (run.maxIterations - run.iteration)
      + match run.phase
        case Discovery => 4
        case Council => 3
        case Implementation => 2
        case Verification => 1
        case _ => 0
  }

  lemma ActKeepsBinding(run: Run, a: Action)
    ensures Next(run, a).binding == run.binding && Next(run, a).maxIterations == run.maxIterations
    ensures Next(run, a).experts == run.experts && Next(run, a).acceptance == run.acceptance
  {
    hide Filter;
    hide Ranked;
    hide AddEvent;
  }

  lemma StillPermitted(run: Run, a: Action, who: Principal)
    requires Permitted(run, who)
    ensures Permitted(Next(run, a), who)
  {
    hide Next;
    ActKeepsBinding(run, a);
  }

  lemma SameBinding(run: Run, next: Run, who: Principal)
    requires Permitted(run, who) && next.binding == run.binding
    ensures Permitted(next, who)
  {
  }

  lemma TwoExperts(run: Run)
    requires Inv(run)
    ensures |run.experts| >= 2
  {
  }

  lemma MeasurePositive(run: Run)
    requires Inv(run) && run.state == Running
    ensures 0 < Measure(run) <= 4 * (run.maxIterations - run.iteration + 1)
  {
  }

  /** The runner's verification completes the run exactly when the verification passed; otherwise the
      run fails at its last iteration or goes back to discovery in the next. */
  lemma VerificationOutcome(run: Run, env: TurnEnv)
    requires Inv(run) && run.state == Running && run.phase == Verification
    ensures var r := RecordVerification(run, env.passed, Verdicts(run.acceptance, env));
            && r.Ok? && Inv(r.value) && Measure(r.value) < Measure(run)
            && (r.value.state == Completed <==> env.passed)
            && (r.value.state == Failed <==> !env.passed && run.iteration == run.maxIterations)
            && (r.value.state == Running ==> r.value.iteration == run.iteration + 1 && r.value.phase == Discovery)
  {
    hide Filter;
    hide AddEvent;
    hide Ballots;
    var verdicts := Verdicts(run.acceptance, env);
    FilterAll(Named(), verdicts);
    VerifyKeepsInv(run, env.passed, verdicts);
  }

  // ---------------------------------------------------------------- the driver, on values

  /** The run stored after one turn, and whether the turn succeeded. A turn that throws keeps what it
      had already saved. */
  function TurnStored(run: Run, env: TurnEnv): (Run, bool) {
    if env.reportThrows then (run, false) else PhaseStored(run, env)
  }

  function PhaseStored(run: Run, env: TurnEnv): (Run, bool) {
    match run.phase
    case Discovery =>
      (match ProposeAll(run, |run.experts|, env.ids, env.evidence)
       case Ok(r) => if env.throws then (run, false) else (r, true)
       case Err(_) => (run, false))
    case Council =>
      if CurrentProposals(run) == [] then (run, false)
      else
        (match Ballot(run, Choice(run), |run.experts|)
         case Err(_) => (run, false)
         case Ok(r) => if env.throws || Decide(r).Err? then (r, false) else (Decide(r).value, true))
    case Implementation => if env.throws then (run, false) else (Next(run, ImplementAction(env)), true)
    case Verification => if env.throws then (run, false) else (Next(run, VerifyAction(run, env)), true)
    case _ => (run, false)
  }

  function ImplementAction(env: TurnEnv): Action {
    DoImplement(if env.implemented then StatusCompleted else StatusBlocked)
  }

  function VerifyAction(run: Run, env: TurnEnv): Action { DoVerify(env.passed, Verdicts(run.acceptance, env)) }

  /** What a turn may do to a run. */
  ghost predicate TurnOk(run: Run, next: Run, ok: bool) {
    && Inv(next) && next.binding == run.binding && next.maxIterations == run.maxIterations
    && (ok ==> Measure(next) < Measure(run) && next.state in {Running, Paused, Completed, Failed})
    && (!ok ==> next.state == Running)
  }

  lemma DiscoveryProgress(run: Run, env: TurnEnv)
    requires Inv(run) && run.state == Running && run.phase == Discovery
    ensures TurnOk(run, TurnStored(run, env).0, TurnStored(run, env).1)
  {
    hide Inv;
    hide ProposeAll;
    TwoExperts(run);
    DiscoverySucceeds(run, |run.experts|, env.ids, env.evidence);
  }

  lemma CouncilProgress(run: Run, env: TurnEnv)
    requires Inv(run) && run.state == Running && run.phase == Council
    ensures TurnOk(run, TurnStored(run, env).0, TurnStored(run, env).1)
  {
    hide Inv;
    hide Ballot;
    hide Decide;
    hide Filter;
    hide Choice;
    CouncilHasProposals(run);
    var k := ChoiceExpert(run);
    FullBallot(run, Choice(run));
    var j := CouncilDecidesIff(run);
  }

  lemma LaterProgress(run: Run, env: TurnEnv)
    requires Inv(run) && run.state == Running && run.phase in {Implementation, Verification}
    ensures TurnOk(run, TurnStored(run, env).0, TurnStored(run, env).1)
  {
    hide Inv;
    hide AddEvent;
    hide RecordVerification;
    MeasurePositive(run);
    if run.phase == Implementation {
      NextKeepsInv(run, ImplementAction(env));
    } else {
      ActKeepsBinding(run, VerifyAction(run, env));
      VerificationOutcome(run, env);
      VerifiedState(run, env);
    }
  }

  lemma VerifiedState(run: Run, env: TurnEnv)
    requires RecordVerification(run, env.passed, Verdicts(run.acceptance, env)).Ok?
    ensures var next := RecordVerification(run, env.passed, Verdicts(run.acceptance, env)).value;
            next.state in {Running, Completed, Failed}
  {
    hide Filter;
    hide AddEvent;
  }

  /** Every turn brings the end nearer, or fails leaving the run running. */
  lemma TurnProgress(run: Run, env: TurnEnv)
    requires Inv(run) && run.state == Running
    ensures TurnOk(run, TurnStored(run, env).0, TurnStored(run, env).1)
  {
    hide TurnOk;
    hide TurnStored;
    hide Setup;
    hide Ballots;
    hide DecisionOk;
    hide Implemented;
    hide Gate;
    hide Logged;
    if run.phase == Discovery {
      DiscoveryProgress(run, env);
    } else if run.phase == Council {
      CouncilProgress(run, env);
    } else {
      LaterProgress(run, env);
    }
  }

  /** Where driving a run ends, and after how many turns in all: turns until the run stops running, the
      client aborts (the run is paused) or a turn throws (the error is recorded). */
  ghost function Drive(run: Run, env: nat -> TurnEnv, turns: nat): (Run, nat)
    requires Inv(run)
    decreases Measure(run)
  {
    if run.state != Running then (run, turns)
    else if env(turns).aborted then (Next(run, DoPause), turns)
    else
      MeasurePositive(run);
      TurnProgress(run, env(turns));
      var (next, ok) := TurnStored(run, env(turns));
      if ok then Drive(next, env, turns + 1) else (Next(next, DoRunnerError), turns + 1)
  }

  /** Driving ends: paused, completed or failed (or as it was, if it was not running), within the
      iteration limit, after at most as many turns as the measure says. */
  lemma {:induction false} DriveEnds(run: Run, env: nat -> TurnEnv, turns: nat)
    requires Inv(run)
    ensures var (final, total) := Drive(run, env, turns);
            && Inv(final) && (run.state != Running ==> final == run && total == turns)
            && (run.state == Running ==> final.state in {Paused, Completed, Failed})
            && turns <= total <= turns + Measure(run) && final.binding == run.binding
    decreases Measure(run)
  {
    hide Inv;
    hide TurnStored;
    hide Next;
    hide Measure;
    if run.state != Running {
      NotRunning(run);
    } else {
      MeasurePositive(run);
      NextKeepsInv(run, DoPause);
      ActKeepsBinding(run, DoPause);
      Halts(run);
      if !env(turns).aborted {
        TurnProgress(run, env(turns));
        var (next, ok) := TurnStored(run, env(turns));
        if ok {
          DriveEnds(next, env, turns + 1);
        } else {
          NextKeepsInv(next, DoRunnerError);
          ActKeepsBinding(next, DoRunnerError);
          Halts(next);
        }
      }
    }
  }

  lemma NotRunning(run: Run)
    ensures run.state != Running ==> Measure(run) == 0
  {
  }

  lemma Halts(run: Run)
    requires run.state == Running
    ensures Next(run, DoPause).state == Paused && Next(run, DoRunnerError).state == Paused
    ensures Act(run, DoPause) == Ok(Next(run, DoPause)) && Act(run, DoRunnerError) == Ok(Next(run, DoRunnerError))
  {
  }

  /** A created or paused run is started first. */
  function Started(run: Run): Run { if run.state == Created || run.state == Paused then Next(run, DoStart) else run }

  lemma StartedInv(run: Run)
    requires Inv(run)
    ensures Inv(Started(run)) && Started(run).binding == run.binding
    ensures Measure(Started(run)) <= 4 * (run.maxIterations - run.iteration + 1)
    ensures Started(run).state !in {Created, Paused} && (Terminal(run) ==> Started(run) == run)
    ensures Started(run) != run ==> Act(run, DoStart) == Ok(Started(run))
  {
    hide Ballots;
    hide DecisionOk;
    hide Gate;
    hide Logged;
    hide AddEvent;
    if run.state == Created || run.state == Paused { NextKeepsInv(run, DoStart); }
  }

  /** Started and driven, every run ends paused, completed, failed or as terminal as it was, within its
      iteration limit, after at most four turns for each iteration left. */
  lemma DriverTerminates(run: Run, env: nat -> TurnEnv)
    requires Inv(run)
    ensures Inv(Started(run))
    ensures var (final, turns) := Drive(Started(run), env, 0);
            && Inv(final) && final.state in {Paused, Completed, Failed, Cancelled} && final.binding == run.binding
            && (Terminal(run) ==> final == run) && final.iteration <= final.maxIterations
            && turns <= 4 * (run.maxIterations - run.iteration + 1)
  {
    hide Inv;
    hide Drive;
    hide Measure;
    StartedInv(run);
    DriveEnds(Started(run), env, 0);
    IterationWithin(Drive(Started(run), env, 0).0);
  }

  lemma IterationWithin(run: Run)
    requires Inv(run)
    ensures run.iteration <= run.maxIterations
  {
  }

  class AgentLoopRunner {
    const manager: AgentLoopManager

    constructor (manager: AgentLoopManager)
      ensures this.manager == manager
    {
      this.manager := manager;
    }

    /** The stored run is `run`, and the caller may work on it. */
    ghost predicate Holds(id: string, who: Principal, run: Run)
      reads manager
    {
      id in manager.runs && manager.runs[id] == run && Permitted(run, who) && Inv(run)
    }

    /** A proposal for every expert. */
    method DiscoveryTurn(id: string, who: Principal, start: Run, env: TurnEnv) returns (run: Run)
      requires Holds(id, who, start) && start.state == Running && start.phase == Discovery
      modifies manager
      ensures Holds(id, who, run) && manager.runs == old(manager.runs)[id := run]
      ensures ProposeAll(start, |start.experts|, env.ids, env.evidence) == Ok(run)
    {
      hide Inv;
      hide Propose;
      hide Permitted;
      run := start;
      assert manager.runs == old(manager.runs)[id := run];
      for i := 0 to |start.experts|
        invariant Holds(id, who, run) && manager.runs == old(manager.runs)[id := run]
        invariant ProposeAll(start, i, env.ids, env.evidence) == Ok(run)
      {
        DiscoverySucceeds(start, i + 1, env.ids, env.evidence);
        var a := DoPropose(env.ids(i), start.experts[i].id, true, PLAN_ITEMS, RISK_ITEMS, env.evidence);
        StillPermitted(run, a, who);
        var r := manager.Perform(id, who, a);
        run := r.value;
      }
    }

    /** A vote of every expert for the runner's choice, then the decision. */
    method CouncilTurn(id: string, who: Principal, start: Run, env: TurnEnv) returns (r: Result<Run, LoopError>)
      requires Holds(id, who, start) && start.state == Running && start.phase == Council
      modifies manager
      ensures manager.runs == old(manager.runs)[id := PhaseStored(start, env).0]
      ensures r.Ok? == PhaseStored(start, env).1 && (r.Ok? ==> r.value == PhaseStored(start, env).0)
    {
      hide Inv;
      hide CastVote;
      hide Decide;
      hide Permitted;
      CouncilHasProposals(start);
      var k := ChoiceExpert(start);
      var choice := Choice(start);
      var run := start;
      assert manager.runs == old(manager.runs)[id := run];
      for i := 0 to |start.experts|
        invariant Holds(id, who, run) && manager.runs == old(manager.runs)[id := run]
        invariant Ballot(start, choice, i) == Ok(run)
      {
        var earlier := BallotVotes(start, choice, i + 1);
        var a := DoVote(start.experts[i].id, choice.id, Score(start.experts[i], choice), true);
        StillPermitted(run, a, who);
        var cast := manager.Perform(id, who, a);
        run := cast.value;
      }
      if env.throws { return Err(ToolFailed); }
      r := manager.Perform(id, who, DoDecide);
    }

    /** One pass of the loop body. */
    method TakeTurn(id: string, who: Principal, start: Run, env: TurnEnv) returns (r: Result<Run, LoopError>)
      requires Holds(id, who, start) && start.state == Running
      modifies manager
      ensures manager.runs == old(manager.runs)[id := TurnStored(start, env).0]
      ensures r.Ok? == TurnStored(start, env).1 && (r.Ok? ==> r.value == TurnStored(start, env).0)
    {
      hide Permitted;
      hide Setup;
      hide Ballots;
      hide DecisionOk;
      hide Implemented;
      hide Gate;
      hide Logged;
      hide Ballot;
      hide Filter;
      assert manager.runs == old(manager.runs)[id := start];
      if env.reportThrows { return Err(ToolFailed); }
      if start.phase == Council {
        r := CouncilTurn(id, who, start, env);
        return;
      }
      if start.phase == Discovery { DiscoverySucceeds(start, |start.experts|, env.ids, env.evidence); }
      if env.throws { return Err(ToolFailed); }
      if start.phase == Discovery {
        var run := DiscoveryTurn(id, who, start, env);
        return Ok(run);
      }
      if start.phase == Implementation {
        r := manager.Perform(id, who, ImplementAction(env));
      } else {
        VerificationOutcome(start, env);
        r := manager.Perform(id, who, VerifyAction(start, env));
      }
    }

    /** The driver: turns until the run stops running, the client aborts, or a turn throws. */
    method Execute(id: string, who: Principal, env: nat -> TurnEnv) returns (turns: nat, r: Result<Run, LoopError>)
      requires id in manager.runs && Holds(id, who, manager.runs[id])
      modifies manager
      ensures id in manager.runs && Holds(id, who, manager.runs[id])
              && manager.runs == old(manager.runs)[id := manager.runs[id]]
      ensures Inv(Started(old(manager.runs)[id]))
      ensures r.Ok? ==> r.value == manager.runs[id]
      ensures r.Ok? ==> (manager.runs[id], turns) == Drive(Started(old(manager.runs)[id]), env, 0)
      ensures r.Err? ==> (Next(manager.runs[id], DoRunnerError), turns) == Drive(Started(old(manager.runs)[id]), env, 0)
    {
      hide Permitted;
      hide Inv;
      hide Measure;
      hide TurnStored;
      hide Next;
      turns := 0;
      var run := manager.runs[id];
      ghost var start := Started(run);
      StartedInv(run);
      assert manager.runs == old(manager.runs)[id := run];
      if run.state == Created || run.state == Paused {
        StillPermitted(run, DoStart, who);
        var started := manager.Perform(id, who, DoStart);
        run := started.value;
      }
      while run.state == Running
        invariant Holds(id, who, run) && manager.runs == old(manager.runs)[id := run]
        invariant Drive(run, env, turns) == Drive(start, env, 0)
        decreases Measure(run)
      {
        MeasurePositive(run);
        if env(turns).aborted {
          Halts(run);
          StillPermitted(run, DoPause, who);
          NextKeepsInv(run, DoPause);
          r := manager.Perform(id, who, DoPause);
          return;
        }
        TurnProgress(run, env(turns));
        SameBinding(run, TurnStored(run, env(turns)).0, who);
        r := TakeTurn(id, who, run, env(turns));
        turns := turns + 1;
        if r.Err? { return; }
        run := r.value;
      }
      r := Ok(run);
    }

    /** `start`: drive the run; an error is recorded on the run, which is then paused. */
    method Start(id: string, who: Principal, env: nat -> TurnEnv) returns (turns: nat)
      requires id in manager.runs && Holds(id, who, manager.runs[id])
      modifies manager
      ensures Inv(Started(old(manager.runs)[id]))
      ensures (manager.runs, turns) ==
              var (final, n) := Drive(Started(old(manager.runs)[id]), env, 0); (old(manager.runs)[id := final], n)
    {
      hide Permitted;
      hide Inv;
      hide Next;
      hide Drive;
      var r;
      turns, r := Execute(id, who, env);
      ghost var before := old(manager.runs);
      if r.Err? {
        ghost var stopped := manager.runs[id];
        var recorded := manager.Perform(id, who, DoRunnerError);
        assert before[id := stopped][id := Next(stopped, DoRunnerError)] == before[id := Next(stopped, DoRunnerError)];
      }
    }
  }
}
