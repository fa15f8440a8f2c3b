/** How far the driver gets: which turns lead where, and exactly how many there are. */
module AgentLoopDriver {
  import opened Prelude
  import opened StableSort
  import opened AgentLoop
  import opened AgentLoopInvariant
  import opened AgentLoopCouncil
  import opened AgentLoopEffects
  import opened AgentLoopRunnerClass

  /** Nothing interrupts the turn. */
  predicate Smooth(env: TurnEnv) { !env.aborted && !env.reportThrows && !env.throws }

  /** The run's limits and council rules. */
  ghost predicate SameRules(run: Run, next: Run) {
    next.maxIterations == run.maxIterations && next.threshold == run.threshold && next.experts == run.experts
  }

  /** An uninterrupted discovery leads to the council. */
  lemma DiscoveryLeads(run: Run, env: TurnEnv)
    requires Inv(run) && run.state == Running && run.phase == Discovery && Smooth(env)
    ensures var (next, ok) := TurnStored(run, env);
            && ok && Inv(next) && SameRules(run, next) && next.iteration == run.iteration
            && next.state == Running && next.phase == Council && |next.proposals| == |run.proposals| + |run.experts|
  {
    hide Inv;
    hide ProposeAll;
    TwoExperts(run);
    DiscoverySucceeds(run, |run.experts|, env.ids, env.evidence);
  }

  /** An uninterrupted council whose threshold is at most 0.82 leads to implementation. */
  lemma CouncilLeads(run: Run, env: TurnEnv)
    requires Inv(run) && run.state == Running && run.phase == Council && Smooth(env) && run.threshold <= 0.82
    ensures var (next, ok) := TurnStored(run, env);
            && ok && Inv(next) && SameRules(run, next) && next.iteration == run.iteration
            && next.state == Running && next.phase == Implementation
  {
    hide Inv;
    hide Ballot;
    hide Decide;
    hide Filter;
    hide Choice;
    var k := CouncilDecidesIff(run);
    var j := ChoiceExpert(run);
    FullBallot(run, Choice(run));
  }

  lemma LoggedInv(run: Run)
    requires Inv(run)
    ensures Logged(run) && run.iteration <= run.maxIterations
  {
  }

  /** An uninterrupted implementation leads to verification if it completed, and pauses the run if not. */
  lemma ImplementationLeads(run: Run, env: TurnEnv)
    requires Inv(run) && run.state == Running && run.phase == Implementation && Smooth(env)
    ensures var (next, ok) := TurnStored(run, env);
            && ok && Inv(next) && SameRules(run, next) && next.iteration == run.iteration
            && (env.implemented ==> next.state == Running && next.phase == Verification)
            && (!env.implemented ==> next.state == Paused)
  {
    hide Inv;
    hide Act;
    LoggedInv(run);
    NextKeepsInv(run, ImplementAction(env));
    ImplementExactly(run, if env.implemented then StatusCompleted else StatusBlocked);
  }

  /** An uninterrupted verification completes the run if it passed; if not, it fails the run at the last
      iteration and begins the next one before it. */
  lemma VerificationLeads(run: Run, env: TurnEnv)
    requires Inv(run) && run.state == Running && run.phase == Verification && Smooth(env)
    ensures var (next, ok) := TurnStored(run, env);
            && ok && Inv(next) && SameRules(run, next)
            && (env.passed ==> next.state == Completed && next.iteration == run.iteration)
            && (!env.passed && run.iteration == run.maxIterations ==>
                next.state == Failed && next.iteration == run.iteration)
            && (!env.passed && run.iteration < run.maxIterations ==>
                  next.state == Running && next.phase == Discovery && next.iteration == run.iteration + 1)
  {
    hide Inv;
    hide RecordVerification;
    LoggedInv(run);
    VerificationOutcome(run, env);
    VerifyExactly(run, env.passed, Verdicts(run.acceptance, env));
  }

  lemma RunningPhase(run: Run)
    requires Inv(run) && run.state == Running
    ensures run.phase in {Discovery, Council, Implementation, Verification}
  {
  }

  /** The phases still to come in the iteration. */
  function PhasesLeft(run: Run): nat {
    match run.phase
    case Discovery => 4
    case Council => 3
    case Implementation => 2
    case Verification => 1
    case _ => 0
  }

  ghost predicate AllSmooth(env: nat -> TurnEnv) { forall n :: Smooth(env(n)) }

  /** When nothing interrupts, every implementation completes and every verification passes, the driver
      completes the run in the iteration it is in, with one turn for each phase still to come. */
  lemma {:induction false} DriverCompletes(run: Run, env: nat -> TurnEnv, turns: nat)
    requires Inv(run) && run.state == Running && run.threshold <= 0.82 && AllSmooth(env)
    requires forall n :: env(n).implemented && env(n).passed
    ensures var (final, total) := Drive(run, env, turns);
            final.state == Completed && final.iteration == run.iteration && total == turns + PhasesLeft(run)
    decreases Measure(run)
  {
    hide Inv;
    hide TurnStored;
    hide Measure;
    var here := env(turns);
    var next := TurnStored(run, here).0;
    assert Smooth(here);
    RunningPhase(run);
    MeasurePositive(run);
    TurnProgress(run, here);
    match run.phase
    case Discovery => DiscoveryLeads(run, here); DriverCompletes(next, env, turns + 1);
    case Council => CouncilLeads(run, here); DriverCompletes(next, env, turns + 1);
    case Implementation => ImplementationLeads(run, here); DriverCompletes(next, env, turns + 1);
    case Verification => VerificationLeads(run, here);
  }

  /** When nothing interrupts, every implementation completes and no verification passes, the driver fails
      the run at its last iteration, after exactly as many turns as the bound allows. */
  lemma {:induction false} DriverExhausts(run: Run, env: nat -> TurnEnv, turns: nat)
    requires Inv(run) && run.state == Running && run.threshold <= 0.82 && AllSmooth(env)
    requires forall n :: env(n).implemented && !env(n).passed
    ensures var (final, total) := Drive(run, env, turns);
            && final.state == Failed && final.iteration == run.maxIterations
            && total == turns + 4 * (run.maxIterations - run.iteration) + PhasesLeft(run)
    decreases Measure(run)
  {
    hide Inv;
    hide TurnStored;
    hide Measure;
    var here := env(turns);
    var next := TurnStored(run, here).0;
    assert Smooth(here);
    RunningPhase(run);
    LoggedInv(run);
    MeasurePositive(run);
    TurnProgress(run, here);
    match run.phase
    case Discovery => DiscoveryLeads(run, here); DriverExhausts(next, env, turns + 1);
    case Council => CouncilLeads(run, here); DriverExhausts(next, env, turns + 1);
    case Implementation => ImplementationLeads(run, here); DriverExhausts(next, env, turns + 1);
    case Verification =>
      VerificationLeads(run, here);
      if run.iteration < run.maxIterations { DriverExhausts(next, env, turns + 1); }
  }

  /** When nothing interrupts and the implementation is blocked, the driver pauses the run after it. */
  lemma {:induction false} DriverBlocks(run: Run, env: nat -> TurnEnv, turns: nat)
    requires Inv(run) && run.state == Running && run.threshold <= 0.82 && AllSmooth(env)
    requires run.phase != Verification && forall n :: !env(n).implemented
    ensures var (final, total) := Drive(run, env, turns);
            final.state == Paused && final.iteration == run.iteration && total == turns + PhasesLeft(run) - 1
    decreases Measure(run)
  {
    hide Inv;
    hide TurnStored;
    hide Measure;
    var here := env(turns);
    var next := TurnStored(run, here).0;
    assert Smooth(here);
    RunningPhase(run);
    MeasurePositive(run);
    TurnProgress(run, here);
    match run.phase
    case Discovery => DiscoveryLeads(run, here); DriverBlocks(next, env, turns + 1);
    case Council => CouncilLeads(run, here); DriverBlocks(next, env, turns + 1);
    case Implementation => ImplementationLeads(run, here);
  }

  /** An interrupted turn ends the drive there: an abort, a failed report or a failed tool pauses the run. */
  lemma InterruptionPauses(run: Run, env: nat -> TurnEnv, turns: nat)
    requires Inv(run) && run.state == Running && !Smooth(env(turns))
    ensures var (final, total) := Drive(run, env, turns);
            final.state == Paused && final.iteration == run.iteration
            && total == (if env(turns).aborted then turns else turns + 1)
  {
    hide Inv;
    hide Ballot;
    hide ProposeAll;
    hide Decide;
    hide Filter;
    hide AddEvent;
    hide Choice;
    RunningPhase(run);
    Halts(run);
    if !env(turns).aborted {
      TurnProgress(run, env(turns));
      InterruptedKeeps(run, env(turns));
      Halts(TurnStored(run, env(turns)).0);
    }
  }

  lemma InterruptedKeeps(run: Run, env: TurnEnv)
    requires Inv(run) && run.state == Running && !env.aborted && !Smooth(env)
    ensures var (next, ok) := TurnStored(run, env); !ok && next.iteration == run.iteration && next.state == Running
  {
    hide Inv;
    hide Ballot;
    hide Filter;
    hide Choice;
    RunningPhase(run);
    if run.phase == Council {
      CouncilHasProposals(run);
      var k := ChoiceExpert(run);
      FullBallot(run, Choice(run));
    } else if run.phase == Discovery {
      TwoExperts(run);
      DiscoverySucceeds(run, |run.experts|, env.ids, env.evidence);
    }
  }
}
