/** What the iteration protocol guarantees under every schedule. */
module IterationTheorems {
  import opened Counting
  import opened IterationProtocol
  import Barrier

  /** A run, latest step last. */
  predicate Runs(c: Config, s: State, steps: seq<Step>)
    requires Shape(c, s)
    decreases |steps|, 0
  {
    steps == [] || (Runs(c, s, steps[..|steps| - 1]) && Enabled(c, Exec(c, s, steps[..|steps| - 1]), steps[|steps| - 1]))
  }

  function Exec(c: Config, s: State, steps: seq<Step>): (s': State)
    requires Shape(c, s) && Runs(c, s, steps)
    ensures Shape(c, s')
    decreases |steps|, 1
  {
    if steps == [] then s else Apply(c, Exec(c, s, steps[..|steps| - 1]), steps[|steps| - 1])
  }

  ghost predicate Reachable(c: Config, s: State) {
    GoodConfig(c) && exists steps :: Runs(c, Initial(c), steps) && s == Exec(c, Initial(c), steps)
  }

  lemma {:induction false} RunKeepsInv(c: Config, steps: seq<Step>)
    requires GoodConfig(c) && Runs(c, Initial(c), steps)
    ensures Inv(c, Exec(c, Initial(c), steps))
    decreases |steps|
  {
    if steps == [] {
      InitInv(c);
    } else {
      RunKeepsInv(c, steps[..|steps| - 1]);
      StepKeepsInv(c, Exec(c, Initial(c), steps[..|steps| - 1]), steps[|steps| - 1]);
    }
  }

  lemma ReachableInv(c: Config, s: State)
    requires Reachable(c, s)
    ensures Inv(c, s)
  {
    var steps :| Runs(c, Initial(c), steps) && s == Exec(c, Initial(c), steps);
    RunKeepsInv(c, steps);
  }

  /** Exactly one workspace collects per iteration: the number of elections a workspace can see is fixed by
      its iteration and place; and the completed count never exceeds N. */
  lemma OneCollectorPerIteration(c: Config, s: State, t: nat)
    requires Reachable(c, s) && t < |c.dispatcher|
    ensures Inv(c, s) && s.completed <= |c.dispatcher|
    ensures s.pc[t].AtTop? ==> |s.elected| == s.iter[t]
    ensures s.pc[t].Working? ==> |s.elected| == s.iter[t] + (if s.completed > 0 then 1 else 0)
    ensures s.pc[t].Spinning? || s.pc[t].BeforeB? || s.pc[t].AfterB? || Resetting(s.pc[t]) ==>
              |s.elected| == s.iter[t] + 1
    ensures forall u :: 0 <= u < |s.pc| && s.statsInit[u] ==> |s.elected| > 0 && u == Latest(s)
  {
    ReachableInv(c, s);
    PlaceByParity(c, s, t);
    CountIsNone(s.pc, Done);
    CompletedBound(c, s);
  }

  lemma CompletedBound(c: Config, s: State)
    requires Inv(c, s)
    ensures s.completed <= |c.dispatcher|
  {
    AllPlaces(c, s);
  }

  /** The collector's three writes happen only when nobody is measuring or spinning: no dispatcher can miss
      the moment when the count reaches N. */
  lemma ResetsWaitForEverybody(c: Config, s: State, step: Step, u: nat)
    requires Reachable(c, s) && Inv(c, s) && Enabled(c, s, step) && u < |s.pc|
    requires step.ResetCount? || step.ResetInit? || (step.TestInit? && s.statsInit[step.t])
    ensures !s.pc[u].Working? && !s.pc[u].Spinning? && !s.pc[u].BeforeB?
    ensures step.t == Latest(s) && (step.ResetInit? || s.completed == |c.dispatcher|)
  {
    ResetsFollowTheLatest(c, s, step);
    PlaceByParity(c, s, u);
  }

  lemma ResetsFollowTheLatest(c: Config, s: State, step: Step)
    requires Inv(c, s) && Enabled(c, s, step)
    requires step.ResetCount? || step.ResetInit? || (step.TestInit? && s.statsInit[step.t])
    ensures !Odd(s) && |s.elected| > 0 && step.t == Latest(s)
    ensures step.ResetInit? || s.completed == |c.dispatcher|
  {
    PlaceByParity(c, s, step.t);
  }

  /** Nobody starts to finish iteration k + 1 before the resets of iteration k are over: while a workspace
      may still call `update_stats`, no collector is in its tail and the shared fields speak of this
      iteration only. */
  lemma UpdateWaitsForResets(c: Config, s: State, t: nat, u: nat)
    requires Reachable(c, s) && Inv(c, s) && Enabled(c, s, Update(t)) && u < |s.pc|
    ensures !s.pc[u].AfterB? && !Resetting(s.pc[u]) && s.iter[u] == s.iter[t]
    ensures s.statsInit[u] ==> Done(s.pc[u])
    ensures s.completed == Count(s.pc, Done) < |c.dispatcher| && (s.endSignal <==> s.completed > 0)
  {
    PlaceByParity(c, s, t);
    PlaceByParity(c, s, u);
    CompletedCounts(c, s, t);
  }

  /** A dispatcher's spin test succeeds exactly when every workspace has finished its measurement. */
  lemma SpinEndsWhenAllAreDone(c: Config, s: State, t: nat)
    requires Reachable(c, s) && Inv(c, s) && Enabled(c, s, SpinTest(t))
    ensures Apply(c, s, SpinTest(t)).pc[t].BeforeB? <==> forall u :: 0 <= u < |s.pc| ==> Done(s.pc[u])
  {
    PlaceByParity(c, s, t);
    CountIsAll(s.pc, Done);
  }

  /** Only dispatchers spin; while iteration g / 2 is measured, one that has stopped spinning has read N. */
  predicate SpunOut(c: Config, s: State)
    requires Shape(c, s)
  {
    forall t :: 0 <= t < |s.pc| ==>
      && (s.pc[t].Spinning? ==> c.dispatcher[t])
      && (Odd(s) && c.dispatcher[t] && (s.pc[t].BeforeB? || s.pc[t].InB?) ==> s.completed == |c.dispatcher|)
  }

  lemma UpdateKeepsSpunOut(c: Config, s: State, t: nat)
    requires Inv(c, s) && SpunOut(c, s) && Enabled(c, s, Update(t))
    ensures SpunOut(c, Apply(c, s, Update(t))) && (c.dispatcher[t] ==> Apply(c, s, Update(t)).pc[t].Spinning?)
  {
    PlaceByParity(c, s, t);
    CompletedCounts(c, s, t);
  }

  lemma WaitAKeepsSpunOut(c: Config, s: State, t: nat)
    requires Inv(c, s) && SpunOut(c, s) && Enabled(c, s, WaitA(t))
    ensures SpunOut(c, Apply(c, s, WaitA(t)))
  {
    PlaceByParity(c, s, t);
    if Apply(c, s, WaitA(t)).pc[t].Working? { LastIntoWork(c, s, t); }
  }

  lemma StepKeepsSpunOut(c: Config, s: State, step: Step)
    requires Inv(c, s) && SpunOut(c, s) && Enabled(c, s, step)
    ensures SpunOut(c, Apply(c, s, step))
  {
    PlaceByParity(c, s, step.t);
    if step.Update? { UpdateKeepsSpunOut(c, s, step.t); }
    else if step.WaitA? { WaitAKeepsSpunOut(c, s, step.t); }
    else { OthersKeepSpunOut(c, s, step); }
  }

  lemma OthersKeepSpunOut(c: Config, s: State, step: Step)
    requires Inv(c, s) && SpunOut(c, s) && Enabled(c, s, step) && !step.Update? && !step.WaitA?
    ensures SpunOut(c, Apply(c, s, step))
  {
    PlaceByParity(c, s, step.t);
  }

  lemma {:induction false} RunKeepsSpunOut(c: Config, steps: seq<Step>)
    requires GoodConfig(c) && Runs(c, Initial(c), steps)
    ensures SpunOut(c, Exec(c, Initial(c), steps))
    decreases |steps|
  {
    if steps != [] {
      var past := steps[..|steps| - 1];
      RunKeepsSpunOut(c, past);
      RunKeepsInv(c, past);
      StepKeepsSpunOut(c, Exec(c, Initial(c), past), steps[|steps| - 1]);
    }
  }

  /** Every dispatcher launches on until all have finished: after its own measurement it spins, and when it is before or
      in the second wait, nobody measures any more. No other workspace ever spins. */
  lemma DispatchersWaitForAll(c: Config, s: State, t: nat)
    requires Reachable(c, s) && t < |c.dispatcher|
    ensures Shape(c, s) && (s.pc[t].Spinning? ==> c.dispatcher[t])
    ensures Enabled(c, s, Update(t)) && c.dispatcher[t] ==> Apply(c, s, Update(t)).pc[t].Spinning?
    ensures Odd(s) && c.dispatcher[t] && (s.pc[t].BeforeB? || s.pc[t].InB?) ==> forall u :: 0 <= u < |s.pc| ==> Done(s.pc[u])
    ensures c.dispatcher[t] && !s.pc[t].AtTop? && !s.pc[t].InA? && !s.pc[t].Working? && !s.pc[t].Spinning? ==>
              forall u :: 0 <= u < |s.pc| ==> !s.pc[u].Working?
  {
    var steps :| Runs(c, Initial(c), steps) && s == Exec(c, Initial(c), steps);
    RunKeepsSpunOut(c, steps);
    RunKeepsInv(c, steps);
    if Enabled(c, s, Update(t)) { UpdateKeepsSpunOut(c, s, t); }
    CountIsAll(s.pc, Done);
    PlaceByParity(c, s, t);
    if !Odd(s) { AllPlaces(c, s); }
  }

  // Progress

  predicate Finished(c: Config, s: State)
    requires Shape(c, s)
  {
    forall t :: 0 <= t < |s.pc| ==> s.pc[t].AtTop? && s.iter[t] == c.iterations
  }

  /** A step that moves its workspace on, rather than back to sleep or round the spin loop. */
  predicate Useful(c: Config, s: State, step: Step)
    requires Shape(c, s)
  {
    Enabled(c, s, step) && Apply(c, s, step).pc[step.t] != s.pc[step.t]
  }

  /** What can hold a workspace up: the current round of a barrier, a spin whose count is short, or having
      run all its iterations. */
  predicate Blocked(c: Config, s: State, t: nat)
    requires Shape(c, s) && t < |s.pc|
  {
    || Barrier.AtGen(s.bar.fields.generation)(s.bar.threads[t])
    || (s.pc[t].Spinning? && s.completed != |s.pc|)
    || (s.pc[t].AtTop? && s.iter[t] == c.iterations)
  }

  function NextStep(pc: Pc, t: nat): Step {
    match pc
    case AtTop => WaitA(t) case InA => Wake(t) case Working => Update(t) case Spinning => SpinTest(t)
    case BeforeB => WaitB(t) case InB => Wake(t) case AfterB => TestInit(t)
    case EndReset => ResetCount(t) case CountReset => ResetInit(t)
  }

  lemma UnblockedMoves(c: Config, s: State, t: nat)
    requires Inv(c, s) && t < |s.pc| && !Blocked(c, s, t)
    ensures Useful(c, s, NextStep(s.pc[t], t))
  {
    assert PlaceInv(c, s.bar, t, s.pc[t], s.iter[t]);
    assert Barrier.ThreadInv(s.bar.fields.generation, s.bar.threads[t], s.bar.entered[t], s.bar.returned[t]);
  }

  /** No deadlock: until every workspace has run all its iterations, some workspace can move on. */
  lemma NeverStuck(c: Config, s: State)
    requires Reachable(c, s) && Inv(c, s) && !Finished(c, s)
    ensures exists step :: Useful(c, s, step)
  {
    SomebodyIsFree(c, s);
    var t :| 0 <= t < |s.pc| && !Blocked(c, s, t);
    UnblockedMoves(c, s, t);
  }

  lemma SomebodyIsFree(c: Config, s: State)
    requires Inv(c, s) && !Finished(c, s)
    ensures exists t :: 0 <= t < |s.pc| && !Blocked(c, s, t)
  {
    var g := s.bar.fields.generation;
    CountIsAll(s.bar.threads, Barrier.AtGen(g));
    var t :| 0 <= t < |s.pc| && !Barrier.AtGen(g)(s.bar.threads[t]);
    if Odd(s) { SpinnersAreCounted(c, s, t); } else { FinishersAreDone(c, s, t); }
  }

  /** In the work phase: if all were blocked, all would be done, and the count would be N. */
  lemma SpinnersAreCounted(c: Config, s: State, t: nat)
    requires Inv(c, s) && Odd(s) && t < |s.pc| && !Barrier.AtGen(s.bar.fields.generation)(s.bar.threads[t])
    ensures exists u :: 0 <= u < |s.pc| && !Blocked(c, s, u)
  {
    PlaceByParity(c, s, t);
    CountIsAll(s.pc, Done);
    if s.completed != |s.pc| {
      var u :| 0 <= u < |s.pc| && !Done(s.pc[u]);
      PlaceByParity(c, s, u);
      assert !Blocked(c, s, u);
    } else {
      assert !Blocked(c, s, t);
    }
  }

  /** Between work phases: a workspace that has finished was in the last iteration, so nobody waits for it. */
  lemma FinishersAreDone(c: Config, s: State, t: nat)
    requires Inv(c, s) && !Odd(s) && t < |s.pc| && !Barrier.AtGen(s.bar.fields.generation)(s.bar.threads[t])
    requires !Finished(c, s)
    ensures exists u :: 0 <= u < |s.pc| && !Blocked(c, s, u)
  {
    PlaceByParity(c, s, t);
    if Blocked(c, s, t) {
      var u :| 0 <= u < |s.pc| && !(s.pc[u].AtTop? && s.iter[u] == c.iterations);
      PlaceByParity(c, s, u);
      assert PlaceInv(c, s.bar, u, s.pc[u], s.iter[u]);
      assert !Blocked(c, s, u);
    }
  }

  // How long it can take

  const STAGES: nat := 9

  function Rank(pc: Pc): nat {
    match pc
    case AtTop => 0 case InA => 1 case Working => 2 case Spinning => 3 case BeforeB => 4
    case InB => 5 case AfterB => 6 case EndReset => 7 case CountReset => 8
  }

  /** Stages passed, over all workspaces. */
  function Passed(pc: seq<Pc>, iter: seq<nat>): nat
    requires |pc| == |iter|
  {
    if pc == [] then 0 else
      var n := |pc| - 1;
      Passed(pc[..n], iter[..n]) + STAGES * iter[n] + Rank(pc[n])
  }

  lemma {:induction false} PassedUpdate(pc: seq<Pc>, iter: seq<nat>, t: nat, p: Pc, i: nat)
    requires |pc| == |iter| && t < |pc|
    ensures Passed(pc[t := p], iter[t := i]) + STAGES * iter[t] + Rank(pc[t])
         == Passed(pc, iter) + STAGES * i + Rank(p)
    decreases |pc|
  {
    var n := |pc| - 1;
    if t == n {
      assert pc[t := p][..n] == pc[..n] && iter[t := i][..n] == iter[..n];
    } else {
      assert pc[t := p][..n] == pc[..n][t := p] && iter[t := i][..n] == iter[..n][t := i];
      PassedUpdate(pc[..n], iter[..n], t, p, i);
    }
  }

  lemma {:induction false} PassedBound(pc: seq<Pc>, iter: seq<nat>, iterations: nat)
    requires |pc| == |iter|
    requires forall t :: 0 <= t < |pc| ==> iter[t] + (if pc[t].AtTop? then 0 else 1) <= iterations
    ensures Passed(pc, iter) <= |pc| * (STAGES * iterations)
  {
    if pc != [] {
      var n := |pc| - 1;
      PassedBound(pc[..n], iter[..n], iterations);
      assert STAGES * iter[n] + Rank(pc[n]) <= STAGES * iterations;
      assert (n + 1) * (STAGES * iterations) == n * (STAGES * iterations) + STAGES * iterations;
    }
  }

  lemma StepMovesOne(c: Config, s: State, step: Step)
    requires Shape(c, s) && Enabled(c, s, step)
    ensures var t, s' := step.t, Apply(c, s, step);
            && s'.pc == s.pc[t := s'.pc[t]] && s'.iter == s.iter[t := s'.iter[t]]
            && STAGES * s'.iter[t] + Rank(s'.pc[t])
               >= STAGES * s.iter[t] + Rank(s.pc[t]) + (if Useful(c, s, step) then 1 else 0)
  {
  }

  lemma StepPasses(c: Config, s: State, step: Step)
    requires Inv(c, s) && Enabled(c, s, step)
    ensures var s' := Apply(c, s, step);
            Passed(s'.pc, s'.iter) >= Passed(s.pc, s.iter) + (if Useful(c, s, step) then 1 else 0)
  {
    var t, s' := step.t, Apply(c, s, step);
    StepMovesOne(c, s, step);
    PassedUpdate(s.pc, s.iter, t, s'.pc[t], s'.iter[t]);
  }

  function UsefulSteps(c: Config, s: State, steps: seq<Step>): nat
    requires Shape(c, s) && Runs(c, s, steps)
  {
    if steps == [] then 0 else
      var past := steps[..|steps| - 1];
      UsefulSteps(c, s, past) + (if Useful(c, Exec(c, s, past), steps[|steps| - 1]) then 1 else 0)
  }

  lemma {:induction false} UsefulStepsPass(c: Config, steps: seq<Step>)
    requires GoodConfig(c) && Runs(c, Initial(c), steps)
    ensures var s := Exec(c, Initial(c), steps); UsefulSteps(c, Initial(c), steps) <= Passed(s.pc, s.iter)
    decreases |steps|
  {
    if steps != [] {
      var past := steps[..|steps| - 1];
      UsefulStepsPass(c, past);
      RunKeepsInv(c, past);
      StepPasses(c, Exec(c, Initial(c), past), steps[|steps| - 1]);
    }
  }

  /** No run takes more than nine useful steps per workspace and iteration; with `NeverStuck`, every run that
      keeps taking useful steps ends with all iterations done. */
  lemma RunsAreShort(c: Config, steps: seq<Step>)
    requires GoodConfig(c) && Runs(c, Initial(c), steps)
    ensures UsefulSteps(c, Initial(c), steps) <= |c.dispatcher| * (STAGES * c.iterations)
  {
    var s := Exec(c, Initial(c), steps);
    UsefulStepsPass(c, steps);
    RunKeepsInv(c, steps);
    forall t | 0 <= t < |s.pc| ensures s.iter[t] + (if s.pc[t].AtTop? then 0 else 1) <= c.iterations {
      assert PlaceInv(c, s.bar, t, s.pc[t], s.iter[t]);
    }
    PassedBound(s.pc, s.iter, c.iterations);
  }
}
