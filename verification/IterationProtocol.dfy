/** The per-iteration protocol (`src/ws_impl/workspace.cc`). */
module IterationProtocol {
  // `run_event_loop_timeout_st` and `update_stats`: N workspaces, two barrier waits per iteration, a shared
  // count of finished workspaces, and a first-come stats collector that resets the shared fields one write
  // at a time.

  import opened Counting
  import Barrier

  /** Where a workspace is in its loop: before the first wait, in it, measuring, (a dispatcher) launching on
      until all are done, before the second wait, in it, past it, and between the collector's writes. */
  datatype Pc = AtTop | InA | Working | Spinning | BeforeB | InB | AfterB | EndReset | CountReset

  /** elected lists the collectors, one entry each time a workspace finds `end_signal_` down. */
  datatype State = State(bar: Barrier.System, pc: seq<Pc>, iter: seq<nat>, statsInit: seq<bool>,
                         completed: nat, endSignal: bool, elected: seq<nat>)

  /** dispatcher tells the workspaces with the DISPATCHER bit; iterations is the loop's bound. */
  datatype Config = Config(dispatcher: seq<bool>, iterations: nat)

  const BYTE: nat := 256 // completed_ws_num_ is a uint8_t

  predicate GoodConfig(c: Config) {
    1 <= |c.dispatcher| < BYTE
  }

  datatype Step = WaitA(t: nat) | Wake(t: nat) | Update(t: nat) | SpinTest(t: nat) | WaitB(t: nat)
                | TestInit(t: nat) | ResetCount(t: nat) | ResetInit(t: nat)

  predicate Shape(c: Config, s: State) {
    var n := |c.dispatcher|;
    Barrier.Shape(s.bar) && |s.bar.threads| == n && |s.pc| == n && |s.iter| == n && |s.statsInit| == n
  }

  predicate Enabled(c: Config, s: State, step: Step)
    requires Shape(c, s)
  {
    step.t < |s.pc| &&
    match step
    case WaitA(t) => s.pc[t].AtTop? && s.iter[t] < c.iterations && s.bar.threads[t].Out?
    case Wake(t) => (s.pc[t].InA? || s.pc[t].InB?) && s.bar.threads[t].Asleep?
    case Update(t) => s.pc[t].Working?
    case SpinTest(t) => s.pc[t].Spinning?
    case WaitB(t) => s.pc[t].BeforeB? && s.bar.threads[t].Out?
    case TestInit(t) => s.pc[t].AfterB?
    case ResetCount(t) => s.pc[t].EndReset?
    case ResetInit(t) => s.pc[t].CountReset?
  }

  /** The locked section of `update_stats` on the shared fields: the new count, and whether the caller is the
      first and must collect. It leaves the end signal up. */
  function UpdateSection(completed: nat, endSignal: bool): (nat, bool) {
    ((completed + 1) % BYTE, !endSignal)
  }

  function NextIteration(s: State, t: nat): State
    requires t < |s.pc| == |s.iter|
  {
    s.(pc := s.pc[t := AtTop], iter := s.iter[t := s.iter[t] + 1])
  }

  function Apply(c: Config, s: State, step: Step): (s': State)
    requires Shape(c, s) && Enabled(c, s, step)
    ensures Shape(c, s')
  {
    match step
    case WaitA(t) =>
      var bar := Barrier.Apply(s.bar, Barrier.Enter(t));
      s.(bar := bar, pc := s.pc[t := if bar.threads[t].Asleep? then InA else Working])
    case Wake(t) =>
      var bar := Barrier.Apply(s.bar, Barrier.Recheck(t));
      s.(bar := bar, pc := s.pc[t := if bar.threads[t].Asleep? then s.pc[t] else if s.pc[t].InA? then Working else AfterB])
    case Update(t) =>
      var (completed, collects) := UpdateSection(s.completed, s.endSignal);
      s.(completed := completed, endSignal := true, pc := s.pc[t := if c.dispatcher[t] then Spinning else BeforeB],
         statsInit := if collects then s.statsInit[t := true] else s.statsInit,
         elected := if collects then s.elected + [t] else s.elected)
    case SpinTest(t) =>
      if s.completed != |c.dispatcher| then s else s.(pc := s.pc[t := BeforeB])
    case WaitB(t) =>
      var bar := Barrier.Apply(s.bar, Barrier.Enter(t));
      s.(bar := bar, pc := s.pc[t := if bar.threads[t].Asleep? then InB else AfterB])
    case TestInit(t) =>
      if s.statsInit[t] then s.(endSignal := false, pc := s.pc[t := EndReset]) else NextIteration(s, t)
    case ResetCount(t) => s.(completed := 0, pc := s.pc[t := CountReset])
    case ResetInit(t) => NextIteration(s.(statsInit := s.statsInit[t := false]), t)
  }

  function Initial(c: Config): State {
    var n := |c.dispatcher|;
    State(Barrier.Initial(n), seq(n, _ => AtTop), seq(n, _ => 0), seq(n, _ => false), 0, false, [])
  }

  /** Barrier waits begun in the current iteration. */
  function Waits(pc: Pc): nat {
    if pc.AtTop? then 0 else if pc.InA? || AtWork(pc) then 1 else 2
  }

  predicate AtWork(pc: Pc) { pc.Working? || pc.Spinning? || pc.BeforeB? }

  predicate Done(pc: Pc) { pc.Spinning? || pc.BeforeB? || pc.InB? }

  predicate Resetting(pc: Pc) { pc.EndReset? || pc.CountReset? }

  /** A workspace's place agrees with the barrier's view of it. */
  predicate PlaceInv(c: Config, bar: Barrier.System, t: nat, pc: Pc, iter: nat)
    requires t < |bar.threads| && t < |bar.entered|
  {
    && bar.entered[t] == 2 * iter + Waits(pc)
    && (bar.threads[t].Asleep? <==> pc.InA? || pc.InB?)
    && (if pc.AtTop? then iter <= c.iterations else iter < c.iterations)
  }

  ghost predicate Places(c: Config, s: State)
    requires Shape(c, s)
  {
    forall t :: 0 <= t < |s.pc| ==> PlaceInv(c, s.bar, t, s.pc[t], s.iter[t])
  }

  /** Only the latest collector has its flag up. */
  predicate OneFlag(c: Config, s: State)
    requires Shape(c, s)
  {
    && (forall t :: 0 <= t < |s.statsInit| && s.statsInit[t] ==> |s.elected| > 0 && t == s.elected[|s.elected| - 1])
    && (forall t :: 0 <= t < |s.pc| && Resetting(s.pc[t]) ==> s.statsInit[t])
  }

  /** Odd generation: the work phase of iteration g / 2. */
  predicate WorkPhase(c: Config, s: State)
    requires Shape(c, s)
  {
    && s.completed == Count(s.pc, Done)
    && (s.endSignal <==> s.completed > 0)
    && |s.elected| == s.bar.fields.generation / 2 + (if s.endSignal then 1 else 0)
    && (s.endSignal ==> |s.elected| > 0 && Latest(s) < |s.pc| && s.statsInit[Latest(s)])
    && (forall t :: 0 <= t < |s.pc| && s.statsInit[t] ==> s.endSignal && Done(s.pc[t]))
  }

  function Latest(s: State): nat
    requires |s.elected| > 0
  {
    s.elected[|s.elected| - 1]
  }

  /** Even generation: between the work of iteration g / 2 - 1 and that of g / 2. */
  predicate ResetPhase(c: Config, s: State)
    requires Shape(c, s)
  {
    && |s.elected| == s.bar.fields.generation / 2
    && (forall t :: 0 <= t < |s.pc| && s.statsInit[t] ==>
          && (s.pc[t].InB? || s.pc[t].AfterB? ==> s.endSignal && s.completed == |s.pc|)
          && (s.pc[t].EndReset? ==> !s.endSignal && s.completed == |s.pc|)
          && (s.pc[t].CountReset? ==> !s.endSignal && s.completed == 0)
          && (s.pc[t].InB? || s.pc[t].AfterB? || Resetting(s.pc[t])))
    && ((forall t :: 0 <= t < |s.pc| ==> !s.statsInit[t]) ==> !s.endSignal && s.completed == 0)
  }

  predicate Odd(s: State) { s.bar.fields.generation % 2 == 1 }

  ghost predicate Inv(c: Config, s: State) {
    && GoodConfig(c) && Shape(c, s) && Barrier.Inv(s.bar) && Places(c, s) && OneFlag(c, s)
    && (if Odd(s) then WorkPhase(c, s) else ResetPhase(c, s))
  }

  /** The generation's parity fixes where a workspace can be. */
  lemma PlaceByParity(c: Config, s: State, t: nat)
    requires Shape(c, s) && Barrier.Inv(s.bar) && Places(c, s) && t < |s.pc|
    ensures var g, pc := s.bar.fields.generation, s.pc[t];
            && (Odd(s) ==> (pc.InA? || AtWork(pc) || pc.InB?) && s.iter[t] == g / 2
                           && (pc.InB? <==> Barrier.AtGen(g)(s.bar.threads[t])))
            && (!Odd(s) ==> (pc.AtTop? || pc.InA? || pc.InB? || pc.AfterB? || Resetting(pc))
                            && s.iter[t] == (if pc.AtTop? || pc.InA? then g / 2 else g / 2 - 1)
                            && (pc.InA? <==> Barrier.AtGen(g)(s.bar.threads[t])))
  {
    var g := s.bar.fields.generation;
    assert PlaceInv(c, s.bar, t, s.pc[t], s.iter[t]);
    assert Barrier.ThreadInv(g, s.bar.threads[t], s.bar.entered[t], s.bar.returned[t]);
  }

  lemma AllPlaces(c: Config, s: State)
    requires Inv(c, s)
    ensures Odd(s) ==> forall t :: 0 <= t < |s.pc| ==> s.pc[t].InA? || AtWork(s.pc[t]) || s.pc[t].InB?
    ensures !Odd(s) ==> forall t :: 0 <= t < |s.pc| ==>
              s.pc[t].AtTop? || s.pc[t].InA? || s.pc[t].InB? || s.pc[t].AfterB? || Resetting(s.pc[t])
  {
    forall t | 0 <= t < |s.pc|
      ensures Odd(s) ==> s.pc[t].InA? || AtWork(s.pc[t]) || s.pc[t].InB?
      ensures !Odd(s) ==> s.pc[t].AtTop? || s.pc[t].InA? || s.pc[t].InB? || s.pc[t].AfterB? || Resetting(s.pc[t])
    {
      PlaceByParity(c, s, t);
    }
  }

  lemma InitInv(c: Config)
    requires GoodConfig(c)
    ensures Inv(c, Initial(c))
  {
    Barrier.InitInv(|c.dispatcher|);
  }

  /** A barrier step moves nobody but its own thread in or out of the barrier. */
  lemma OthersStay(bar: Barrier.System, step: Barrier.Step, u: nat)
    requires Barrier.Shape(bar) && Barrier.Enabled(bar, step) && u < |bar.threads| && u != step.t
    ensures var bar' := Barrier.Apply(bar, step);
            |bar'.threads| == |bar.threads| && bar'.entered[u] == bar.entered[u]
            && bar'.threads[u].Asleep? == bar.threads[u].Asleep?
  {
  }

  lemma OwnPlace(c: Config, s: State, step: Step)
    requires Inv(c, s) && Enabled(c, s, step) && (step.WaitA? || step.Wake? || step.WaitB?)
    ensures var s' := Apply(c, s, step); PlaceInv(c, s'.bar, step.t, s'.pc[step.t], s'.iter[step.t])
  {
    assert PlaceInv(c, s.bar, step.t, s.pc[step.t], s.iter[step.t]);
  }

  lemma BarrierStepKeepsPlaces(c: Config, s: State, step: Step)
    requires Inv(c, s) && Enabled(c, s, step) && (step.WaitA? || step.Wake? || step.WaitB?)
    ensures Barrier.Inv(Apply(c, s, step).bar) && Places(c, Apply(c, s, step))
  {
    var t, s' := step.t, Apply(c, s, step);
    var move := if step.Wake? then Barrier.Recheck(t) else Barrier.Enter(t);
    Barrier.StepKeepsInv(s.bar, move);
    OwnPlace(c, s, step);
    forall u | 0 <= u < |s.pc| ensures PlaceInv(c, s'.bar, u, s'.pc[u], s'.iter[u]) {
      if u != t {
        OthersStay(s.bar, move, u);
        assert PlaceInv(c, s.bar, u, s.pc[u], s.iter[u]);
      }
    }
  }

  lemma WaitAKeepsInv(c: Config, s: State, t: nat)
    requires Inv(c, s) && Enabled(c, s, WaitA(t))
    ensures Inv(c, Apply(c, s, WaitA(t)))
  {
    var s' := Apply(c, s, WaitA(t));
    BarrierStepKeepsPlaces(c, s, WaitA(t));
    PlaceByParity(c, s, t);
    if s'.pc[t].Working? { LastIntoWork(c, s, t); } else { IntoWait(c, s, t); }
  }

  lemma IntoWait(c: Config, s: State, t: nat)
    requires Inv(c, s) && Enabled(c, s, WaitA(t)) && !Apply(c, s, WaitA(t)).pc[t].Working? && !Odd(s)
    ensures ResetPhase(c, Apply(c, s, WaitA(t))) && !Odd(Apply(c, s, WaitA(t)))
  {
  }

  lemma LastIntoWork(c: Config, s: State, t: nat)
    requires Inv(c, s) && Enabled(c, s, WaitA(t)) && Apply(c, s, WaitA(t)).pc[t].Working? && !Odd(s)
    ensures WorkPhase(c, Apply(c, s, WaitA(t))) && Odd(Apply(c, s, WaitA(t)))
    ensures forall u :: 0 <= u < |s.pc| ==> !Done(Apply(c, s, WaitA(t)).pc[u])
  {
    var s' := Apply(c, s, WaitA(t));
    Barrier.LastOneIn(s.bar, t);
    forall u | 0 <= u < |s.pc| ensures !Done(s'.pc[u]) && !s.statsInit[u] {
      PlaceByParity(c, s, u);
    }
    CountIsNone(s'.pc, Done);
  }

  lemma WakeKeepsInv(c: Config, s: State, t: nat)
    requires Inv(c, s) && Enabled(c, s, Wake(t))
    ensures Inv(c, Apply(c, s, Wake(t)))
  {
    BarrierStepKeepsPlaces(c, s, Wake(t));
    if Odd(s) { WakeInWork(c, s, t); } else { WakeInReset(c, s, t); }
  }

  lemma WakeInWork(c: Config, s: State, t: nat)
    requires Inv(c, s) && Enabled(c, s, Wake(t)) && Odd(s)
    ensures var s' := Apply(c, s, Wake(t)); Odd(s') && OneFlag(c, s') && WorkPhase(c, s')
  {
    var s' := Apply(c, s, Wake(t));
    PlaceByParity(c, s, t);
    assert Done(s'.pc[t]) == Done(s.pc[t]);
    CountUpdate(s.pc, Done, t, s'.pc[t]);
  }

  lemma WakeInReset(c: Config, s: State, t: nat)
    requires Inv(c, s) && Enabled(c, s, Wake(t)) && !Odd(s)
    ensures var s' := Apply(c, s, Wake(t)); !Odd(s') && OneFlag(c, s') && ResetPhase(c, s')
  {
    PlaceByParity(c, s, t);
  }

  /** One workspace moves on without touching the barrier. */
  lemma OnePlaceMoves(c: Config, s: State, s': State, t: nat)
    requires Shape(c, s) && Shape(c, s') && Places(c, s) && s'.bar == s.bar && t < |s.pc|
    requires forall u :: 0 <= u < |s.pc| && u != t ==> s'.pc[u] == s.pc[u] && s'.iter[u] == s.iter[u]
    requires PlaceInv(c, s.bar, t, s'.pc[t], s'.iter[t])
    ensures Places(c, s')
  {
    forall u | 0 <= u < |s.pc| ensures PlaceInv(c, s'.bar, u, s'.pc[u], s'.iter[u]) {
      assert PlaceInv(c, s.bar, u, s.pc[u], s.iter[u]);
    }
  }

  lemma LocalStepKeepsPlaces(c: Config, s: State, step: Step)
    requires Inv(c, s) && Enabled(c, s, step) && !step.WaitA? && !step.Wake? && !step.WaitB?
    ensures Places(c, Apply(c, s, step))
  {
    assert PlaceInv(c, s.bar, step.t, s.pc[step.t], s.iter[step.t]);
    OnePlaceMoves(c, s, Apply(c, s, step), step.t);
  }

  lemma UpdateInWork(c: Config, s: State, t: nat)
    requires Inv(c, s) && Enabled(c, s, Update(t))
    ensures var s' := Apply(c, s, Update(t)); Odd(s) && Odd(s') && OneFlag(c, s') && WorkPhase(c, s')
  {
    PlaceByParity(c, s, t);
    NobodyFlagged(c, s);
    CompletedCounts(c, s, t);
  }

  /** The byte does not wrap: fewer than N workspaces have finished while one is still working. */
  lemma CompletedCounts(c: Config, s: State, t: nat)
    requires GoodConfig(c) && Shape(c, s) && WorkPhase(c, s) && Enabled(c, s, Update(t))
    ensures var s' := Apply(c, s, Update(t)); s'.completed == s.completed + 1 == Count(s'.pc, Done)
  {
    DoneCounts(s.pc, t, if c.dispatcher[t] then Spinning else BeforeB);
  }

  lemma DoneCounts(pc: seq<Pc>, t: nat, place: Pc)
    requires t < |pc| && !Done(pc[t]) && Done(place)
    ensures Count(pc[t := place], Done) == Count(pc, Done) + 1 <= |pc|
  {
    CountUpdate(pc, Done, t, place);
  }

  lemma NobodyFlagged(c: Config, s: State)
    requires Inv(c, s) && Odd(s)
    ensures forall u :: 0 <= u < |s.pc| ==> !Resetting(s.pc[u]) && (!s.endSignal ==> !s.statsInit[u])
  {
    AllPlaces(c, s);
  }

  lemma UpdateKeepsInv(c: Config, s: State, t: nat)
    requires Inv(c, s) && Enabled(c, s, Update(t))
    ensures Inv(c, Apply(c, s, Update(t)))
  {
    LocalStepKeepsPlaces(c, s, Update(t));
    UpdateInWork(c, s, t);
  }

  lemma SpinTestKeepsInv(c: Config, s: State, t: nat)
    requires Inv(c, s) && Enabled(c, s, SpinTest(t))
    ensures Inv(c, Apply(c, s, SpinTest(t)))
  {
    LocalStepKeepsPlaces(c, s, SpinTest(t));
    PlaceByParity(c, s, t);
    CountUpdate(s.pc, Done, t, Apply(c, s, SpinTest(t)).pc[t]);
  }

  lemma WaitBKeepsInv(c: Config, s: State, t: nat)
    requires Inv(c, s) && Enabled(c, s, WaitB(t))
    ensures Inv(c, Apply(c, s, WaitB(t)))
  {
    BarrierStepKeepsPlaces(c, s, WaitB(t));
    PlaceByParity(c, s, t);
    WaitBFlags(c, s, t);
    if Apply(c, s, WaitB(t)).pc[t].AfterB? {
      LastOutOfWork(c, s, t);
    } else {
      WaitBInWork(c, s, t);
    }
  }

  lemma WaitBFlags(c: Config, s: State, t: nat)
    requires Inv(c, s) && Enabled(c, s, WaitB(t))
    ensures OneFlag(c, Apply(c, s, WaitB(t)))
  {
  }

  lemma WaitBInWork(c: Config, s: State, t: nat)
    requires Inv(c, s) && Enabled(c, s, WaitB(t)) && Apply(c, s, WaitB(t)).pc[t].InB? && Odd(s)
    ensures var s' := Apply(c, s, WaitB(t)); Odd(s') && WorkPhase(c, s')
  {
    var s' := Apply(c, s, WaitB(t));
    assert s' == s.(bar := s'.bar, pc := s.pc[t := InB]) && s'.bar.fields.generation == s.bar.fields.generation;
    CountUpdate(s.pc, Done, t, InB);
  }

  lemma LastOutOfWork(c: Config, s: State, t: nat)
    requires Inv(c, s) && Enabled(c, s, WaitB(t)) && Apply(c, s, WaitB(t)).pc[t].AfterB? && Odd(s)
    ensures ResetPhase(c, Apply(c, s, WaitB(t))) && !Odd(Apply(c, s, WaitB(t)))
  {
    Barrier.LastOneIn(s.bar, t);
    forall u | 0 <= u < |s.pc| ensures Done(s.pc[u]) && (u != t ==> s.pc[u].InB?) {
      PlaceByParity(c, s, u);
    }
    CountIsAll(s.pc, Done);
  }

  lemma TestInReset(c: Config, s: State, t: nat)
    requires Inv(c, s) && Enabled(c, s, TestInit(t))
    ensures var s' := Apply(c, s, TestInit(t)); !Odd(s') && OneFlag(c, s') && ResetPhase(c, s')
  {
    PlaceByParity(c, s, t);
  }

  lemma CountInReset(c: Config, s: State, t: nat)
    requires Inv(c, s) && Enabled(c, s, ResetCount(t))
    ensures var s' := Apply(c, s, ResetCount(t)); !Odd(s') && OneFlag(c, s') && ResetPhase(c, s')
  {
    PlaceByParity(c, s, t);
  }

  lemma InitInReset(c: Config, s: State, t: nat)
    requires Inv(c, s) && Enabled(c, s, ResetInit(t))
    ensures var s' := Apply(c, s, ResetInit(t)); !Odd(s') && OneFlag(c, s') && ResetPhase(c, s')
  {
    PlaceByParity(c, s, t);
  }

  lemma StepKeepsInv(c: Config, s: State, step: Step)
    requires Inv(c, s) && Enabled(c, s, step)
    ensures Inv(c, Apply(c, s, step))
  {
    match step
    case WaitA(t) => WaitAKeepsInv(c, s, t);
    case Wake(t) => WakeKeepsInv(c, s, t);
    case Update(t) => UpdateKeepsInv(c, s, t);
    case SpinTest(t) => SpinTestKeepsInv(c, s, t);
    case WaitB(t) => WaitBKeepsInv(c, s, t);
    case TestInit(t) => LocalStepKeepsPlaces(c, s, step); TestInReset(c, s, t);
    case ResetCount(t) => LocalStepKeepsPlaces(c, s, step); CountInReset(c, s, t);
    case ResetInit(t) => LocalStepKeepsPlaces(c, s, step); InitInReset(c, s, t);
  }

  /** The shared fields as an object: the locked section of `update_stats`, and the collector's reset. */
  class WsContext {
    var completedWsNum: nat
    var endSignal: bool

    constructor ()
      ensures completedWsNum == 0 && !endSignal
    {
      completedWsNum, endSignal := 0, false;
    }

    method UpdateStats() returns (collects: bool)
      modifies this
      ensures (completedWsNum, collects) == UpdateSection(old(completedWsNum), old(endSignal)) && endSignal
    {
      completedWsNum := (completedWsNum + 1) % BYTE;
      collects := false;
      if !endSignal {
        endSignal := true;
        collects := true;
      }
    }
  }
}
