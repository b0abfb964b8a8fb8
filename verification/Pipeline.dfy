/** From the workload configuration to each workspace's loop (`src/datapath_pipeline.h`), and the number of
    threads that the barrier waits for (`src/main.cc`). */
module Pipeline {
  datatype PhaseType = TxNic | TxDispatcher | TxApplication | RxNic | RxDispatcher | RxApplication

  datatype Func = ApplyMbufs | GeneratePkts | BurstedTx | NicTx | AppHandler | NicRx | BurstedRx

  datatype Role = DispatcherRole | WorkerRole | NicRole

  const WS_MAX: nat := 16           // kWorkspaceMaxNum
  const INVALID_WORKLOAD: nat := 17 // kInvalidWorkloadType

  /** `name_phase_type_map_[name]`: looking up an unknown name inserts type 0, which is TxNIC. */
  function PhaseNamed(name: string): PhaseType {
    if name == "TxApplication" then TxApplication else if name == "TxDispatcher" then TxDispatcher
    else if name == "TxNIC" then TxNic else if name == "RXNIC" then RxNic
    else if name == "RXDispatcher" then RxDispatcher else if name == "RxApplication" then RxApplication
    else TxNic
  }

  function LoopOf(t: PhaseType): seq<Func> {
    match t
    case TxApplication => [ApplyMbufs, GeneratePkts]
    case TxDispatcher => [BurstedTx, NicTx]
    case RxApplication => [AppHandler]
    case RxDispatcher => [NicRx, BurstedRx]
    case TxNic => [] case RxNic => []
  }

  function RoleOf(t: PhaseType): Role {
    if t.TxApplication? || t.RxApplication? then WorkerRole
    else if t.TxDispatcher? || t.RxDispatcher? then DispatcherRole
    else NicRole
  }

  /** The entries of the three maps for one workload type. */
  datatype Workload = Workload(kind: nat, phases: seq<string>, groups: seq<seq<nat>>, dispatchers: seq<nat>)

  datatype Phase = Phase(kind: PhaseType, launch: seq<nat>, loop: seq<Func>)

  datatype Pipe = Pipe(kind: nat, phases: seq<Phase>)

  function Flat<T>(rows: seq<seq<T>>): seq<T> {
    if rows == [] then [] else Flat(rows[..|rows| - 1]) + rows[|rows| - 1]
  }

  /** An application phase is launched on every worker of every group, a dispatcher phase on the dispatchers, a
      NIC phase nowhere. */
  function MakePhase(w: Workload, t: PhaseType): Phase {
    Phase(t, match RoleOf(t) case WorkerRole => Flat(w.groups) case DispatcherRole => w.dispatchers case NicRole => [], LoopOf(t))
  }

  function MakePhases(w: Workload, types: seq<PhaseType>): seq<Phase> {
    if types == [] then [] else MakePhases(w, types[..|types| - 1]) + [MakePhase(w, types[|types| - 1])]
  }

  function Types(names: seq<string>): seq<PhaseType> {
    if names == [] then [] else Types(names[..|names| - 1]) + [PhaseNamed(names[|names| - 1])]
  }

  function MakePipe(w: Workload): Pipe { Pipe(w.kind, MakePhases(w, Types(w.phases))) }

  function MakePipes(config: seq<Workload>): seq<Pipe> {
    if config == [] then [] else MakePipes(config[..|config| - 1]) + [MakePipe(config[|config| - 1])]
  }

  predicate Runs(p: Phase, ws: nat) { ws in p.launch }

  /** All phases, workload by workload. */
  function Phases(pipes: seq<Pipe>): seq<Phase> {
    if pipes == [] then [] else Phases(pipes[..|pipes| - 1]) + pipes[|pipes| - 1].phases
  }

  /** The functions of the phases launched on ws, with repetitions. */
  function FuncsOn(phases: seq<Phase>, ws: nat): seq<Func> {
    if phases == [] then [] else
      var last := phases[|phases| - 1];
      var rest := FuncsOn(phases[..|phases| - 1], ws);
      if Runs(last, ws) then rest + last.loop else rest
  }

  function RolesOn(phases: seq<Phase>, ws: nat): set<Role> {
    if phases == [] then {} else
      var last := phases[|phases| - 1];
      var rest := RolesOn(phases[..|phases| - 1], ws);
      if Runs(last, ws) then rest + {RoleOf(last.kind)} else rest
  }

  /** Each function once, where it first occurs. */
  function Distinct(s: seq<Func>): seq<Func> {
    if s == [] then [] else
      var rest, f := Distinct(s[..|s| - 1]), s[|s| - 1];
      if f in rest then rest else rest + [f]
  }

  /** The first pipe with a phase on ws. */
  function WorkloadOf(pipes: seq<Pipe>, ws: nat): nat {
    if pipes == [] then INVALID_WORKLOAD else
      var before, last := WorkloadOf(pipes[..|pipes| - 1], ws), pipes[|pipes| - 1];
      if before == INVALID_WORKLOAD && HasPhaseOn(last.phases, ws) then last.kind else before
  }

  predicate HasPhaseOn(phases: seq<Phase>, ws: nat) {
    exists i :: 0 <= i < |phases| && Runs(phases[i], ws)
  }

  function FirstIndex(s: seq<Func>, f: Func): (i: nat)
    requires f in s
    ensures i < |s| && s[i] == f && f !in s[..i]
  {
    if s[0] == f then 0 else 1 + FirstIndex(s[1..], f)
  }

  /** The loop is free of duplicates, has exactly the functions of the sequence, in the order of their first
      occurrences. */
  lemma {:induction false} DistinctIsFirstOccurrences(s: seq<Func>)
    ensures forall f :: f in Distinct(s) <==> f in s
    ensures forall i, j :: 0 <= i < j < |Distinct(s)| ==>
              Distinct(s)[i] != Distinct(s)[j] && FirstIndex(s, Distinct(s)[i]) < FirstIndex(s, Distinct(s)[j])
  {
    if s != [] {
      var p, f := s[..|s| - 1], s[|s| - 1];
      assert s == p + [f];
      DistinctIsFirstOccurrences(p);
      forall g | g in p ensures FirstIndex(s, g) == FirstIndex(p, g) { FirstIndexOfPrefix(p, f, g); }
      if f !in p { assert FirstIndex(s, f) == |s| - 1; }
    }
  }

  lemma {:induction false} FirstIndexIs(s: seq<Func>, f: Func, i: nat)
    requires i < |s| && s[i] == f && f !in s[..i]
    ensures FirstIndex(s, f) == i
  {
    if i > 0 {
      assert s[..i][0] == s[0] && s[1..][..i - 1] == s[..i][1..];
      FirstIndexIs(s[1..], f, i - 1);
    }
  }

  lemma FirstIndexOfPrefix(p: seq<Func>, f: Func, g: Func)
    requires g in p
    ensures FirstIndex(p + [f], g) == FirstIndex(p, g)
  {
    var i := FirstIndex(p, g);
    assert (p + [f])[..i] == p[..i];
    FirstIndexIs(p + [f], g, i);
  }

  lemma {:induction false} FuncsOnMembers(phases: seq<Phase>, ws: nat, f: Func)
    ensures f in FuncsOn(phases, ws) <==> exists i :: 0 <= i < |phases| && Runs(phases[i], ws) && f in phases[i].loop
  {
    if phases != [] {
      var p, last := phases[..|phases| - 1], phases[|phases| - 1];
      FuncsOnMembers(p, ws, f);
      assert forall i :: 0 <= i < |p| ==> p[i] == phases[i];
      if Runs(last, ws) && f in last.loop { assert Runs(phases[|p|], ws); }
    }
  }

  lemma {:induction false} RolesOnMembers(phases: seq<Phase>, ws: nat)
    ensures RolesOn(phases, ws) != {} <==> HasPhaseOn(phases, ws)
  {
    if phases != [] {
      var p, last := phases[..|phases| - 1], phases[|phases| - 1];
      RolesOnMembers(p, ws);
      assert forall i :: 0 <= i < |p| ==> p[i] == phases[i];
      if Runs(last, ws) { assert Runs(phases[|p|], ws) && RoleOf(last.kind) in RolesOn(phases, ws); }
    }
  }

  lemma {:induction false} RolesOnConcat(a: seq<Phase>, b: seq<Phase>, ws: nat)
    ensures RolesOn(a + b, ws) == RolesOn(a, ws) + RolesOn(b, ws)
  {
    if b == [] {
      assert a + b == a;
    } else {
      assert (a + b)[..|a + b| - 1] == a + b[..|b| - 1];
      RolesOnConcat(a, b[..|b| - 1], ws);
    }
  }

  /** A workspace has a type exactly when it has a workload: the threads that the barrier counts are the ones
      that run, and so the ones that wait. */
  lemma {:induction false} TypedIffHasWorkload(pipes: seq<Pipe>, ws: nat)
    requires forall i :: 0 <= i < |pipes| ==> pipes[i].kind < INVALID_WORKLOAD
    ensures RolesOn(Phases(pipes), ws) != {} <==> WorkloadOf(pipes, ws) != INVALID_WORKLOAD
  {
    if pipes != [] {
      var p, last := pipes[..|pipes| - 1], pipes[|pipes| - 1];
      TypedIffHasWorkload(p, ws);
      RolesOnConcat(Phases(p), last.phases, ws);
      RolesOnMembers(last.phases, ws);
    }
  }

  lemma NicRunsNowhere(w: Workload, t: PhaseType, ws: nat)
    requires RoleOf(t).NicRole?
    ensures !Runs(MakePhase(w, t), ws)
  {
  }

  /** The phases that do something. */
  function Active(types: seq<PhaseType>): seq<PhaseType> {
    if types == [] then [] else
      var rest, last := Active(types[..|types| - 1]), types[|types| - 1];
      if RoleOf(last).NicRole? then rest else rest + [last]
  }

  /** NIC phases, and with them phases under an unknown name, are launched nowhere: the phases that run on a
      workspace are those of the configuration without them. */
  lemma {:induction false} NicPhasesVanish(w: Workload, types: seq<PhaseType>, ws: nat)
    ensures PhasesOn(MakePhases(w, types), ws) == PhasesOn(MakePhases(w, Active(types)), ws)
  {
    if types != [] {
      var p, last := types[..|types| - 1], types[|types| - 1];
      NicPhasesVanish(w, p, ws);
      assert MakePhases(w, types)[..|MakePhases(w, types)| - 1] == MakePhases(w, p);
      if RoleOf(last).NicRole? {
        NicRunsNowhere(w, last, ws);
      } else {
        var a := Active(types);
        assert a[..|a| - 1] == Active(p);
        assert MakePhases(w, a)[..|MakePhases(w, a)| - 1] == MakePhases(w, Active(p));
      }
    }
  }

  function PhasesOn(phases: seq<Phase>, ws: nat): seq<Phase> {
    if phases == [] then [] else
      var last := phases[|phases| - 1];
      var rest := PhasesOn(phases[..|phases| - 1], ws);
      if Runs(last, ws) then rest + [last] else rest
  }

  /** Loop and type depend only on the phases that run there. */
  lemma {:induction false} OnlyPhasesOnMatter(phases: seq<Phase>, ws: nat)
    ensures FuncsOn(PhasesOn(phases, ws), ws) == FuncsOn(phases, ws)
    ensures RolesOn(PhasesOn(phases, ws), ws) == RolesOn(phases, ws)
  {
    if phases != [] {
      var p, last := phases[..|phases| - 1], phases[|phases| - 1];
      OnlyPhasesOnMatter(p, ws);
      if Runs(last, ws) {
        var on := PhasesOn(phases, ws);
        assert on == PhasesOn(p, ws) + [last];
        assert on[..|on| - 1] == PhasesOn(p, ws) && on[|on| - 1] == last;
      }
    }
  }

  const PHASE_NAMES: seq<string> := ["TxApplication", "TxDispatcher", "TxNIC", "RXNIC", "RXDispatcher", "RxApplication"]

  predicate IsKnown(name: string) { name in PHASE_NAMES }

  lemma UnknownIsNic(name: string)
    requires !IsKnown(name)
    ensures PhaseNamed(name) == TxNic
  {
  }

  /** The names that the map knows. */
  function Known(names: seq<string>): seq<string> {
    if names == [] then [] else
      var rest, last := Known(names[..|names| - 1]), names[|names| - 1];
      if IsKnown(last) then rest + [last] else rest
  }

  lemma ActiveNext(types: seq<PhaseType>, t: PhaseType)
    ensures Active(types + [t]) == if RoleOf(t).NicRole? then Active(types) else Active(types) + [t]
  {
    assert (types + [t])[..|types + [t]| - 1] == types;
  }

  lemma TypesNext(names: seq<string>, name: string)
    ensures Types(names + [name]) == Types(names) + [PhaseNamed(name)]
  {
    assert (names + [name])[..|names + [name]| - 1] == names;
  }

  lemma {:induction false} ActiveAreKnown(names: seq<string>)
    ensures Active(Types(Known(names))) == Active(Types(names))
  {
    if names != [] {
      var p, last := names[..|names| - 1], names[|names| - 1];
      ActiveAreKnown(p);
      ActiveNext(Types(p), PhaseNamed(last));
      if IsKnown(last) {
        TypesNext(Known(p), last);
        ActiveNext(Types(Known(p)), PhaseNamed(last));
      } else {
        UnknownIsNic(last);
      }
    }
  }

  /** The configuration without the names that the map does not know. */
  function Corrected(config: seq<Workload>): seq<Workload> {
    if config == [] then [] else
      var w := config[|config| - 1];
      Corrected(config[..|config| - 1]) + [Workload(w.kind, Known(w.phases), w.groups, w.dispatchers)]
  }

  lemma {:induction false} PhasesOnConcat(a: seq<Phase>, b: seq<Phase>, ws: nat)
    ensures PhasesOn(a + b, ws) == PhasesOn(a, ws) + PhasesOn(b, ws)
  {
    if b == [] {
      assert a + b == a;
    } else {
      assert (a + b)[..|a + b| - 1] == a + b[..|b| - 1];
      PhasesOnConcat(a, b[..|b| - 1], ws);
    }
  }

  lemma SameGroups(w: Workload, v: Workload, types: seq<PhaseType>)
    requires v.groups == w.groups && v.dispatchers == w.dispatchers
    ensures MakePhases(v, types) == MakePhases(w, types)
  {
  }

  lemma {:induction false} CorrectedPhasesOn(config: seq<Workload>, ws: nat)
    ensures PhasesOn(Phases(MakePipes(Corrected(config))), ws) == PhasesOn(Phases(MakePipes(config)), ws)
  {
    if config != [] {
      var p, w := config[..|config| - 1], config[|config| - 1];
      var v := Workload(w.kind, Known(w.phases), w.groups, w.dispatchers);
      var all := Corrected(config);
      CorrectedPhasesOn(p, ws);
      assert all[..|all| - 1] == Corrected(p) && all[|all| - 1] == v;
      PhasesOnConcat(Phases(MakePipes(p)), MakePipe(w).phases, ws);
      PhasesOnConcat(Phases(MakePipes(Corrected(p))), MakePipe(v).phases, ws);
      ActiveAreKnown(w.phases);
      NicPhasesVanish(w, Types(w.phases), ws);
      NicPhasesVanish(v, Types(v.phases), ws);
      SameGroups(w, v, Active(Types(w.phases)));
    }
  }

  /** A phase name that the map does not know is ignored: every workspace gets the loop and the type that it has
      without the name. */
  lemma MisspeltNamesAreIgnored(config: seq<Workload>, ws: nat)
    ensures Distinct(FuncsOn(Phases(MakePipes(Corrected(config))), ws)) == Distinct(FuncsOn(Phases(MakePipes(config)), ws))
    ensures RolesOn(Phases(MakePipes(Corrected(config))), ws) == RolesOn(Phases(MakePipes(config)), ws)
  {
    CorrectedPhasesOn(config, ws);
    OnlyPhasesOnMatter(Phases(MakePipes(config)), ws);
    OnlyPhasesOnMatter(Phases(MakePipes(Corrected(config))), ws);
  }

  /** Functions that the phases list one after the other. */
  predicate Paired(f: Func, g: Func) {
    (f.ApplyMbufs? && g.GeneratePkts?) || (f.BurstedTx? && g.NicTx?) || (f.NicRx? && g.BurstedRx?)
  }

  predicate Made(phases: seq<Phase>) { forall i :: 0 <= i < |phases| ==> phases[i].loop == LoopOf(phases[i].kind) }

  lemma {:induction false} PairsInOrder(phases: seq<Phase>, ws: nat, f: Func, g: Func)
    requires Made(phases) && Paired(f, g) && g in FuncsOn(phases, ws)
    ensures f in FuncsOn(phases, ws) && FirstIndex(FuncsOn(phases, ws), f) < FirstIndex(FuncsOn(phases, ws), g)
  {
    var p, last := phases[..|phases| - 1], phases[|phases| - 1];
    var before := FuncsOn(p, ws);
    if g in before {
      PairsInOrder(p, ws, f, g);
      if Runs(last, ws) {
        FirstIndexInFront(before, last.loop, f);
        FirstIndexInFront(before, last.loop, g);
      }
    } else {
      PairInLoop(before, last.kind, f, g);
    }
  }

  lemma FirstIndexInFront(a: seq<Func>, b: seq<Func>, f: Func)
    requires f in a
    ensures FirstIndex(a + b, f) == FirstIndex(a, f)
  {
    var i := FirstIndex(a, f);
    assert (a + b)[..i] == a[..i];
    FirstIndexIs(a + b, f, i);
  }

  lemma PairInLoop(before: seq<Func>, t: PhaseType, f: Func, g: Func)
    requires Paired(f, g) && g !in before && g in LoopOf(t)
    ensures f in before + LoopOf(t) && FirstIndex(before + LoopOf(t), f) < FirstIndex(before + LoopOf(t), g)
  {
    var s, n := before + LoopOf(t), |before|;
    assert LoopOf(t) == [f, g] && s[n] == f && s[n + 1] == g;
    assert s[..n + 1] == before + [f];
    FirstIndexIs(s, g, n + 1);
    if f in before { FirstIndexInFront(before, LoopOf(t), f); } else {
      assert s[..n] == before;
      FirstIndexIs(s, f, n);
    }
  }

  /** In every loop that the pipeline generates, buffers are applied for before packets are generated, packets
      are collected before they are flushed, and received before they are dispatched. */
  lemma LoopOrder(phases: seq<Phase>, ws: nat, i: nat, j: nat)
    requires Made(phases) && i < |Distinct(FuncsOn(phases, ws))| && j < |Distinct(FuncsOn(phases, ws))|
    requires Paired(Distinct(FuncsOn(phases, ws))[i], Distinct(FuncsOn(phases, ws))[j])
    ensures i < j
  {
    var s := FuncsOn(phases, ws);
    DistinctIsFirstOccurrences(s);
    PairsInOrder(phases, ws, Distinct(s)[i], Distinct(s)[j]);
    EarlierFirst(s, i, j);
  }

  lemma EarlierFirst(s: seq<Func>, i: nat, j: nat)
    requires i < |Distinct(s)| && j < |Distinct(s)| && Distinct(s)[i] in s && Distinct(s)[j] in s
    requires FirstIndex(s, Distinct(s)[i]) < FirstIndex(s, Distinct(s)[j])
    ensures i < j
  {
    DistinctIsFirstOccurrences(s);
  }

  lemma {:induction false} PhasesAreMade(w: Workload, types: seq<PhaseType>)
    ensures Made(MakePhases(w, types))
  {
    if types != [] { PhasesAreMade(w, types[..|types| - 1]); }
  }

  lemma {:induction false} ConfigIsMade(config: seq<Workload>)
    ensures Made(Phases(MakePipes(config)))
  {
    if config != [] {
      var p, last := config[..|config| - 1], config[|config| - 1];
      ConfigIsMade(p);
      PhasesAreMade(last, Types(last.phases));
      assert MakePipes(config)[..|MakePipes(config)| - 1] == MakePipes(p);
    }
  }

  /** No workspace ever gets the NIC_OFFLOAD bit. */
  lemma {:induction false} NicPhasesRunNowhere(w: Workload, types: seq<PhaseType>, ws: nat)
    ensures NicRole !in RolesOn(MakePhases(w, types), ws)
  {
    if types != [] { NicPhasesRunNowhere(w, types[..|types| - 1], ws); }
  }

  // What the configuration asks of a workspace

  /** The phase name that brings a function into a loop. */
  function NameOf(f: Func): string {
    match f
    case ApplyMbufs => "TxApplication" case GeneratePkts => "TxApplication"
    case BurstedTx => "TxDispatcher" case NicTx => "TxDispatcher"
    case AppHandler => "RxApplication"
    case NicRx => "RXDispatcher" case BurstedRx => "RXDispatcher"
  }

  /** The workload has a phase of this name, and ws among its workers, or its dispatchers if it is a dispatcher phase. */
  predicate Asks(w: Workload, name: string, ws: nat) {
    name in w.phases && if name == "TxApplication" || name == "RxApplication" then InGroups(w.groups, ws) else ws in w.dispatchers
  }

  predicate InGroups(groups: seq<seq<nat>>, ws: nat) { exists g :: 0 <= g < |groups| && ws in groups[g] }

  lemma {:induction false} FlatMembers(groups: seq<seq<nat>>, ws: nat)
    ensures ws in Flat(groups) <==> InGroups(groups, ws)
  {
    if groups != [] {
      var p := groups[..|groups| - 1];
      FlatMembers(p, ws);
      assert forall g :: 0 <= g < |p| ==> p[g] == groups[g];
      if ws in groups[|p|] { assert InGroups(groups, ws); }
    }
  }

  lemma NamedLoop(name: string, f: Func)
    ensures f in LoopOf(PhaseNamed(name)) <==> name == NameOf(f)
  {
  }

  lemma OnePhaseAsks(w: Workload, name: string, ws: nat, f: Func)
    ensures Runs(MakePhase(w, PhaseNamed(name)), ws) && f in LoopOf(PhaseNamed(name))
            <==> name == NameOf(f) && (if name == "TxApplication" || name == "RxApplication" then InGroups(w.groups, ws)
                                       else ws in w.dispatchers)
  {
    NamedLoop(name, f);
    FlatMembers(w.groups, ws);
    if name == NameOf(f) { OwnPhase(w, ws, f); }
  }

  lemma OwnPhase(w: Workload, ws: nat, f: Func)
    ensures var name := NameOf(f);
            Runs(MakePhase(w, PhaseNamed(name)), ws)
            <==> if name == "TxApplication" || name == "RxApplication" then ws in Flat(w.groups) else ws in w.dispatchers
  {
  }

  lemma {:induction false} WorkloadAsks(w: Workload, names: seq<string>, ws: nat, f: Func)
    ensures f in FuncsOn(MakePhases(w, Types(names)), ws) <==> Asks(Workload(w.kind, names, w.groups, w.dispatchers), NameOf(f), ws)
  {
    if names != [] {
      var p, last := names[..|names| - 1], names[|names| - 1];
      assert names == p + [last];
      WorkloadAsks(w, p, ws, f);
      OneMorePhase(MakePhases(w, Types(p)), MakePhase(w, PhaseNamed(last)), ws);
      OnePhaseAsks(w, last, ws, f);
    }
  }

  lemma {:induction false} FuncsOnConcat(a: seq<Phase>, b: seq<Phase>, ws: nat)
    ensures FuncsOn(a + b, ws) == FuncsOn(a, ws) + FuncsOn(b, ws)
  {
    if b == [] {
      assert a + b == a;
    } else {
      assert (a + b)[..|a + b| - 1] == a + b[..|b| - 1];
      FuncsOnConcat(a, b[..|b| - 1], ws);
    }
  }

  predicate SomeAsks(config: seq<Workload>, name: string, ws: nat) { exists i :: 0 <= i < |config| && Asks(config[i], name, ws) }

  lemma SomeAsksNext(p: seq<Workload>, w: Workload, name: string, ws: nat)
    ensures SomeAsks(p + [w], name, ws) <==> SomeAsks(p, name, ws) || Asks(w, name, ws)
  {
    assert (p + [w])[|p|] == w && forall i :: 0 <= i < |p| ==> (p + [w])[i] == p[i];
  }

  lemma PhasesNext(p: seq<Workload>, w: Workload)
    ensures Phases(MakePipes(p + [w])) == Phases(MakePipes(p)) + MakePhases(w, Types(w.phases))
  {
    var pipes := MakePipes(p + [w]);
    assert (p + [w])[..|p|] == p;
    assert pipes[..|pipes| - 1] == MakePipes(p);
  }

  lemma NextAsks(p: seq<Workload>, w: Workload, ws: nat, f: Func)
    requires f in FuncsOn(Phases(MakePipes(p)), ws) <==> SomeAsks(p, NameOf(f), ws)
    ensures f in FuncsOn(Phases(MakePipes(p + [w])), ws) <==> SomeAsks(p + [w], NameOf(f), ws)
  {
    PhasesNext(p, w);
    SomeAsksNext(p, w, NameOf(f), ws);
    FuncsOnConcat(Phases(MakePipes(p)), MakePhases(w, Types(w.phases)), ws);
    WorkloadAsks(w, w.phases, ws, f);
  }

  lemma LastApart<T>(x: seq<T>)
    requires x != []
    ensures x == x[..|x| - 1] + [x[|x| - 1]]
  {
  }

  lemma {:induction false} ConfigAsks(config: seq<Workload>, ws: nat, f: Func)
    ensures f in FuncsOn(Phases(MakePipes(config)), ws) <==> SomeAsks(config, NameOf(f), ws)
  {
    if config != [] {
      ConfigAsks(config[..|config| - 1], ws, f);
      LastApart(config);
      NextAsks(config[..|config| - 1], config[|config| - 1], ws, f);
    }
  }

  /** A workspace's loop has a function exactly when some workload has the phase that it belongs to, and the workspace
      among the workers or dispatchers that run it. */
  lemma LoopHas(config: seq<Workload>, ws: nat, f: Func)
    ensures f in Distinct(FuncsOn(Phases(MakePipes(config)), ws)) <==> SomeAsks(config, NameOf(f), ws)
  {
    ConfigAsks(config, ws, f);
    DistinctIsFirstOccurrences(FuncsOn(Phases(MakePipes(config)), ws));
  }

  /** It is a worker exactly when it has a worker's function, and a dispatcher exactly when it has a dispatcher's. */
  lemma {:induction false} TypeOfLoop(phases: seq<Phase>, ws: nat)
    requires Made(phases)
    ensures WorkerRole in RolesOn(phases, ws) <==> GeneratePkts in FuncsOn(phases, ws) || AppHandler in FuncsOn(phases, ws)
    ensures DispatcherRole in RolesOn(phases, ws) <==> NicTx in FuncsOn(phases, ws) || NicRx in FuncsOn(phases, ws)
  {
    if phases != [] {
      TypeOfLoop(phases[..|phases| - 1], ws);
    }
  }

  /** The workload of a workspace is the first that has a phase on it, and there is none if no workload has. */
  lemma {:induction false} FirstWorkload(pipes: seq<Pipe>, ws: nat, i: nat)
    requires i <= |pipes| && forall j :: 0 <= j < i ==> !HasPhaseOn(pipes[j].phases, ws)
    requires i < |pipes| ==> HasPhaseOn(pipes[i].phases, ws)
    requires forall k :: 0 <= k < |pipes| ==> pipes[k].kind < INVALID_WORKLOAD
    ensures WorkloadOf(pipes, ws) == if i < |pipes| then pipes[i].kind else INVALID_WORKLOAD
    decreases |pipes|
  {
    if pipes != [] {
      var n := |pipes| - 1;
      if i <= n { FirstWorkload(pipes[..n], ws, if i < n then i else n); } else { FirstWorkload(pipes[..n], ws, n); }
    }
  }

  /** How many of the first n workspaces have a type, that is, run and wait at the barrier. */
  function Threads(pipes: seq<Pipe>, n: nat): nat {
    if n == 0 then 0 else Threads(pipes, n - 1) + if RolesOn(Phases(pipes), n - 1) != {} then 1 else 0
  }

  lemma OneMorePhase(phases: seq<Phase>, p: Phase, ws: nat)
    ensures FuncsOn(phases + [p], ws) == if Runs(p, ws) then FuncsOn(phases, ws) + p.loop else FuncsOn(phases, ws)
    ensures RolesOn(phases + [p], ws) == RolesOn(phases, ws) + if Runs(p, ws) then {RoleOf(p.kind)} else {}
  {
    assert (phases + [p])[..|phases + [p]| - 1] == phases;
  }

  class DatapathPipeline {
    var pipes: seq<Pipe> // workload_pipe_map_, in the order of the workload types

    /** One workload after the other; in each, one phase after the other. */
    constructor (config: seq<Workload>)
      ensures pipes == MakePipes(config)
    {
      pipes := [];
      new;
      for i := 0 to |config|
        invariant pipes == MakePipes(config[..i])
      {
        assert config[..i + 1][..i] == config[..i];
        pipes := pipes + [Pipe(config[i].kind, [])];
        AddPhases(config[i]);
      }
      assert config[..|config|] == config;
    }

    method AddPhases(w: Workload)
      requires pipes != [] && pipes[|pipes| - 1] == Pipe(w.kind, [])
      modifies this
      ensures pipes == old(pipes)[..|old(pipes)| - 1] + [MakePipe(w)]
    {
      for k := 0 to |w.phases|
        invariant pipes == old(pipes)[..|old(pipes)| - 1] + [Pipe(w.kind, MakePhases(w, Types(w.phases[..k])))]
      {
        assert w.phases[..k + 1][..k] == w.phases[..k];
        ghost var types := Types(w.phases[..k + 1]);
        assert types[..|types| - 1] == Types(w.phases[..k]);
        var last := pipes[|pipes| - 1];
        pipes := pipes[..|pipes| - 1] + [Pipe(last.kind, last.phases + [MakePhase(w, PhaseNamed(w.phases[k]))])];
      }
      assert w.phases[..|w.phases|] == w.phases;
    }

    /** `check_ws_id`. */
    static method CheckWsId(p: Phase, ws: nat) returns (found: bool)
      ensures found <==> Runs(p, ws)
    {
      for i := 0 to |p.launch|
        invariant forall k :: 0 <= k < i ==> p.launch[k] != ws
      {
        if p.launch[i] == ws { return true; }
      }
      found := false;
    }

    static method AppendNew(wsLoop: seq<Func>, funcs: seq<Func>, ghost all: seq<Func>) returns (r: seq<Func>)
      requires wsLoop == Distinct(all)
      ensures r == Distinct(all + funcs)
    {
      r := wsLoop;
      assert all + funcs[..0] == all;
      for i := 0 to |funcs|
        invariant r == Distinct(all + funcs[..i])
      {
        assert (all + funcs[..i + 1])[..|all| + i] == all + funcs[..i];
        if funcs[i] !in r { r := r + [funcs[i]]; }
      }
      assert funcs[..|funcs|] == funcs;
    }

    /** `generate_ws_loop`: the bits of the workspace's type, and its loop. */
    method GenerateWsLoop(ws: nat) returns (wsType: set<Role>, wsLoop: seq<Func>)
      ensures wsType == RolesOn(Phases(pipes), ws) && wsLoop == Distinct(FuncsOn(Phases(pipes), ws))
    {
      wsType, wsLoop := {}, [];
      for i := 0 to |pipes|
        invariant wsType == RolesOn(Phases(pipes[..i]), ws) && wsLoop == Distinct(FuncsOn(Phases(pipes[..i]), ws))
      {
        assert pipes[..i + 1][..i] == pipes[..i];
        wsType, wsLoop := AddPipe(pipes[i].phases, ws, wsType, wsLoop, Phases(pipes[..i]));
      }
      assert pipes[..|pipes|] == pipes;
    }

    static method AddPipe(phases: seq<Phase>, ws: nat, wsType: set<Role>, wsLoop: seq<Func>, ghost done: seq<Phase>)
      returns (t: set<Role>, l: seq<Func>)
      requires wsType == RolesOn(done, ws) && wsLoop == Distinct(FuncsOn(done, ws))
      ensures t == RolesOn(done + phases, ws) && l == Distinct(FuncsOn(done + phases, ws))
    {
      t, l := wsType, wsLoop;
      assert done + phases[..0] == done;
      for k := 0 to |phases|
        invariant t == RolesOn(done + phases[..k], ws) && l == Distinct(FuncsOn(done + phases[..k], ws))
      {
        ghost var now := done + phases[..k];
        assert done + phases[..k + 1] == now + [phases[k]];
        OneMorePhase(now, phases[k], ws);
        var here := CheckWsId(phases[k], ws);
        if here {
          t := t + {RoleOf(phases[k].kind)};
          l := AppendNew(l, phases[k].loop, FuncsOn(now, ws));
        }
      }
      assert phases[..|phases|] == phases;
    }

    method GetWorkloadType(ws: nat) returns (kind: nat)
      requires forall i :: 0 <= i < |pipes| ==> pipes[i].kind < INVALID_WORKLOAD
      ensures kind == WorkloadOf(pipes, ws)
    {
      for i := 0 to |pipes|
        invariant WorkloadOf(pipes[..i], ws) == INVALID_WORKLOAD
      {
        assert pipes[..i + 1][..i] == pipes[..i];
        for k := 0 to |pipes[i].phases|
          invariant forall j :: 0 <= j < k ==> !Runs(pipes[i].phases[j], ws)
        {
          var here := CheckWsId(pipes[i].phases[k], ws);
          if here {
            FirstMatch(pipes, i, ws);
            return pipes[i].kind;
          }
        }
      }
      assert pipes[..|pipes|] == pipes;
      kind := INVALID_WORKLOAD;
    }

    /** The barrier's size (`main.cc:44-52`) is the number of workspaces whose thread does not return at once
        (`main.cc:11-14`), which are the ones that reach the barrier. */
    method CountThreads() returns (total: nat)
      requires forall i :: 0 <= i < |pipes| ==> pipes[i].kind < INVALID_WORKLOAD
      ensures total == Threads(pipes, WS_MAX)
    {
      total := 0;
      for ws := 0 to WS_MAX
        invariant total == Threads(pipes, ws)
      {
        var kind := GetWorkloadType(ws);
        TypedIffHasWorkload(pipes, ws);
        if kind != INVALID_WORKLOAD { total := total + 1; }
      }
    }
  }

  lemma {:induction false} FirstMatch(pipes: seq<Pipe>, i: nat, ws: nat)
    requires i < |pipes| && WorkloadOf(pipes[..i], ws) == INVALID_WORKLOAD && HasPhaseOn(pipes[i].phases, ws)
    requires forall k :: 0 <= k < |pipes| ==> pipes[k].kind < INVALID_WORKLOAD
    ensures WorkloadOf(pipes, ws) == pipes[i].kind
    decreases |pipes|
  {
    var p := pipes[..|pipes| - 1];
    if i == |pipes| - 1 {
    } else {
      assert p[..i] == pipes[..i];
      FirstMatch(p, i, ws);
    }
  }
}
