/** Which of the workspaces that a configuration names are launched. */
module Launch {
  // The reader accepts workspace ids up to 16 (`src/common.h:162-164`, `src/config.cc:34`); `src/main.cc:45-58` counts
  // and launches 0 to 15.

  import opened Text
  import opened PyText
  import opened ConfigFile
  import opened UserConfig
  import Pipeline

  function Nats(xs: seq<int>): seq<nat> {
    seq(|xs|, i requires 0 <= i < |xs| => if xs[i] >= 0 then xs[i] else 0)
  }

  function NatGroups(groups: seq<seq<int>>): seq<seq<nat>> {
    seq(|groups|, g requires 0 <= g < |groups| => Nats(groups[g]))
  }

  /** The maps' entry for one workload type. */
  function WorkloadFrom(m: Maps, k: nat): Pipeline.Workload
    requires k in m.phases
  {
    Pipeline.Workload(k, m.phases[k], NatGroups(if k in m.app then m.app[k] else []), Nats(if k in m.disp then m.disp[k] else []))
  }

  /** The workload types below n, in the order in which the maps are walked through. */
  function Workloads(m: Maps, n: nat): seq<Pipeline.Workload> {
    if n == 0 then [] else Workloads(m, n - 1) + if n - 1 in m.phases then [WorkloadFrom(m, n - 1)] else []
  }

  /** The pipeline built from the maps. */
  function PipelineOf(m: Maps): seq<Pipeline.Pipe> { Pipeline.MakePipes(Workloads(m, WORKLOAD_LIMIT)) }

  predicate NameRuns(w: Pipeline.Workload, name: string, x: nat) {
    Pipeline.Runs(Pipeline.MakePhase(w, Pipeline.PhaseNamed(name)), x)
  }

  predicate SomeNameRuns(w: Pipeline.Workload, names: seq<string>, x: nat) {
    exists i :: 0 <= i < |names| && NameRuns(w, names[i], x)
  }

  /** A workload puts a phase on workspace x: an application phase with x in one of its groups, or a dispatcher phase
      with x among its dispatchers. */
  predicate Uses(w: Pipeline.Workload, x: nat) { SomeNameRuns(w, w.phases, x) }

  predicate SomeUses(ws: seq<Pipeline.Workload>, x: nat) { exists i :: 0 <= i < |ws| && Uses(ws[i], x) }

  lemma NameNext(w: Pipeline.Workload, names: seq<string>, name: string, x: nat)
    ensures SomeNameRuns(w, names + [name], x) <==> SomeNameRuns(w, names, x) || NameRuns(w, name, x)
  {
    var all := names + [name];
    assert all[|names|] == name && forall i :: 0 <= i < |names| ==> all[i] == names[i];
  }

  lemma UsesNext(ws: seq<Pipeline.Workload>, w: Pipeline.Workload, x: nat)
    ensures SomeUses(ws + [w], x) <==> SomeUses(ws, x) || Uses(w, x)
  {
    var all := ws + [w];
    assert all[|ws|] == w && forall i :: 0 <= i < |ws| ==> all[i] == ws[i];
  }

  lemma HasPhaseConcat(a: seq<Pipeline.Phase>, b: seq<Pipeline.Phase>, x: nat)
    ensures Pipeline.HasPhaseOn(a + b, x) <==> Pipeline.HasPhaseOn(a, x) || Pipeline.HasPhaseOn(b, x)
  {
    assert forall i :: 0 <= i < |a| ==> (a + b)[i] == a[i];
    assert forall i :: 0 <= i < |b| ==> (a + b)[|a| + i] == b[i];
  }

  lemma OnePhase(p: Pipeline.Phase, x: nat)
    ensures Pipeline.HasPhaseOn([p], x) <==> Pipeline.Runs(p, x)
  {
    if Pipeline.Runs(p, x) { assert Pipeline.Runs([p][0], x); }
  }

  lemma {:induction false} PhasesMade(w: Pipeline.Workload, names: seq<string>, x: nat)
    ensures Pipeline.HasPhaseOn(Pipeline.MakePhases(w, Pipeline.Types(names)), x) <==> SomeNameRuns(w, names, x)
  {
    if names != [] {
      var p, last := names[..|names| - 1], names[|names| - 1];
      var phase := Pipeline.MakePhase(w, Pipeline.PhaseNamed(last));
      PhasesMade(w, p, x);
      assert names == p + [last];
      NameNext(w, p, last, x);
      HasPhaseConcat(Pipeline.MakePhases(w, Pipeline.Types(p)), [phase], x);
      OnePhase(phase, x);
    }
  }

  /** A workspace has a phase exactly when some workload puts one on it. */
  lemma {:induction false} PhasesOfPipes(ws: seq<Pipeline.Workload>, x: nat)
    ensures Pipeline.HasPhaseOn(Pipeline.Phases(Pipeline.MakePipes(ws)), x) <==> SomeUses(ws, x)
  {
    if ws != [] {
      var p, last := ws[..|ws| - 1], ws[|ws| - 1];
      PhasesOfPipes(p, x);
      PhasesMade(last, last.phases, x);
      assert ws == p + [last];
      UsesNext(p, last, x);
      HasPhaseConcat(Pipeline.Phases(Pipeline.MakePipes(p)), Pipeline.MakePipe(last).phases, x);
    }
  }

  predicate Entered(m: Maps, k: nat, x: nat) { k in m.phases && Uses(WorkloadFrom(m, k), x) }

  lemma {:induction false} WorkloadsAre(m: Maps, n: nat, x: nat)
    ensures SomeUses(Workloads(m, n), x) <==> exists k: nat :: k < n && Entered(m, k, x)
  {
    if n > 0 {
      WorkloadsAre(m, n - 1, x);
      if n - 1 in m.phases {
        UsesNext(Workloads(m, n - 1), WorkloadFrom(m, n - 1), x);
        assert Entered(m, n - 1, x) <==> Uses(WorkloadFrom(m, n - 1), x);
      } else {
        assert Workloads(m, n) == Workloads(m, n - 1) && !Entered(m, n - 1, x);
      }
    }
  }

  /** The workspaces that `CountThreads` counts, and that are launched. */
  predicate Launched(pipes: seq<Pipeline.Pipe>, x: nat) {
    x < Pipeline.WS_MAX && Pipeline.RolesOn(Pipeline.Phases(pipes), x) != {}
  }

  lemma {:induction false} ThreadsAreLaunched(pipes: seq<Pipeline.Pipe>, n: nat)
    requires n <= Pipeline.WS_MAX
    ensures Pipeline.Threads(pipes, n) == |set x: nat | x < n && Launched(pipes, x)|
  {
    if n > 0 {
      ThreadsAreLaunched(pipes, n - 1);
      var before, all := set x: nat | x < n - 1 && Launched(pipes, x), set x: nat | x < n && Launched(pipes, x);
      if Launched(pipes, n - 1) {
        assert all == before + {n - 1};
      } else {
        assert all == before;
      }
    }
  }

  /** The maps put a phase on workspace x. */
  predicate Named(m: Maps, x: nat) {
    exists k: nat :: k < WORKLOAD_LIMIT && Entered(m, k, x)
  }

  /** For any maps read: a workspace with a phase on it is launched exactly when its id is below 16. */
  lemma LaunchedIff(m: Maps, x: nat)
    ensures Launched(PipelineOf(m), x) <==> Named(m, x) && x < Pipeline.WS_MAX
  {
    WorkloadsAre(m, WORKLOAD_LIMIT, x);
    PhasesOfPipes(Workloads(m, WORKLOAD_LIMIT), x);
    Pipeline.RolesOnMembers(Pipeline.Phases(PipelineOf(m)), x);
  }

  // Configurations that were written and read back

  predicate InAny(groups: seq<seq<nat>>, x: nat) { exists g :: 0 <= g < |groups| && x in groups[g] }

  lemma {:induction false} FlatHas(groups: seq<seq<nat>>, x: nat)
    ensures x in Pipeline.Flat(groups) <==> InAny(groups, x)
  {
    if groups != [] {
      var p := groups[..|groups| - 1];
      FlatHas(p, x);
      assert forall g :: 0 <= g < |p| ==> p[g] == groups[g];
    }
  }

  /** The ids of the maps' workers and dispatchers passed the reader's check. */
  predicate IdsChecked(m: Maps, k: nat) {
    && (k in m.app ==> forall g :: 0 <= g < |m.app[k]| ==> InRange(m.app[k][g]))
    && (k in m.disp ==> InRange(m.disp[k]))
  }

  lemma UsedIsChecked(m: Maps, k: nat, x: nat)
    requires IdsChecked(m, k) && Entered(m, k, x)
    ensures x < WS_LIMIT
  {
    var w := WorkloadFrom(m, k);
    var i :| 0 <= i < |w.phases| && NameRuns(w, w.phases[i], x);
    FlatHas(w.groups, x);
    if InAny(w.groups, x) {
      var g :| 0 <= g < |w.groups| && x in w.groups[g];
      var j :| 0 <= j < |w.groups[g]| && w.groups[g][j] == x;
      assert w.groups[g] == Nats(m.app[k][g]);
    } else {
      assert x in w.dispatchers;
    }
  }

  lemma HeldIdsChecked(m: Maps, d: Dict, k: nat)
    requires AcceptedFile(d) && Holds(m, d)
    ensures IdsChecked(m, k)
  {
    if k in m.app || k in m.disp {
      assert HasId(d, k);
      var i :| 0 <= i < |d| && d[i].0 == k;
      assert HoldsEntry(m, k, d[i].1) && Accepted(Owners(map[], map[]), k, d[i].1);
    }
  }

  lemma NamedIsChecked(m: Maps, x: nat)
    requires forall k :: IdsChecked(m, k)
    requires Named(m, x)
    ensures x <= 16
  {
    var k: nat :| k < WORKLOAD_LIMIT && Entered(m, k, x);
    UsedIsChecked(m, k, x);
  }

  /** Every workspace with a phase is launched. */
  ghost predicate AllLaunched(m: Maps) { forall x: nat :: Named(m, x) ==> Launched(PipelineOf(m), x) }

  lemma MapsLaunchedIff(m: Maps)
    requires forall k :: IdsChecked(m, k)
    ensures AllLaunched(m) <==> !Named(m, 16)
  {
    LaunchedIff(m, 16);
    forall x: nat | Named(m, x) && x != 16 ensures Launched(PipelineOf(m), x) {
      NamedIsChecked(m, x);
      LaunchedIff(m, x);
    }
  }

  /** For a configuration that was written and read back: every workspace that it puts a phase on is launched, exactly
      when none has the id 16. */
  lemma AllLaunchedIff(d: Dict)
    requires AcceptedFile(d)
    ensures ReadLines(WriteBack(d)).Value?
    ensures AllLaunched(ReadLines(WriteBack(d)).value) <==> !Named(ReadLines(WriteBack(d)).value, 16)
  {
    FileReadsTheSame(d);
    var m := ReadLines(WriteBack(d)).value;
    forall k ensures IdsChecked(m, k) { HeldIdsChecked(m, d, k); }
    MapsLaunchedIff(m);
  }

  /** A workload with one worker, workspace 16. */
  const ON_SIXTEEN: Entry := Entry("RxApplication", [0], [[16]], [[0]])

  lemma OnSixteenAccepted()
    ensures Accepted(Owners(map[], map[]), 1, ON_SIXTEEN) && AcceptedFile([(1, ON_SIXTEEN)])
  {
    var e := ON_SIXTEEN;
    assert Loaded(e) && NoEmptyGroup(e) && OneDispatcherEach(e);
    assert InRange(e.app[0]) && InRange(e.disp[0]) && InRange(e.remote);
  }

  lemma RxApplicationIsToken()
    ensures Tokens("RxApplication", ',') == ["RxApplication"]
  {
    OnlyToken("RxApplication", ',');
  }

  lemma RxApplicationIsName()
    ensures Pipeline.PhaseNamed("RxApplication") == Pipeline.RxApplication
  {
  }

  lemma WorkerEntered(m: Maps, k: nat, name: string, x: nat)
    requires k in m.phases && m.phases[k] == [name] && Pipeline.PhaseNamed(name) == Pipeline.RxApplication
    requires k in m.app && m.app[k] == [[x]]
    ensures Entered(m, k, x)
  {
    var w := WorkloadFrom(m, k);
    assert w.groups[0] == [x];
    assert x in w.groups[0];
    FlatHas(w.groups, x);
    assert w.phases[0] == name && NameRuns(w, w.phases[0], x);
  }

  /** The id 16 passes the reader's check; and this configuration is accepted, puts an application phase on workspace
      16, and does not launch it. */
  lemma SixteenIsNotLaunched()
    ensures WsId(Str(16)) == Value(16)
    ensures AcceptedFile([(1, ON_SIXTEEN)]) && ReadLines(WriteBack([(1, ON_SIXTEEN)])).Value?
    ensures var m := ReadLines(WriteBack([(1, ON_SIXTEEN)])).value; Named(m, 16) && !Launched(PipelineOf(m), 16)
  {
    WsIdOfStr(16);
    var d: Dict := [(1, ON_SIXTEEN)];
    OnSixteenAccepted();
    FileReadsTheSame(d);
    var m := ReadLines(WriteBack(d)).value;
    assert HoldsEntry(m, d[0].0, d[0].1);
    RxApplicationIsToken();
    RxApplicationIsName();
    WorkerEntered(m, 1, "RxApplication", 16);
    LaunchedIff(m, 16);
  }
}
