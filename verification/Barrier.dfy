/** The generation barrier (`src/util/barrier.h`): its critical sections, and what they guarantee over every
    schedule of N threads, with spurious wake-ups and slow wakers. */
module Barrier {
  import opened Counting

  /** The barrier's fields. The mutex makes each critical section one step. */
  datatype Fields = Fields(count: int, total: int, generation: int)

  /** The section from entry to the sleep or the return; true when the caller must sleep. */
  function EnterSection(f: Fields): (Fields, bool) {
    if f.count + 1 < f.total then (f.(count := f.count + 1), true)
    else (Fields(0, f.total, f.generation + 1), false)
  }

  /** A thread outside the barrier, or asleep in it with the generation it read and whether a `notify_all`
      has reached it. */
  datatype Thread = Out | Asleep(gen: int, notified: bool)

  function Notify(t: Thread): Thread {
    if t.Asleep? then t.(notified := true) else t
  }

  /** entered and returned count each thread's waits begun and completed. */
  datatype System = System(fields: Fields, threads: seq<Thread>, entered: seq<nat>, returned: seq<nat>)

  /** Recheck is a wake-up, notified or spurious: the predicate is tested with the lock held. */
  datatype Step = Enter(t: nat) | Recheck(t: nat)

  predicate Shape(s: System) {
    |s.entered| == |s.threads| && |s.returned| == |s.threads| && s.fields.total == |s.threads| >= 1
  }

  predicate Enabled(s: System, step: Step) {
    match step
    case Enter(t) => t < |s.threads| && s.threads[t].Out?
    case Recheck(t) => t < |s.threads| && s.threads[t].Asleep?
  }

  function Apply(s: System, step: Step): (s': System)
    requires Shape(s) && Enabled(s, step)
    ensures Shape(s')
  {
    match step
    case Enter(t) =>
      var (f, sleeps) := EnterSection(s.fields);
      if sleeps then
        System(f, s.threads[t := Asleep(s.fields.generation, false)], s.entered[t := s.entered[t] + 1], s.returned)
      else
        System(f, seq(|s.threads|, i requires 0 <= i < |s.threads| => Notify(s.threads[i])),
               s.entered[t := s.entered[t] + 1], s.returned[t := s.returned[t] + 1])
    case Recheck(t) =>
      if s.threads[t].gen != s.fields.generation then
        System(s.fields, s.threads[t := Out], s.entered, s.returned[t := s.returned[t] + 1])
      else
        System(s.fields, s.threads[t := Asleep(s.threads[t].gen, false)], s.entered, s.returned)
  }

  function Initial(n: nat): System {
    System(Fields(0, n, 0), seq(n, _ => Out), seq(n, _ => 0), seq(n, _ => 0))
  }

  function AtGen(g: int): Thread -> bool {
    (t: Thread) => t.Asleep? && t.gen == g
  }

  /** Each thread has entered once per generation, once more if it sleeps in the current one; a sleeper of
      an earlier generation has been notified. */
  predicate ThreadInv(g: int, t: Thread, entered: nat, returned: nat) {
    match t
    case Out => entered == g && returned == g
    case Asleep(gen, notified) =>
      || (gen == g && entered == g + 1 && returned == g)
      || (gen == g - 1 && entered == g && returned == g - 1 && notified)
  }

  ghost predicate Inv(s: System) {
    && Shape(s) && s.fields.generation >= 0
    && s.fields.count == Count(s.threads, AtGen(s.fields.generation)) < s.fields.total
    && forall t :: 0 <= t < |s.threads| ==>
        ThreadInv(s.fields.generation, s.threads[t], s.entered[t], s.returned[t])
  }

  lemma InitInv(n: nat)
    requires n >= 1
    ensures Inv(Initial(n))
  {
    CountIsNone(Initial(n).threads, AtGen(0));
  }

  lemma EnterKeepsInv(s: System, t: nat)
    requires Inv(s) && Enabled(s, Enter(t))
    ensures Inv(Apply(s, Enter(t)))
  {
    var g, s' := s.fields.generation, Apply(s, Enter(t));
    CountUpdate(s.threads, AtGen(g), t, Asleep(g, false));
    if EnterSection(s.fields).1 {
      assert Inv(s');
    } else {
      LastOneIn(s, t);
      CountIsNone(s'.threads, AtGen(g + 1));
    }
  }

  /** When the count says that one thread is missing, all the others sleep in this generation. */
  lemma LastOneIn(s: System, t: nat)
    requires Inv(s) && Enabled(s, Enter(t)) && s.fields.count + 1 == s.fields.total
    ensures forall u :: 0 <= u < |s.threads| && u != t ==>
              s.threads[u].Asleep? && s.threads[u].gen == s.fields.generation
  {
    var g := s.fields.generation;
    var full := s.threads[t := Asleep(g, false)];
    CountUpdate(s.threads, AtGen(g), t, Asleep(g, false));
    CountIsAll(full, AtGen(g));
    forall u | 0 <= u < |s.threads| && u != t ensures s.threads[u].Asleep? && s.threads[u].gen == g {
      assert AtGen(g)(full[u]);
    }
  }

  lemma RecheckKeepsInv(s: System, t: nat)
    requires Inv(s) && Enabled(s, Recheck(t))
    ensures Inv(Apply(s, Recheck(t)))
  {
    var g, s' := s.fields.generation, Apply(s, Recheck(t));
    CountUpdate(s.threads, AtGen(g), t, s'.threads[t]);
  }

  lemma StepKeepsInv(s: System, step: Step)
    requires Inv(s) && Enabled(s, step)
    ensures Inv(Apply(s, step))
  {
    match step
    case Enter(t) => EnterKeepsInv(s, t);
    case Recheck(t) => RecheckKeepsInv(s, t);
  }

  /** A run, latest step last. */
  predicate Runs(s: System, steps: seq<Step>)
    requires Shape(s)
    decreases |steps|, 0
  {
    steps == [] || (Runs(s, steps[..|steps| - 1]) && Enabled(Exec(s, steps[..|steps| - 1]), steps[|steps| - 1]))
  }

  function Exec(s: System, steps: seq<Step>): (s': System)
    requires Shape(s) && Runs(s, steps)
    ensures Shape(s')
    decreases |steps|, 1
  {
    if steps == [] then s else Apply(Exec(s, steps[..|steps| - 1]), steps[|steps| - 1])
  }

  lemma {:induction false} RunKeepsInv(n: nat, steps: seq<Step>)
    requires n >= 1 && Runs(Initial(n), steps)
    ensures Inv(Exec(Initial(n), steps))
    decreases |steps|
  {
    if steps == [] {
      InitInv(n);
    } else {
      RunKeepsInv(n, steps[..|steps| - 1]);
      StepKeepsInv(Exec(Initial(n), steps[..|steps| - 1]), steps[|steps| - 1]);
    }
  }

  /** Under every schedule: no thread has completed its k-th wait before every thread has begun its k-th, the
      completed waits of two threads differ by at most one, and the count is the number of sleepers of the
      current generation, always below N. */
  lemma BarrierSeparatesRounds(n: nat, steps: seq<Step>, t: nat, u: nat)
    requires n >= 1 && Runs(Initial(n), steps) && t < n && u < n
    ensures var s := Exec(Initial(n), steps);
            && |s.threads| == n
            && s.returned[t] <= s.entered[u] && s.returned[t] <= s.returned[u] + 1
            && s.fields.count == Count(s.threads, AtGen(s.fields.generation)) < n
  {
    RunKeepsInv(n, steps);
    SameSize(n, steps);
  }

  lemma {:induction false} SameSize(n: nat, steps: seq<Step>)
    requires n >= 1 && Runs(Initial(n), steps)
    ensures |Exec(Initial(n), steps).threads| == n
    decreases |steps|
  {
    if steps != [] { SameSize(n, steps[..|steps| - 1]); }
  }

  /** A recheck returns exactly when every thread has begun the sleeper's round; and no wake-up is lost: a
      sleeper that may return has been notified. */
  lemma NoLostWakeUp(n: nat, steps: seq<Step>, t: nat)
    requires n >= 1 && Runs(Initial(n), steps) && t < n
    ensures |Exec(Initial(n), steps).threads| == n
    ensures var s := Exec(Initial(n), steps);
            s.threads[t].Asleep? ==>
              && (Apply(s, Recheck(t)).threads[t].Out? <==> forall u :: 0 <= u < n ==> s.entered[u] >= s.entered[t])
              && (Apply(s, Recheck(t)).threads[t].Out? ==> s.threads[t].notified)
  {
    RunKeepsInv(n, steps);
    SameSize(n, steps);
    var s := Exec(Initial(n), steps);
    var g := s.fields.generation;
    if s.threads[t].Asleep? && s.threads[t].gen == g {
      if forall u :: 0 <= u < n ==> s.entered[u] >= s.entered[t] {
        assert forall u :: 0 <= u < n ==> s.entered[u] == g + 1 && AtGen(g)(s.threads[u]);
        CountIsAll(s.threads, AtGen(g));
        assert false;
      }
    }
  }

  /** The object. `wait` is one `Enter`, then `Recheck` after each wake-up until it returns true. */
  class ThreadBarrier {
    var count: int
    var totalThreads: int
    var generation: int

    function State(): Fields
      reads this
    {
      Fields(count, totalThreads, generation)
    }

    constructor (numThreads: int)
      ensures State() == Fields(0, numThreads, 0)
    {
      count, totalThreads, generation := 0, numThreads, 0;
    }

    method Enter() returns (gen: int, sleeps: bool)
      modifies this
      ensures (State(), sleeps) == EnterSection(old(State())) && gen == old(generation)
    {
      gen := generation;
      count := count + 1;
      if count < totalThreads {
        sleeps := true;
      } else {
        count := 0;
        generation := generation + 1;
        sleeps := false;
      }
    }

    method Recheck(gen: int) returns (wakes: bool)
      ensures wakes <==> gen != generation
    {
      wakes := gen != generation;
    }
  }
}
