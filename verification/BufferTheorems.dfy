/** What holds of every receive-ring buffer in every run of the server. */
module BufferTheorems {
  import opened MathUtils
  import opened Circular
  import opened Ledger
  import opened BufferLifecycle

  lemma {:induction false} RunKeepsInv(c: Config, s: Server, steps: seq<Step>)
    requires GoodConfig(c) && Inv(c, s) && Runs(c, s, steps)
    ensures Inv(c, Exec(c, s, steps))
    decreases |steps|
  {
    if steps != [] {
      StepKeepsInv(c, s, steps[0]);
      RunKeepsInv(c, Apply(c, s, steps[0]), steps[1..]);
    }
  }

  /** The states after a run from initialisation. */
  ghost predicate Reachable(c: Config, s: Server) {
    c.depth > 0 && exists steps :: Runs(c, Init(c), steps) && s == Exec(c, Init(c), steps)
  }

  lemma ReachableInv(c: Config, s: Server)
    requires GoodConfig(c) && Reachable(c, s)
    ensures Inv(c, s)
  {
    var steps :| Runs(c, Init(c), steps) && s == Exec(c, Init(c), steps);
    InitInv(c);
    RunKeepsInv(c, Init(c), steps);
  }

  predicate IsLost(s: Server, b: nat) {
    b < |s.ledger.where| && s.ledger.where[b].Lost?
  }

  ghost predicate HeldBySomeone(s: Server, b: nat) {
    exists p :: b in Has(s, p)
  }

  /** b has no second position: not in another holder, nor elsewhere in the same one. */
  ghost predicate HeldAtMostOnce(s: Server, b: nat) {
    forall p, i, q, j :: 0 <= i < |Has(s, p)| && 0 <= j < |Has(s, q)| && Has(s, p)[i] == b && Has(s, q)[j] == b
      ==> p == q && i == j
  }

  lemma HeldMeansPlaced(s: Server, b: nat)
    requires Consistent(s.ledger) && b < |s.ledger.where|
    ensures HeldBySomeone(s, b) <==> IsHolder(s.ledger.where[b])
  {
    if IsHolder(s.ledger.where[b]) {
      assert b in Has(s, s.ledger.where[b]);
    }
    forall p | b in Has(s, p) ensures p == s.ledger.where[b] && IsHolder(p) {
      var i :| 0 <= i < |Has(s, p)| && Has(s, p)[i] == b;
    }
  }

  lemma ConsistentHeldOnce(s: Server, b: nat)
    requires Located(s.ledger) && NoRepeats(s.ledger)
    ensures HeldAtMostOnce(s, b)
  {
  }

  /** A buffer is held exactly when it is neither free nor lost, and then at a single position of a
      single holder. */
  lemma OneHolder(c: Config, s: Server, b: nat)
    requires GoodConfig(c) && Reachable(c, s) && b < c.depth
    ensures Shape(c, s)
    ensures HeldBySomeone(s, b) <==> !s.flag[b].Free? && !IsLost(s, b)
    ensures HeldAtMostOnce(s, b)
    ensures IsLost(s, b) ==> s.flag[b].AppOwned?
  {
    ReachableInv(c, s);
    HeldMeansPlaced(s, b);
    ConsistentHeldOnce(s, b);
    assert FlagFits(s.flag[b], s.ledger.where[b], s.pc == Marking(b));
  }

  /** Waiting, posted and marked buffers, from `ring_head_` on. */
  function Window(s: Server): seq<nat> {
    Has(s, Waiting) + Has(s, NicRecv) + Has(s, Marked)
  }

  function PlaceInWindow(s: Server, i: nat): (Place, nat) {
    var w, n := |Has(s, Waiting)|, |Has(s, NicRecv)|;
    if i < w then (Waiting, i) else if i < w + n then (NicRecv, i - w) else (Marked, i - w - n)
  }

  lemma WindowEntry(s: Server, i: nat)
    requires Located(s.ledger) && Flags(s) && i < |Window(s)|
    ensures var (p, k) := PlaceInWindow(s, i);
            k < |Has(s, p)| && Window(s)[i] == Has(s, p)[k]
    ensures Window(s)[i] < |s.flag| && s.flag[Window(s)[i]].Posted?
  {
    var (p, k) := PlaceInWindow(s, i);
    assert Window(s)[i] == Has(s, p)[k];
    assert s.ledger.where[Has(s, p)[k]] == p;
  }

  lemma WindowEntries(s: Server)
    requires Located(s.ledger) && Flags(s)
    ensures forall i :: 0 <= i < |Window(s)| ==> Window(s)[i] < |s.flag| && s.flag[Window(s)[i]].Posted?
  {
    forall i | 0 <= i < |Window(s)| ensures Window(s)[i] < |s.flag| && s.flag[Window(s)[i]].Posted? {
      WindowEntry(s, i);
    }
  }

  /** An arc longer than the ring would come back to its first entry. */
  lemma WindowFits(c: Config, s: Server)
    requires Located(s.ledger) && NoRepeats(s.ledger) && Flags(s) && Geometry(c, s)
    ensures |Window(s)| <= c.depth
  {
    if |Window(s)| > c.depth {
      WindowEntry(s, 0);
      WindowEntry(s, c.depth);
      FullTurn(s.ringHead + s.cursor, c.depth);
      ConsistentHeldOnce(s, Window(s)[0]);
    }
  }

  lemma FullTurn(x: nat, d: nat)
    requires d > 0
    ensures (x + d) % d == x % d
  {
    var q, r := x / d, x % d;
    assert x == q * d + r;
    NextTurn(q, d);
    RemainderUnique(x + d, d, q + 1, r);
  }

  lemma NextTurn(q: int, d: int)
    ensures (q + 1) * d == q * d + d
  {
  }

  /** The circular interval from `ring_head_` to `recv_head_` fits in the ring and is all POSTED. */
  lemma WindowIsPosted(c: Config, s: Server)
    requires GoodConfig(c) && Reachable(c, s)
    ensures |Window(s)| <= c.depth
    ensures Window(s) == Arc(s.ringHead + s.cursor, |Window(s)|, c.depth)
    ensures s.recvHead == (s.ringHead + s.waitForDisp + |Has(s, NicRecv)|) % c.depth
    ensures forall i :: 0 <= i < |Window(s)| ==> Window(s)[i] < |s.flag| && s.flag[Window(s)[i]].Posted?
  {
    ReachableInv(c, s);
    WindowFits(c, s);
    WindowEntries(s);
  }

  lemma FullWindowCovers(c: Config, s: Server, b: nat)
    requires Geometry(c, s) && |Window(s)| == c.depth && b < c.depth
    ensures b in Window(s)
  {
    var i := FullArcCovers(s.ringHead + s.cursor, b, c.depth);
    assert Window(s)[i] == b;
  }

  /** The repost loop never takes a buffer that anybody holds or that was lost, and it cannot go round
      the ring twice: before it marks another one, the window is shorter than the ring. */
  lemma RepostTakesOnlyUnheld(c: Config, s: Server)
    requires GoodConfig(c) && Reachable(c, s) && Enabled(c, s, RepostNext)
    ensures !HeldBySomeone(s, NextEntry(c, s)) && !IsLost(s, NextEntry(c, s))
    ensures |Window(s)| < c.depth
  {
    OneHolder(c, s, NextEntry(c, s));
    WindowIsPosted(c, s);
    if |Window(s)| == c.depth {
      ReachableInv(c, s);
      FullWindowCovers(c, s, NextEntry(c, s));
    }
  }

  lemma FreedByHolder(c: Config, s: Server, step: Step)
    requires Inv(c, s) && Enabled(c, s, step)
    requires MotionOf(c, s, step).Goes? && MotionOf(c, s, step).to.Unheld?
    ensures var m := MotionOf(c, s, step);
            && m.x < c.depth && !s.flag[m.x].Free?
            && Consistent(LedgerAfter(c, s, step)) && LedgerAfter(c, s, step).where == s.ledger.where[m.x := Unheld]
            && FlagsAfter(c, s, step) == s.flag[m.x := Free]
  {
    PlacesAfter(c, s, step);
    StepKeepsLedger(c, s, step);
    HeldIsNotFree(c, s, step);
  }

  lemma HeldIsNotFree(c: Config, s: Server, step: Step)
    requires Inv(c, s) && Enabled(c, s, step)
    requires MotionOf(c, s, step).Goes? && MotionOf(c, s, step).to.Unheld?
    ensures var m := MotionOf(c, s, step); m.x < c.depth && !s.flag[m.x].Free?
  {
    StepTransfers(c, s, step);
    var m := MotionOf(c, s, step);
    assert FlagFits(s.flag[m.x], s.ledger.where[m.x], s.pc == Marking(m.x));
  }

  /** A step that gives a buffer back finds it not free and leaves it free and held by nobody: no buffer
      is freed twice. */
  lemma NeverFreedTwice(c: Config, s: Server, step: Step)
    requires GoodConfig(c) && Reachable(c, s) && Enabled(c, s, step)
    requires MotionOf(c, s, step).Goes? && MotionOf(c, s, step).to.Unheld?
    ensures var x := MotionOf(c, s, step).x;
            x < c.depth && !s.flag[x].Free? && !HeldBySomeone(Apply(c, s, step), x)
            && FlagsAfter(c, s, step) == s.flag[x := Free]
  {
    ReachableInv(c, s);
    FreedByHolder(c, s, step);
    HeldMeansPlaced(Apply(c, s, step), MotionOf(c, s, step).x);
  }

  /** The dequeues of a batch never return null: the assertion on an invalid buffer cannot fire. While it
      replies, the worker has a request buffer for every response it still owes. */
  lemma TakeNeverFails(c: Config, s: Server, w: nat)
    requires GoodConfig(c) && Reachable(c, s) && w < c.workers
    ensures |s.worker| == c.workers
    ensures match s.worker[w]
            case Gathering(left, msgs) => left <= |Has(s, WorkerRx(w))|
            case Replying(left) => left <= |Has(s, WorkerHand(w))|
  {
    ReachableInv(c, s);
    assert DeskFits(c, s.worker[w], |Has(s, WorkerRx(w))|, |Has(s, WorkerHand(w))|);
  }

  lemma PlacesAfter(c: Config, s: Server, step: Step)
    requires Enabled(c, s, step) && Located(s.ledger) && Flags(s)
    ensures var m, where := MotionOf(c, s, step), LedgerAfter(c, s, step).where;
            if m.Goes? then m.x < |s.flag| && s.ledger.where[m.x] == m.from && where == s.ledger.where[m.x := m.to]
            else where == s.ledger.where
  {
    if MotionOf(c, s, step).Goes? { StepTransfers(c, s, step); }
  }

  lemma OnlyMarksLose(c: Config, s: Server, step: Step)
    requires Enabled(c, s, step) && MotionOf(c, s, step).Goes?
    ensures !MotionOf(c, s, step).from.Lost? && (MotionOf(c, s, step).to.Lost? <==> step.MarkAppOwned?)
  {
  }

  lemma LosingStep(c: Config, s: Server, step: Step, b: nat)
    requires Enabled(c, s, step) && Located(s.ledger) && Flags(s) && b < c.depth
    ensures !IsLost(s, b) && IsLost(Apply(c, s, step), b)
       <==> step.MarkAppOwned? && b == s.pc.b && s.flag[b].Free?
    ensures IsLost(s, b) ==> IsLost(Apply(c, s, step), b)
  {
    PlacesAfter(c, s, step);
    if MotionOf(c, s, step).Goes? { OnlyMarksLose(c, s, step); }
  }

  /** What is lost stays lost: the NIC never gets the buffer again. */
  lemma {:induction false} LostForever(c: Config, s: Server, steps: seq<Step>, b: nat)
    requires GoodConfig(c) && Inv(c, s) && IsLost(s, b) && Runs(c, s, steps)
    ensures IsLost(Exec(c, s, steps), b)
    decreases |steps|
  {
    if steps != [] {
      StepKeepsInv(c, s, steps[0]);
      LosingStep(c, s, steps[0], b);
      LostForever(c, Apply(c, s, steps[0]), steps[1..], b);
    }
  }

  /** The dispatcher and the workers share a thread: no worker step falls inside a dispatch. */
  predicate OneThread(c: Config, s: Server, steps: seq<Step>)
    requires Runs(c, s, steps)
    decreases |steps|
  {
    steps == [] || ((s.pc.Marking? ==> !IsWorker(steps[0])) && OneThread(c, Apply(c, s, steps[0]), steps[1..]))
  }

  ghost predicate NothingLost(s: Server) {
    forall b :: 0 <= b < |s.ledger.where| ==> !IsLost(s, b)
  }

  /** Between the enqueue and the write of APP_OWNED the buffer is still POSTED. */
  predicate MarkIsInTime(s: Server) {
    s.pc.Marking? && s.pc.b < |s.flag| ==> s.flag[s.pc.b].Posted?
  }

  lemma OneThreadStep(c: Config, s: Server, step: Step)
    requires Enabled(c, s, step) && Located(s.ledger) && Flags(s) && MarkIsInTime(s)
    requires s.pc.Marking? ==> !IsWorker(step)
    ensures MarkIsInTime(Apply(c, s, step))
  {
    if step.DispatchTo? {
      WaitingIsPosted(c, s);
    } else if s.pc.Marking? && MotionOf(c, s, step).Goes? {
      MarkingStays(c, s, step);
    }
  }

  lemma WaitingIsPosted(c: Config, s: Server)
    requires Located(s.ledger) && Flags(s) && Has(s, Waiting) != []
    ensures Has(s, Waiting)[0] < |s.flag| && s.flag[Has(s, Waiting)[0]].Posted?
  {
    var b := Has(s, Waiting)[0];
    FirstIsLocated(s.ledger, Waiting);
    assert FlagFits(s.flag[b], Waiting, s.pc == Marking(b));
  }

  /** While a buffer waits to be marked, no step of the dispatcher or the NIC moves it. */
  lemma MarkingStays(c: Config, s: Server, step: Step)
    requires Enabled(c, s, step) && Located(s.ledger) && Flags(s) && s.pc.Marking? && !IsWorker(step)
    requires MotionOf(c, s, step).Goes?
    ensures step.MarkAppOwned?
  {
  }


  /** On a shared thread nothing is ever lost, so every freed buffer stays free to be reposted. */
  lemma {:induction false} OneThreadLosesNothing(c: Config, s: Server, steps: seq<Step>)
    requires GoodConfig(c) && Inv(c, s) && NothingLost(s) && MarkIsInTime(s)
    requires Runs(c, s, steps) && OneThread(c, s, steps)
    ensures NothingLost(Exec(c, s, steps))
    decreases |steps|
  {
    if steps != [] {
      var t := Apply(c, s, steps[0]);
      StepKeepsInv(c, s, steps[0]);
      OneThreadStep(c, s, steps[0]);
      forall b | 0 <= b < |t.ledger.where| ensures !IsLost(t, b) { LosingStep(c, s, steps[0], b); }
      OneThreadLosesNothing(c, t, steps[1..]);
    }
  }

  lemma OneThreadFromStart(c: Config, steps: seq<Step>)
    requires GoodConfig(c) && Runs(c, Init(c), steps) && OneThread(c, Init(c), steps)
    ensures NothingLost(Exec(c, Init(c), steps))
  {
    InitInv(c);
    OneThreadLosesNothing(c, Init(c), steps);
  }

  lemma ReachableStep(c: Config, s: Server, step: Step)
    requires Reachable(c, s) && Enabled(c, s, step)
    ensures Reachable(c, Apply(c, s, step))
  {
    var steps :| Runs(c, Init(c), steps) && s == Exec(c, Init(c), steps);
    OneMoreStep(c, Init(c), steps, step);
  }

  /** A step that moves a buffer writes its flag, if at all, and takes it from the head of one holder to the tail of
      another. */
  lemma StepMoves(c: Config, t: Server, step: Step)
    requires Located(t.ledger) && Flags(t) && Enabled(c, t, step) && MotionOf(c, t, step).Goes? && !step.MarkAppOwned?
    ensures var m := MotionOf(c, t, step);
            && m.x < |t.flag| && FlagsAfter(c, t, step) == t.flag[m.x := FlagOnArrival(t.flag[m.x], m.to)]
            && Transfers(t.ledger, LedgerAfter(c, t, step), m.from, m.x, m.to)
  {
    StepTransfers(c, t, step);
  }

  lemma {:induction false} OneMoreStep(c: Config, s: Server, steps: seq<Step>, step: Step)
    requires Runs(c, s, steps) && Enabled(c, Exec(c, s, steps), step)
    ensures Runs(c, s, steps + [step]) && Exec(c, s, steps + [step]) == Apply(c, Exec(c, s, steps), step)
    decreases |steps|
  {
    if steps == [] {
      assert [step][1..] == [];
    } else {
      OneMoreStep(c, Apply(c, s, steps[0]), steps[1..], step);
      assert (steps + [step])[1..] == steps[1..] + [step];
    }
  }

  /** Every buffer is free, waiting for dispatch, with the NIC, or on its way there. */
  ghost predicate Quiet(s: Server) {
    forall b :: 0 <= b < |s.ledger.where| ==> s.ledger.where[b] in {Unheld, Waiting, NicRecv, Marked}
  }

  lemma NextIsPastWindow(c: Config, s: Server)
    requires Geometry(c, s) && s.cursor == 0 && |Window(s)| < c.depth
    ensures NextEntry(c, s) !in Window(s)
  {
    var n := |Window(s)|;
    RemainderAdd(s.ringHead + s.waitForDisp + |Has(s, NicRecv)|, |Has(s, Marked)|, c.depth);
    assert NextEntry(c, s) == (s.ringHead + n) % c.depth;
    forall i | 0 <= i < n ensures Window(s)[i] != NextEntry(c, s) {
      OffsetsDistinct(s.ringHead, i, n, c.depth);
    }
  }

  lemma QuietNextIsFree(c: Config, s: Server)
    requires Inv(c, s) && Quiet(s) && s.cursor == 0 && |Window(s)| < c.depth
    ensures s.flag[NextEntry(c, s)].Free?
  {
    var b := NextEntry(c, s);
    NextIsPastWindow(c, s);
    assert FlagFits(s.flag[b], s.ledger.where[b], s.pc == Marking(b));
    assert IsHolder(s.ledger.where[b]) ==> b in Has(s, s.ledger.where[b]);
  }

  lemma QuietStep(c: Config, s: Server, step: Step)
    requires GoodConfig(c) && Inv(c, s) && Quiet(s) && Enabled(c, s, step) && (step.RepostNext? || step.PostOne?)
    ensures var t := Apply(c, s, step);
            Inv(c, t) && Quiet(t) && t.cursor == s.cursor
            && |Window(t)| == |Window(s)| + if step.RepostNext? then 1 else 0
  {
    StepKeepsInv(c, s, step);
    QuietStays(c, s, step);
  }

  lemma QuietStays(c: Config, s: Server, step: Step)
    requires Located(s.ledger) && Flags(s) && Quiet(s) && Enabled(c, s, step) && (step.RepostNext? || step.PostOne?)
    ensures var t := Apply(c, s, step);
            Quiet(t) && t.cursor == s.cursor && |Window(t)| == |Window(s)| + if step.RepostNext? then 1 else 0
  {
    PlacesAfter(c, s, step);
    WindowGrows(c, s, step);
  }

  lemma WindowGrows(c: Config, s: Server, step: Step)
    requires Located(s.ledger) && Flags(s) && Enabled(c, s, step) && (step.RepostNext? || step.PostOne?)
    ensures |Window(Apply(c, s, step))| == |Window(s)| + if step.RepostNext? then 1 else 0
  {
    StepTransfers(c, s, step);
  }


  lemma {:induction false} MarkRest(c: Config, s: Server) returns (steps: seq<Step>, t: Server)
    requires GoodConfig(c) && Inv(c, s) && Quiet(s) && s.cursor == 0 && (s.pc.Ready? || s.pc.Reposting?)
    requires |Window(s)| <= c.depth
    ensures Runs(c, s, steps) && t == Exec(c, s, steps) && (forall st :: st in steps ==> st.RepostNext?)
    ensures Inv(c, t) && Quiet(t) && t.cursor == 0 && (t.pc.Ready? || t.pc.Reposting?) && |Window(t)| == c.depth
    decreases c.depth - |Window(s)|
  {
    if |Window(s)| == c.depth {
      steps, t := [], s;
    } else {
      QuietNextIsFree(c, s);
      QuietStep(c, s, RepostNext);
      steps, t := MarkRest(c, Apply(c, s, RepostNext));
      steps := [RepostNext] + steps;
    }
  }

  lemma FullWindowStopsLoop(c: Config, s: Server)
    requires Inv(c, s) && |Window(s)| == c.depth
    ensures s.flag[NextEntry(c, s)].Posted?
  {
    FullWindowCovers(c, s, NextEntry(c, s));
    var i :| 0 <= i < c.depth && Window(s)[i] == NextEntry(c, s);
    WindowEntry(s, i);
  }

  lemma PostTakesOne(c: Config, s: Server)
    requires Located(s.ledger) && Flags(s) && Enabled(c, s, PostOne)
    ensures |Has(Apply(c, s, PostOne), Marked)| == |Has(s, Marked)| - 1
    ensures PcAfter(c, s, PostOne) == if |Has(s, Marked)| == 1 then Ready else Posting
  {
    StepTransfers(c, s, PostOne);
  }

  lemma {:induction false} PostRest(c: Config, s: Server) returns (steps: seq<Step>, t: Server)
    requires GoodConfig(c) && Inv(c, s) && Quiet(s) && !s.pc.Dispatching? && !s.pc.Marking? && |Window(s)| == c.depth
    ensures Runs(c, s, steps) && t == Exec(c, s, steps) && (forall st :: st in steps ==> st.PostOne?)
    ensures t.pc.Ready? && Has(t, Marked) == [] && |Has(t, Waiting)| + |Has(t, NicRecv)| == c.depth
    decreases |Has(s, Marked)|
  {
    if Has(s, Marked) == [] {
      steps, t := [], s;
    } else {
      FullWindowStopsLoop(c, s);
      QuietStep(c, s, PostOne);
      PostTakesOne(c, s);
      steps, t := PostRest(c, Apply(c, s, PostOne));
      steps := [PostOne] + steps;
    }
  }

  lemma {:induction false} RunsAppend(c: Config, s: Server, xs: seq<Step>, ys: seq<Step>)
    requires Runs(c, s, xs) && Runs(c, Exec(c, s, xs), ys)
    ensures Runs(c, s, xs + ys) && Exec(c, s, xs + ys) == Exec(c, Exec(c, s, xs), ys)
    decreases |xs|
  {
    if xs == [] {
      assert xs + ys == ys;
    } else {
      RunsAppend(c, Apply(c, s, xs[0]), xs[1..], ys);
      FirstOfAppend(xs, ys);
    }
  }

  lemma FirstOfAppend(xs: seq<Step>, ys: seq<Step>)
    requires xs != []
    ensures (xs + ys)[0] == xs[0] && (xs + ys)[1..] == xs[1..] + ys && xs + ys != []
  {
  }

  /** When every buffer is free, waiting or with the NIC, and nothing is lost, one pass of the repost loop
      and one post refill the NIC's receive queue: every ring entry is then posted or waiting. */
  lemma RepostRefillsRing(c: Config, s: Server) returns (steps: seq<Step>)
    requires GoodConfig(c) && Reachable(c, s) && s.pc.Ready?
    requires forall b :: 0 <= b < c.depth ==> !HeldBySomeone(s, b) || b in Has(s, Waiting) || b in Has(s, NicRecv)
    requires NothingLost(s)
    ensures Runs(c, s, steps) && (forall st :: st in steps ==> st.RepostNext? || st.PostOne?)
    ensures var t := Exec(c, s, steps);
            t.pc.Ready? && Has(t, Marked) == [] && |Has(t, Waiting)| + |Has(t, NicRecv)| == c.depth
  {
    ReachableInv(c, s);
    HeldNowhereElse(c, s);
    WindowIsPosted(c, s);
    var xs, t := MarkRest(c, s);
    var ys, u := PostRest(c, t);
    RunsAppend(c, s, xs, ys);
    steps := xs + ys;
  }

  lemma HeldNowhereElse(c: Config, s: Server)
    requires Inv(c, s) && NothingLost(s)
    requires forall b :: 0 <= b < c.depth ==> !HeldBySomeone(s, b) || b in Has(s, Waiting) || b in Has(s, NicRecv)
    ensures Quiet(s)
  {
    forall b | 0 <= b < c.depth ensures s.ledger.where[b] in {Unheld, Waiting, NicRecv, Marked} {
      HeldMeansPlaced(s, b);
      assert !IsLost(s, b);
      if IsHolder(s.ledger.where[b]) {
        var p := if b in Has(s, Waiting) then Waiting else NicRecv;
        var i :| 0 <= i < |Has(s, p)| && Has(s, p)[i] == b;
      }
    }
  }
}
