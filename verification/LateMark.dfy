/** Which runs, and which configurations, lose receive buffers. */
module LateMark {
  // `dispatch_rx_pkts` enqueues a buffer and then writes APP_OWNED; a worker on another thread may write FREE in
  // between (`src/dispatcher_impl/roce/roce_dispatcher_dataplane.cc:180-186`).

  import MathUtils
  import opened Ledger
  import opened BufferLifecycle
  import opened BufferTheorems

  /** The dispatcher overwrites a FREE. */
  predicate IsLate(s: Server, step: Step) {
    step.MarkAppOwned? && s.pc.Marking? && s.pc.b < |s.flag| && s.flag[s.pc.b].Free?
  }

  predicate NoLateMark(c: Config, s: Server, steps: seq<Step>)
    requires Runs(c, s, steps)
    decreases |steps|
  {
    steps == [] || (!IsLate(s, steps[0]) && NoLateMark(c, Apply(c, s, steps[0]), steps[1..]))
  }

  lemma StepLosesIffLate(c: Config, s: Server, step: Step)
    requires GoodConfig(c) && Inv(c, s) && Enabled(c, s, step)
    ensures NothingLost(Apply(c, s, step)) <==> NothingLost(s) && !IsLate(s, step)
  {
    var t := Apply(c, s, step);
    StepKeepsInv(c, s, step);
    forall b | 0 <= b < c.depth
      ensures IsLost(t, b) <==> IsLost(s, b) || (IsLate(s, step) && b == s.pc.b)
    {
      LosingStep(c, s, step, b);
    }
    if IsLate(s, step) { assert IsLost(t, s.pc.b); }
  }

  lemma {:induction false} NothingLostIff(c: Config, s: Server, steps: seq<Step>)
    requires GoodConfig(c) && Inv(c, s) && Runs(c, s, steps)
    ensures NothingLost(Exec(c, s, steps)) <==> NothingLost(s) && NoLateMark(c, s, steps)
    decreases |steps|
  {
    if steps != [] {
      StepKeepsInv(c, s, steps[0]);
      StepLosesIffLate(c, s, steps[0]);
      NothingLostIff(c, Apply(c, s, steps[0]), steps[1..]);
    }
  }

  /** After any run every buffer is FREE or held by somebody, exactly when no write of APP_OWNED in the run fell on
      a FREE buffer. */
  lemma LostIffLateMark(c: Config, steps: seq<Step>)
    requires GoodConfig(c) && Runs(c, Init(c), steps)
    ensures var s := Exec(c, Init(c), steps);
            Shape(c, s) && ((forall b :: 0 <= b < c.depth ==> s.flag[b].Free? || HeldBySomeone(s, b))
                            <==> NoLateMark(c, Init(c), steps))
  {
    var s := Exec(c, Init(c), steps);
    InitInv(c);
    RunKeepsInv(c, Init(c), steps);
    NothingLostIff(c, Init(c), steps);
    forall b | 0 <= b < c.depth ensures (s.flag[b].Free? || HeldBySomeone(s, b)) <==> !IsLost(s, b) {
      OneHolder(c, s, b);
    }
  }

  // Configurations that cannot lose a buffer

  /** The packets that a worker waits for before it starts. */
  function Needed(c: Config): nat { (if c.msgThreshold == 0 then 1 else c.msgThreshold) * c.reqPkts }

  /** A worker that replies has a response for every buffer in hand, so it never writes FREE. */
  ghost predicate NoSurplus(c: Config, s: Server) {
    |s.worker| == c.workers && forall w :: 0 <= w < c.workers ==>
      match s.worker[w]
      case Gathering(_, _) => c.respPkts == c.reqPkts
      case Replying(left) => left == |Has(s, WorkerHand(w))|
  }

  /** Room in the queues, and no surplus buffers or no worker that ever starts. */
  predicate CannotLose(c: Config) {
    c.queueCap >= c.depth && (c.workers == 0 || c.respPkts == c.reqPkts || Needed(c) > c.depth)
  }

  lemma EnoughToBegin(rx: nat, req: nat, threshold: nat, c: Config)
    requires req == c.reqPkts > 0 && threshold == c.msgThreshold && rx / req >= threshold && rx / req > 0
    ensures Needed(c) <= rx
  {
    var k := if threshold == 0 then 1 else threshold;
    Proportion(req, k, rx / req);
    assert k * req == req * k && (rx / req) * req == req * (rx / req);
    BufferLifecycle.WholeMessages(rx, req);
  }

  lemma BeginKeepsNoSurplus(c: Config, s: Server, w: nat)
    requires GoodConfig(c) && Inv(c, s) && NoSurplus(c, s) && CannotLose(c) && Enabled(c, s, Begin(w))
    ensures NoSurplus(c, Apply(c, s, Begin(w)))
  {
    var rx := |Has(s, WorkerRx(w))|;
    HoldersFit(s.ledger, WorkerRx(w), Waiting);
    if rx / c.reqPkts > 0 {
      EnoughToBegin(rx, c.reqPkts, c.msgThreshold, c);
      if c.msgThreshold == 0 || rx / c.reqPkts >= 1 { Proportion(c.reqPkts, 1, rx / c.reqPkts); }
    }
  }

  lemma TakeKeepsNoSurplus(c: Config, s: Server, t: Server, w: nat, x: nat)
    requires NoSurplus(c, s) && w < c.workers && s.worker[w].Gathering? && s.worker[w].left > 0
    requires DeskFits(c, s.worker[w], |Has(s, WorkerRx(w))|, |Has(s, WorkerHand(w))|)
    requires Transfers(s.ledger, t.ledger, WorkerRx(w), x, WorkerHand(w))
    requires t.worker == s.worker[w := Gather(c, s.worker[w].left - 1, s.worker[w].msgs)]
    ensures NoSurplus(c, t)
  {
  }

  lemma ReplyKeepsNoSurplus(c: Config, s: Server, t: Server, w: nat, x: nat, to: Place)
    requires NoSurplus(c, s) && w < c.workers && s.worker[w].Replying? && s.worker[w].left > 0
    requires Transfers(s.ledger, t.ledger, WorkerHand(w), x, to) && !to.WorkerHand?
    requires t.worker == s.worker[w := Replying(s.worker[w].left - 1)]
    ensures NoSurplus(c, t)
  {
  }

  lemma TransferKeepsNoSurplus(c: Config, s: Server, t: Server, from: Place, x: nat, to: Place)
    requires NoSurplus(c, s) && t.worker == s.worker && Transfers(s.ledger, t.ledger, from, x, to)
    requires !from.WorkerHand? && !to.WorkerHand?
    ensures NoSurplus(c, t)
  {
  }

  lemma OthersLeaveHands(c: Config, s: Server, step: Step)
    requires Enabled(c, s, step) && !IsWorker(step) && MotionOf(c, s, step).Goes?
    ensures !MotionOf(c, s, step).from.WorkerHand? && !MotionOf(c, s, step).to.WorkerHand?
    ensures WorkersAfter(c, s, step) == s.worker
  {
  }

  lemma OthersKeepNoSurplus(c: Config, s: Server, step: Step)
    requires GoodConfig(c) && Inv(c, s) && NoSurplus(c, s) && Enabled(c, s, step) && !IsWorker(step)
    ensures NoSurplus(c, Apply(c, s, step))
  {
    var m := MotionOf(c, s, step);
    if m.Goes? {
      OthersLeaveHands(c, s, step);
      StepTransfers(c, s, step);
      TransferKeepsNoSurplus(c, s, Apply(c, s, step), m.from, m.x, m.to);
    }
  }

  lemma TakeEffect(c: Config, s: Server, w: nat)
    requires Inv(c, s) && Enabled(c, s, Take(w)) && Has(s, WorkerRx(w)) != []
    ensures Transfers(s.ledger, LedgerAfter(c, s, Take(w)), WorkerRx(w), Has(s, WorkerRx(w))[0], WorkerHand(w))
    ensures WorkersAfter(c, s, Take(w)) == s.worker[w := Gather(c, s.worker[w].left - 1, s.worker[w].msgs)]
  {
    StepTransfers(c, s, Take(w));
  }

  lemma TakingKeepsNoSurplus(c: Config, s: Server, w: nat)
    requires GoodConfig(c) && Inv(c, s) && NoSurplus(c, s) && Enabled(c, s, Take(w))
    ensures NoSurplus(c, Apply(c, s, Take(w)))
  {
    assert DeskFits(c, s.worker[w], |Has(s, WorkerRx(w))|, |Has(s, WorkerHand(w))|);
    TakeEffect(c, s, w);
    TakeKeepsNoSurplus(c, s, Apply(c, s, Take(w)), w, Has(s, WorkerRx(w))[0]);
  }

  lemma ReplyingKeepsNoSurplus(c: Config, s: Server, w: nat)
    requires GoodConfig(c) && Inv(c, s) && NoSurplus(c, s) && Enabled(c, s, Reply(w))
    ensures NoSurplus(c, Apply(c, s, Reply(w)))
  {
    StepTransfers(c, s, Reply(w));
    var m := MotionOf(c, s, Reply(w));
    ReplyKeepsNoSurplus(c, s, Apply(c, s, Reply(w)), w, m.x, m.to);
  }

  lemma StepKeepsNoSurplus(c: Config, s: Server, step: Step)
    requires GoodConfig(c) && Inv(c, s) && NoSurplus(c, s) && CannotLose(c) && Enabled(c, s, step)
    ensures NoSurplus(c, Apply(c, s, step))
  {
    match step
    case Begin(w) => BeginKeepsNoSurplus(c, s, w);
    case Take(w) => TakingKeepsNoSurplus(c, s, w);
    case Reply(w) => ReplyingKeepsNoSurplus(c, s, w);
    case Trim(_) =>
    case _ => OthersKeepNoSurplus(c, s, step);
  }

  /** No worker writes FREE. */
  lemma WorkersFreeNothing(c: Config, s: Server, step: Step)
    requires GoodConfig(c) && Inv(c, s) && NoSurplus(c, s) && CannotLose(c) && Enabled(c, s, step) && IsWorker(step)
    ensures FlagsAfter(c, s, step) == s.flag
  {
    if step.Reply? {
      HoldersFit(s.ledger, WorkerTx(step.w), WorkerHand(step.w));
      assert MotionOf(c, s, step).to == WorkerTx(step.w);
    }
  }

  lemma StepInTime(c: Config, s: Server, step: Step)
    requires GoodConfig(c) && Inv(c, s) && NoSurplus(c, s) && CannotLose(c) && MarkIsInTime(s) && Enabled(c, s, step)
    ensures MarkIsInTime(Apply(c, s, step))
  {
    if IsWorker(step) {
      WorkersFreeNothing(c, s, step);
    } else {
      OneThreadStep(c, s, step);
    }
  }

  lemma {:induction false} CannotLoseRuns(c: Config, s: Server, steps: seq<Step>)
    requires GoodConfig(c) && CannotLose(c) && Runs(c, s, steps)
    requires Inv(c, s) && NoSurplus(c, s) && MarkIsInTime(s) && NothingLost(s)
    ensures NothingLost(Exec(c, s, steps))
    decreases |steps|
  {
    if steps != [] {
      StepKeepsInv(c, s, steps[0]);
      StepKeepsNoSurplus(c, s, steps[0]);
      StepInTime(c, s, steps[0]);
      StepLosesIffLate(c, s, steps[0]);
      CannotLoseRuns(c, Apply(c, s, steps[0]), steps[1..]);
    }
  }

  // Configurations that can

  /** The first worker has nothing. */
  ghost predicate Idle(c: Config, s: Server) {
    Reachable(c, s) && |s.worker| == c.workers > 0 && s.worker[0] == Replying(0) && Has(s, WorkerHand(0)) == []
  }

  ghost predicate Polled(c: Config, s: Server, n: nat) {
    && Idle(c, s) && s.pc.Ready? && s.cursor == 0 && s.waitForDisp == n
    && |Has(s, Waiting)| == n && |Has(s, NicRecv)| == c.depth - n && Has(s, WorkerRx(0)) == []
  }

  lemma {:induction false} PollMany(c: Config, n: nat) returns (s: Server)
    requires GoodConfig(c) && c.workers > 0 && n <= c.depth
    ensures Polled(c, s, n)
  {
    if n == 0 {
      s := Init(c);
      assert Runs(c, s, []) && s == Exec(c, s, []);
    } else {
      s := PollMany(c, n - 1);
      s := PollNext(c, s, n - 1);
    }
  }

  lemma PollNext(c: Config, s: Server, n: nat) returns (t: Server)
    requires GoodConfig(c) && n < c.depth && Polled(c, s, n)
    ensures Polled(c, t, n + 1)
  {
    ReachableInv(c, s);
    StepTransfers(c, s, PollOne);
    ReachableStep(c, s, PollOne);
    t := Apply(c, s, PollOne);
    PolledNext(c, s, t, n);
  }

  lemma PolledNext(c: Config, s: Server, t: Server, n: nat)
    requires n < c.depth && Polled(c, s, n) && Reachable(c, t)
    requires exists x :: Transfers(s.ledger, t.ledger, NicRecv, x, Waiting)
    requires t.worker == s.worker && t.pc == s.pc && t.cursor == s.cursor && t.waitForDisp == s.waitForDisp + 1
    ensures Polled(c, t, n + 1)
  {
  }

  /** k of n packets have gone to the first worker, and all of them are marked. */
  ghost predicate DealtOut(c: Config, s: Server, n: nat, k: nat) {
    && Idle(c, s) && (s.pc.Dispatching? || (k == 0 && s.pc.Ready?)) && s.cursor == k && s.waitForDisp == n
    && |Has(s, Waiting)| == n - k && |Has(s, WorkerRx(0))| == k
  }

  /** Buffer b has been enqueued last and not been marked. */
  ghost predicate Enqueued(c: Config, s: Server, k: nat, b: nat) {
    && Idle(c, s) && s.pc == Marking(b) && |Has(s, WorkerRx(0))| == k > 0 && Has(s, WorkerRx(0))[k - 1] == b
  }

  lemma EnqueueNext(c: Config, s: Server, n: nat, k: nat) returns (t: Server, b: nat)
    requires GoodConfig(c) && DealtOut(c, s, n, k) && k < n && k < c.queueCap
    ensures Enqueued(c, t, k + 1, b) && t.cursor == k + 1 && t.waitForDisp == n && |Has(t, Waiting)| == n - k - 1
  {
    ReachableInv(c, s);
    StepTransfers(c, s, DispatchTo(0));
    ReachableStep(c, s, DispatchTo(0));
    t, b := Apply(c, s, DispatchTo(0)), Has(s, Waiting)[0];
  }

  lemma MarkNext(c: Config, s: Server, n: nat, k: nat, b: nat) returns (t: Server)
    requires GoodConfig(c) && Enqueued(c, s, k, b) && s.cursor == k && s.waitForDisp == n && |Has(s, Waiting)| == n - k
    ensures DealtOut(c, t, n, k)
  {
    ReachableInv(c, s);
    assert FlagFits(s.flag[b], s.ledger.where[b], true) && s.ledger.where[b] == WorkerRx(0);
    ReachableStep(c, s, MarkAppOwned);
    t := Apply(c, s, MarkAppOwned);
  }

  lemma {:induction false} DealMany(c: Config, n: nat, k: nat) returns (s: Server)
    requires GoodConfig(c) && c.workers > 0 && k <= n <= c.depth && k <= c.queueCap
    ensures DealtOut(c, s, n, k)
  {
    if k == 0 {
      s := PollMany(c, n);
    } else {
      s := DealMany(c, n, k - 1);
      var t, b := EnqueueNext(c, s, n, k - 1);
      s := MarkNext(c, t, n, k, b);
    }
  }

  /** The worker's packets in hand and in its queue, b the last of them and not marked. */
  ghost predicate EndsIn(c: Config, s: Server, b: nat) {
    && Reachable(c, s) && |s.worker| == c.workers > 0 && s.pc == Marking(b)
    && var x := Has(s, WorkerHand(0)) + Has(s, WorkerRx(0)); x != [] && x[|x| - 1] == b
  }

  lemma TakeMoves(c: Config, s: Server)
    requires Located(s.ledger) && Flags(s) && Enabled(c, s, Take(0)) && Has(s, WorkerRx(0)) != []
    ensures var t := Apply(c, s, Take(0));
            && t.pc == s.pc && t.worker == s.worker[0 := Gather(c, s.worker[0].left - 1, s.worker[0].msgs)]
            && Has(t, WorkerHand(0)) == Has(s, WorkerHand(0)) + [Has(s, WorkerRx(0))[0]]
            && Has(t, WorkerRx(0)) == Has(s, WorkerRx(0))[1..]
  {
    StepTransfers(c, s, Take(0));
  }

  lemma TakeKeepsEnd(c: Config, s: Server, t: Server, b: nat)
    requires EndsIn(c, s, b) && Has(s, WorkerRx(0)) != []
    requires Reachable(c, t) && t.pc == s.pc && |t.worker| == |s.worker|
    requires Has(t, WorkerHand(0)) == Has(s, WorkerHand(0)) + [Has(s, WorkerRx(0))[0]]
    requires Has(t, WorkerRx(0)) == Has(s, WorkerRx(0))[1..]
    ensures EndsIn(c, t, b)
  {
    assert Has(t, WorkerHand(0)) + Has(t, WorkerRx(0)) == Has(s, WorkerHand(0)) + Has(s, WorkerRx(0));
  }

  lemma TakeOne(c: Config, s: Server, b: nat) returns (t: Server)
    requires GoodConfig(c) && EndsIn(c, s, b) && s.worker[0].Gathering? && s.worker[0].left == |Has(s, WorkerRx(0))| > 0
    ensures EndsIn(c, t, b) && |Has(t, WorkerHand(0))| == |Has(s, WorkerHand(0))| + 1
    ensures |Has(t, WorkerRx(0))| == |Has(s, WorkerRx(0))| - 1
    ensures t.worker[0] == Gather(c, s.worker[0].left - 1, s.worker[0].msgs)
  {
    ReachableInv(c, s);
    TakeMoves(c, s);
    ReachableStep(c, s, Take(0));
    t := Apply(c, s, Take(0));
    TakeKeepsEnd(c, s, t, b);
  }

  lemma {:induction false} TakeMany(c: Config, s: Server, b: nat) returns (t: Server)
    requires GoodConfig(c) && EndsIn(c, s, b) && s.worker[0].Gathering? && s.worker[0].left == |Has(s, WorkerRx(0))| > 0
    requires c.respPkts < c.reqPkts
    ensures EndsIn(c, t, b) && t.worker[0].Replying? && t.worker[0].left < |Has(t, WorkerHand(0))| && Has(t, WorkerRx(0)) == []
    decreases s.worker[0].left
  {
    t := TakeOne(c, s, b);
    if s.worker[0].left > 1 {
      t := TakeMany(c, t, b);
    } else {
      ReachableInv(c, s);
      assert DeskFits(c, s.worker[0], |Has(s, WorkerRx(0))|, |Has(s, WorkerHand(0))|);
      FewerReplies(s.worker[0].msgs, c.respPkts, c.reqPkts);
    }
  }

  lemma FewerReplies(m: nat, x: nat, y: nat)
    requires x < y && m * y > 0
    ensures m * x < m * y
  {
  }

  lemma ReplyMoves(c: Config, s: Server)
    requires Located(s.ledger) && Flags(s) && Enabled(c, s, Reply(0))
    ensures var t := Apply(c, s, Reply(0));
            && t.pc == s.pc && t.worker == s.worker[0 := Replying(s.worker[0].left - 1)]
            && Has(t, WorkerHand(0)) == Has(s, WorkerHand(0))[1..] && Has(t, WorkerRx(0)) == Has(s, WorkerRx(0))
  {
    StepTransfers(c, s, Reply(0));
  }

  lemma TrimMoves(c: Config, s: Server)
    requires Located(s.ledger) && Flags(s) && Enabled(c, s, Trim(0))
    ensures var t := Apply(c, s, Trim(0));
            && t.pc == s.pc && t.worker == s.worker
            && Has(t, WorkerHand(0)) == Has(s, WorkerHand(0))[1..] && Has(t, WorkerRx(0)) == Has(s, WorkerRx(0))
  {
    StepTransfers(c, s, Trim(0));
  }

  lemma TrimFrees(c: Config, s: Server)
    requires Located(s.ledger) && Flags(s) && Enabled(c, s, Trim(0))
    ensures var flags, x := FlagsAfter(c, s, Trim(0)), Has(s, WorkerHand(0))[0]; x < |flags| && flags[x].Free?
  {
    FirstIsLocated(s.ledger, WorkerHand(0));
  }

  lemma WorkOne(c: Config, s: Server, b: nat) returns (t: Server)
    requires GoodConfig(c) && EndsIn(c, s, b) && Has(s, WorkerRx(0)) == [] && s.worker[0].Replying?
    requires s.worker[0].left < |Has(s, WorkerHand(0))|
    ensures Reachable(c, t) && t.pc == Marking(b) && |t.worker| == c.workers
    ensures Has(t, WorkerRx(0)) == [] && Has(t, WorkerHand(0)) == Has(s, WorkerHand(0))[1..]
    ensures t.worker[0] == Replying(if s.worker[0].left > 0 then s.worker[0].left - 1 else 0)
    ensures |Has(s, WorkerHand(0))| == 1 ==> b < |t.flag| && t.flag[b].Free?
  {
    var step := if s.worker[0].left > 0 then Reply(0) else Trim(0);
    ReachableInv(c, s);
    if step.Reply? { ReplyMoves(c, s); } else { TrimMoves(c, s); TrimFrees(c, s); }
    ReachableStep(c, s, step);
    t := Apply(c, s, step);
  }

  /** The worker replies and trims until it has freed b; then the dispatcher marks it. */
  lemma {:induction false} WorkToTheEnd(c: Config, s: Server, b: nat) returns (t: Server)
    requires GoodConfig(c) && EndsIn(c, s, b) && Has(s, WorkerRx(0)) == [] && s.worker[0].Replying?
    requires s.worker[0].left < |Has(s, WorkerHand(0))|
    ensures Reachable(c, t) && IsLost(t, b) && b < c.depth
    decreases |Has(s, WorkerHand(0))|
  {
    t := WorkOne(c, s, b);
    if |Has(s, WorkerHand(0))| > 1 {
      t := WorkToTheEnd(c, t, b);
    } else {
      t := MarkLate(c, t, b);
    }
  }

  lemma MarkLate(c: Config, s: Server, b: nat) returns (t: Server)
    requires GoodConfig(c) && Reachable(c, s) && s.pc == Marking(b) && b < |s.flag| && s.flag[b].Free?
    ensures Reachable(c, t) && IsLost(t, b) && b < c.depth
  {
    ReachableInv(c, s);
    LosingStep(c, s, MarkAppOwned, b);
    ReachableStep(c, s, MarkAppOwned);
    t := Apply(c, s, MarkAppOwned);
  }

  lemma StartWork(c: Config, s: Server, b: nat) returns (t: Server)
    requires GoodConfig(c) && Needed(c) > 0 && Enqueued(c, s, Needed(c), b)
    ensures EndsIn(c, t, b) && t.worker[0].Gathering? && t.worker[0].left == |Has(t, WorkerRx(0))| > 0
  {
    CanStart(c, s, b);
    ReachableStep(c, s, Begin(0));
    t := Apply(c, s, Begin(0));
    BeginGathers(c, s);
    assert Has(t, WorkerHand(0)) + Has(t, WorkerRx(0)) == Has(s, WorkerRx(0));
  }

  lemma CanStart(c: Config, s: Server, b: nat)
    requires GoodConfig(c) && Needed(c) > 0 && Enqueued(c, s, Needed(c), b)
    ensures Enabled(c, s, Begin(0)) && |s.worker| == c.workers > 0
    ensures |Has(s, WorkerRx(0))| / c.reqPkts * c.reqPkts == |Has(s, WorkerRx(0))|
  {
    var k := if c.msgThreshold == 0 then 1 else c.msgThreshold;
    assert |Has(s, WorkerRx(0))| / c.reqPkts == k by { WholeNumber(k, c.reqPkts); }
    ReachableInv(c, s);
  }

  lemma BeginGathers(c: Config, s: Server)
    requires Enabled(c, s, Begin(0)) && |Has(s, WorkerRx(0))| / c.reqPkts * c.reqPkts == |Has(s, WorkerRx(0))| > 0
    ensures var t := Apply(c, s, Begin(0));
            && |t.worker| == |s.worker| && t.worker[0].Gathering? && t.worker[0].left == |Has(s, WorkerRx(0))|
            && t.ledger == s.ledger && t.pc == s.pc
  {
    var k := |Has(s, WorkerRx(0))| / c.reqPkts;
    var t := Apply(c, s, Begin(0));
    assert t.ledger == s.ledger && t.pc == s.pc;
    assert t.worker == s.worker[0 := Gathering(k * c.reqPkts, k)];
  }

  lemma WholeNumber(k: nat, a: nat)
    requires a > 0
    ensures (k * a) / a == k
  {
    MathUtils.RemainderUnique(k * a, a, k, 0);
  }

  lemma SomeRunLoses(c: Config) returns (s: Server, b: nat)
    requires GoodConfig(c) && c.workers > 0 && c.respPkts < c.reqPkts && Needed(c) <= c.depth && Needed(c) <= c.queueCap
    ensures Reachable(c, s) && IsLost(s, b) && b < c.depth
  {
    var n := Needed(c);
    MathUtils.MulMonotone(1, if c.msgThreshold == 0 then 1 else c.msgThreshold, c.reqPkts);
    s := DealMany(c, n, n - 1);
    s, b := EnqueueNext(c, s, n, n - 1);
    s := StartWork(c, s, b);
    s := TakeMany(c, s, b);
    s := WorkToTheEnd(c, s, b);
  }

  /** Where a worker queue holds the whole ring, as in the source, two threads can lose a buffer exactly when there is
      a worker, responses have fewer packets than requests, and the ring holds what a worker waits for. */
  lemma TwoThreadsCanLoseIff(c: Config)
    requires GoodConfig(c) && c.queueCap >= c.depth
    ensures (exists s :: Reachable(c, s) && !NothingLost(s))
            <==> c.workers > 0 && c.respPkts < c.reqPkts && Needed(c) <= c.depth
  {
    if c.workers > 0 && c.respPkts < c.reqPkts && Needed(c) <= c.depth {
      var s, b := SomeRunLoses(c);
      ReachableInv(c, s);
      assert !NothingLost(s);
    } else {
      forall s | Reachable(c, s) ensures NothingLost(s) {
        var steps :| Runs(c, Init(c), steps) && s == Exec(c, Init(c), steps);
        InitInv(c);
        CannotLoseRuns(c, Init(c), steps);
      }
    }
  }
}
