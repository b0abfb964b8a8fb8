/** Configurations of the closed loop over RoCE that always come to a stop. */
module RingLimits {
  import opened MathUtils
  import opened FlowControl
  import opened FlowTheorems
  import opened RingFlow
  import opened RingOrder
  import opened RingInvariant
  import opened RingTheorems

  /** The threshold is more than the whole budget can gather, or more than a worker's share of the receive ring. */
  predicate Beyond(c: Config, g: Rings, p: Point)
    requires GoodLoop(c)
  {
    || OutOfReach(c, p)
    || (p == ServerBatch && c.a * c.serverBatch > Share(g.serverDepth, c.servers))
    || (p == ClientBatch && c.b * c.clientBatch > Share(g.clientDepth, c.clients))
  }

  lemma ShareBlocks(r: Ring, depth: nat, w: nat, per: nat, n: nat, batch: nat)
    requires w < |r.rx| && RingSafe(r, depth) && per >= 1 && per * batch > Share(depth, |r.rx|)
    ensures !(batch <= n <= |r.rx[w]| / per)
  {
    QueueWithinShare(r, depth, w);
    WholeMessages(|r.rx[w]|, per, n);
    if n >= batch { ProductMonotone(per, batch, n); }
  }

  /** No reachable state lets anything pass the point. */
  lemma BeyondBlocks(c: Config, g: Rings, acts: seq<Action>, p: Point, step: Step)
    requires GoodLoop(c) && Run(c, g, acts) && Beyond(c, g, p) && Passes(step, p) && DryAfter(End(c, g, acts).flow, p)
    ensures !Enabled(c, End(c, g, acts).flow, step)
  {
    var s := End(c, g, acts);
    if OutOfReach(c, p) {
      RunRefines(c, g, acts);
      RunConserves(c, CountRun(c, g, acts));
      OutOfReachBlocks(c, s.flow, p, step);
    } else if p.ServerBatch? && step.w < c.servers {
      RunKeepsSafe(c, g, acts);
      ShareBlocks(s.server, g.serverDepth, step.w, c.a, step.n, c.serverBatch);
    } else if p.ClientBatch? && step.w < c.clients {
      RunKeepsSafe(c, g, acts);
      ShareBlocks(s.client, g.clientDepth, step.w, c.b, step.n, c.clientBatch);
    }
  }

  lemma {:induction false} LoopStaysDry(c: Config, g: Rings, p: Point, acts: seq<Action>)
    requires GoodLoop(c) && Beyond(c, g, p) && Run(c, g, acts)
    ensures DryAfter(End(c, g, acts).flow, p)
    decreases |acts|
  {
    if acts != [] {
      var past, act := acts[..|acts| - 1], acts[|acts| - 1];
      var s := End(c, g, past);
      LoopStaysDry(c, g, p, past);
      StepRefines(c, g, s, act);
      if Counts(g, s, act) != [] {
        var step := Counts(g, s, act)[0];
        if Passes(step, p) { BeyondBlocks(c, g, past, p, step); } else { DryStaysDry(c, s.flow, p, step); }
      }
    }
  }

  /** If any threshold is beyond the budget, or a handler's beyond a worker's share of the ring, no run ever
      completes a message. */
  lemma NoMessageEverCompletes(c: Config, g: Rings, p: Point, acts: seq<Action>, w: nat, n: nat)
    requires GoodLoop(c) && Beyond(c, g, p) && Run(c, g, acts)
    ensures !Can(c, g, End(c, g, acts), Plain(Finish(w, n)))
  {
    var s := End(c, g, acts);
    LoopStaysDry(c, g, p, acts);
    if p.ClientBatch? {
      BeyondBlocks(c, g, acts, p, Finish(w, n));
    } else {
      DryFinishesNothing(c, s.flow, w, n);
    }
  }

  lemma DryFinishesNothing(c: Config, s: State, w: nat, n: nat)
    requires GoodConfig(c) && Shape(c, s) && Zeros(s.resp.rx)
    ensures !Enabled(c, s, Finish(w, n))
  {
    if w < c.clients {
      WholeMessages(s.resp.rx[w], c.b, n);
      ProductMonotone(c.b, 0, n);
    }
  }

  // What is left to happen

  /** Each packet weighs more the further it has to go; each move makes it lighter. */
  function PathWeight(p: Path, base: nat): nat {
    base * InFlight(p) + 6 * Total(p.tx) + 5 * p.disp + 3 * p.wire + p.wait
  }

  function RingWeight(r: Ring): int { r.delivered - r.reposted }

  function FlowWeight(c: Config, s: State): nat {
    (14 * c.a + 1) * Messages(s) + Total(s.budget) + PathWeight(s.req, 8) + PathWeight(s.resp, 1)
  }

  function Weight(c: Config, s: Loop): int {
    FlowWeight(c, s.flow) + s.posted + |s.sent| + RingWeight(s.server) + RingWeight(s.client)
  }

  lemma Factor(k: nat, x: int, y: int)
    ensures k * (x + y) == k * x + k * y
  {
  }

  lemma OfferWeight(p: Path, w: nat, n: nat, capacity: nat, base: nat)
    requires w < |p.tx|
    ensures PathWeight(Offer(p, w, n, capacity), base) <= PathWeight(p, base) + (base + 6) * n
  {
    var k := Taken(p.tx[w], n, capacity);
    TotalUpdate(p.tx, w, p.tx[w] + k);
    Factor(base, InFlight(p), k);
    ProductMonotone(base, k, n);
  }

  lemma TakeWeight(p: Path, w: nat, n: nat, base: nat)
    requires w < |p.rx| && n <= p.rx[w]
    ensures PathWeight(Take(p, w, n), base) + base * n == PathWeight(p, base)
  {
    TotalUpdate(p.rx, w, p.rx[w] - n);
    Factor(base, InFlight(Take(p, w, n)), n);
  }

  /** What a motion takes off the weight at least. */
  function Relief(m: Motion): nat {
    match m
    case Collect(_, n) => n
    case Flush(n) => 2 * n
    case Deliver(n) => 2 * n
    case Lose(n) => n
    case Dispatch(_, n) => n
  }

  lemma MoveWeight(st: Stage, p: Path, m: Motion, capacity: nat, base: nat)
    requires CanMove(st, p, m)
    ensures PathWeight(Move(p, m, capacity), base) + Relief(m) <= PathWeight(p, base)
  {
    var p' := Move(p, m, capacity);
    if m.Collect? { TotalUpdate(p.tx, m.w, p.tx[m.w] - m.n); }
    if m.Dispatch? { TotalUpdate(p.rx, m.w, p.rx[m.w] + Taken(p.rx[m.w], m.n, capacity)); }
    ProductMonotone(base, InFlight(p'), InFlight(p));
  }

  lemma ApplyWeight(c: Config, s: State, w: nat)
    requires GoodConfig(c) && Shape(c, s) && Enabled(c, s, Apply(w))
    ensures FlowWeight(c, Do(c, s, Apply(w))) < FlowWeight(c, s)
  {
    TotalUpdate(s.budget, w, s.budget[w] - c.batch);
    TotalUpdate(s.held, w, c.batch);
  }

  lemma GenerateWeight(c: Config, s: State, w: nat)
    requires GoodConfig(c) && Shape(c, s) && Enabled(c, s, Generate(w))
    ensures FlowWeight(c, Do(c, s, Generate(w))) < FlowWeight(c, s)
  {
    var h := s.held[w];
    TotalUpdate(s.held, w, 0);
    OfferWeight(s.req, w, c.a * h, c.capacity, 8);
    MessageWeight(c.a, Messages(s) - h, h);
  }

  lemma MessageWeight(a: nat, rest: int, h: int)
    ensures (14 * a + 1) * (rest + h) == (14 * a + 1) * rest + 14 * (a * h) + h
  {
    Factor(14 * a + 1, rest, h);
    assert (14 * a + 1) * h == 14 * (a * h) + h;
  }

  lemma ServeWeight(c: Config, s: State, w: nat, n: nat)
    requires GoodLoop(c) && Shape(c, s) && Enabled(c, s, Serve(w, n))
    ensures FlowWeight(c, Do(c, s, Serve(w, n))) < FlowWeight(c, s)
  {
    WholeMessages(s.req.rx[w], c.a, n);
    var taken, given := c.a * n, c.b * n;
    TakeWeight(s.req, w, taken, 8);
    OfferWeight(s.resp, w, given, c.capacity, 1);
    assert given <= taken && taken >= 1 by {
      MulMonotone(c.b, c.a, n);
      MulMonotone(1, c.a, n);
    }
  }

  lemma MotionWeight(c: Config, s: State, step: Step)
    requires GoodLoop(c) && Shape(c, s) && Enabled(c, s, step) && (step.Request? || step.Response?)
    ensures FlowWeight(c, Do(c, s, step)) + Relief(step.m) <= FlowWeight(c, s)
  {
    if step.Request? {
      MoveWeight(c.req, s.req, step.m, c.capacity, 8);
    } else {
      MoveWeight(c.resp, s.resp, step.m, c.capacity, 1);
    }
  }

  lemma PlainLightens(c: Config, g: Rings, s: Loop, step: Step)
    requires GoodLoop(c) && Agrees(c, s) && Can(c, g, s, Plain(step)) && Moves(step) && !step.Finish?
    ensures Weight(c, After(c, g, s, Plain(step))) < Weight(c, s)
  {
    match step
    case Apply(w) => ApplyWeight(c, s.flow, w);
    case Generate(w) => GenerateWeight(c, s.flow, w);
    case Request(m) => MotionWeight(c, s.flow, step);
    case Serve(w, n) => WholeMessages(s.flow.req.rx[w], c.a, n); ServeWeight(c, s.flow, w, n);
    case Response(m) => MotionWeight(c, s.flow, step);
  }

  lemma RequestsLighten(c: Config, g: Rings, s: Loop, k: nat)
    requires GoodLoop(c) && Agrees(c, s) && Can(c, g, s, BurstRequests(k)) && Advances(g, s, BurstRequests(k))
    ensures Weight(c, AfterRequests(c, g, s, k)) < Weight(c, s)
  {
    MotionWeight(c, s.flow, Request(Flush(BurstSize(s.flow.req.disp, s.posted - k, g.clientSend))));
  }

  lemma RepliesLighten(c: Config, g: Rings, s: Loop, k: nat)
    requires GoodLoop(c) && Agrees(c, s) && Can(c, g, s, BurstReplies(k)) && Advances(g, s, BurstReplies(k))
    ensures Weight(c, AfterReplies(c, g, s, k)) < Weight(c, s)
  {
    MotionWeight(c, s.flow, Response(Flush(BurstSize(s.flow.resp.disp, |s.sent| - k, g.serverSend))));
  }

  /** Every action that is progress, other than finishing a message, leaves less to happen. */
  lemma AdvanceLightens(c: Config, g: Rings, s: Loop, act: Action)
    requires GoodLoop(c) && Agrees(c, s) && Can(c, g, s, act) && Advances(g, s, act)
    requires !(act.Plain? && act.step.Finish?)
    ensures Weight(c, After(c, g, s, act)) < Weight(c, s)
  {
    match act
    case Plain(step) => PlainLightens(c, g, s, step);
    case BurstRequests(k) => RequestsLighten(c, g, s, k);
    case BurstReplies(k) => RepliesLighten(c, g, s, k);
    case _ =>
  }

  /** Nothing more has been lost on the links or by late marks. */
  predicate SameLosses(s: Loop, t: Loop) {
    && t.flow.req.lost == s.flow.req.lost && t.flow.resp.lost == s.flow.resp.lost
    && t.server.late == s.server.late && t.client.late == s.client.late
  }

  lemma AdvanceLosesNothing(c: Config, g: Rings, s: Loop, act: Action)
    requires GoodLoop(c) && Agrees(c, s) && Can(c, g, s, act) && Advances(g, s, act)
    ensures SameLosses(s, After(c, g, s, act))
  {
    StepRefines(c, g, s, act);
  }

  lemma Next(c: Config, g: Rings, p: Point, acts: seq<Action>) returns (act: Action)
    requires GoodLoop(c) && Beyond(c, g, p) && Run(c, g, acts) && CanAdvance(c, g, End(c, g, acts))
    ensures Run(c, g, acts + [act])
    ensures var s, s' := End(c, g, acts), End(c, g, acts + [act]);
            Weight(c, s') < Weight(c, s) && SameLosses(s, s')
  {
    var s := End(c, g, acts);
    act :| Can(c, g, s, act) && Advances(g, s, act);
    if act.Plain? && act.step.Finish? { NoMessageEverCompletes(c, g, p, acts, act.step.w, act.step.n); }
    assert (acts + [act])[..|acts + [act]| - 1] == acts;
    AdvanceLightens(c, g, s, act);
    AdvanceLosesNothing(c, g, s, act);
  }

  /** With a point beyond reach, every run ends: whatever has happened, the loop can only go on to a state in which
      nothing can move, and it loses no packet or buffer on the way. */
  lemma {:induction false} ComesToAStop(c: Config, g: Rings, p: Point, acts: seq<Action>) returns (all: seq<Action>)
    requires GoodLoop(c) && Beyond(c, g, p) && Run(c, g, acts)
    ensures acts <= all && Run(c, g, all) && !CanAdvance(c, g, End(c, g, all))
    ensures SameLosses(End(c, g, acts), End(c, g, all))
    decreases Weight(c, End(c, g, acts))
  {
    if CanAdvance(c, g, End(c, g, acts)) {
      var act := Next(c, g, p, acts);
      WeightIsNat(c, g, acts + [act]);
      all := ComesToAStop(c, g, p, acts + [act]);
    } else {
      all := acts;
    }
  }

  lemma WeightIsNat(c: Config, g: Rings, acts: seq<Action>)
    requires GoodLoop(c) && Run(c, g, acts)
    ensures Weight(c, End(c, g, acts)) >= 0
  {
    RunKeepsSafe(c, g, acts);
  }

  // The receive ring alone can be the reason

  /** What a client worker has not yet sent is its own budget. */
  predicate OwnBudgets(c: Config, s: State)
    requires Shape(c, s)
  {
    forall w :: 0 <= w < c.clients ==> c.a * (s.budget[w] + s.held[w]) + s.req.tx[w] <= c.a * c.budget
  }

  lemma StepKeepsOwnBudgets(c: Config, s: State, step: Step)
    requires GoodConfig(c) && Shape(c, s) && OwnBudgets(c, s) && Enabled(c, s, step) && !step.Finish?
    ensures OwnBudgets(c, Do(c, s, step))
  {
    match step
    case Generate(w) => Factor(c.a, s.budget[w], s.held[w]);
    case _ =>
  }

  /** In a full window there is room for the next packet in its worker's share. */
  lemma NextWithinShare(r: Ring, depth: nat)
    requires |r.rx| > 0 && InWindow(r, depth) && RingSpaced(r) && r.dispatched < r.delivered
    ensures |r.rx[r.dispatched % |r.rx|]| + 1 <= Share(depth, |r.rx|)
  {
    var w := r.dispatched % |r.rx|;
    var r' := Deal(r, |r.rx[w]| + 1);
    DealKeepsSpaced(r, |r.rx[w]| + 1);
    QueueWithinShare(r', depth, w);
  }

  /** No worker's own requests, and no worker's share of the ring, exceed a queue. */
  predicate QueuesSuffice(c: Config, g: Rings)
    requires GoodLoop(c)
  {
    c.a * c.budget <= c.capacity && Share(g.serverDepth, c.servers) <= c.capacity
  }

  lemma GenerateDropsNothing(c: Config, g: Rings, s: Loop, w: nat)
    requires GoodLoop(c) && Agrees(c, s) && OwnBudgets(c, s.flow) && QueuesSuffice(c, g) && Can(c, g, s, Plain(Generate(w)))
    ensures DropsNothing(c, g, s, Plain(Generate(w)))
  {
    Factor(c.a, s.flow.budget[w], s.flow.held[w]);
    ProductMonotone(c.a, 0, s.flow.budget[w]);
  }

  lemma DispatchDropsNothing(c: Config, g: Rings, s: Loop, m: Motion)
    requires GoodLoop(c) && SafeInv(c, g, s) && QueuesSuffice(c, g) && Can(c, g, s, Plain(Request(m))) && m.Dispatch?
    ensures DropsNothing(c, g, s, Plain(Request(m)))
  {
    NextWithinShare(s.server, g.serverDepth);
  }

  /** While the servers cannot start, nothing is dropped: no worker has more than its own budget to send, and no
      server worker is given more than its share of the ring. */
  lemma StepDropsNothing(c: Config, g: Rings, acts: seq<Action>, act: Action)
    requires GoodLoop(c) && Run(c, g, acts) && QueuesSuffice(c, g) && c.a * c.serverBatch > Share(g.serverDepth, c.servers)
    requires OwnBudgets(c, End(c, g, acts).flow) && Can(c, g, End(c, g, acts), act)
    ensures DropsNothing(c, g, End(c, g, acts), act) && OwnBudgets(c, After(c, g, End(c, g, acts), act).flow)
  {
    var s := End(c, g, acts);
    RunKeepsSafe(c, g, acts);
    LoopStaysDry(c, g, ServerBatch, acts);
    StepRefines(c, g, s, act);
    if Counts(g, s, act) != [] {
      var step := Counts(g, s, act)[0];
      if step.Serve? { BeyondBlocks(c, g, acts, ServerBatch, step); }
      if step.Finish? { NoMessageEverCompletes(c, g, ServerBatch, acts, step.w, step.n); }
      StepKeepsOwnBudgets(c, s.flow, step);
    }
    DropsNothingYet(c, g, s, act);
  }

  lemma DropsNothingYet(c: Config, g: Rings, s: Loop, act: Action)
    requires GoodLoop(c) && SafeInv(c, g, s) && QueuesSuffice(c, g) && OwnBudgets(c, s.flow) && Can(c, g, s, act)
    requires DryAfter(s.flow, ServerBatch) && !(act.Plain? && (act.step.Serve? || act.step.Finish?))
    ensures DropsNothing(c, g, s, act)
  {
    if act.Plain? {
      match act.step
      case Generate(w) => GenerateDropsNothing(c, g, s, w);
      case Request(m) => if m.Dispatch? { DispatchDropsNothing(c, g, s, m); }
      case _ =>
    }
  }

  lemma {:induction false} NothingDropped(c: Config, g: Rings, acts: seq<Action>)
    requires GoodLoop(c) && Run(c, g, acts) && QueuesSuffice(c, g) && c.a * c.serverBatch > Share(g.serverDepth, c.servers)
    ensures End(c, g, acts).flow.req.dropped == End(c, g, acts).flow.resp.dropped == 0 && OwnBudgets(c, End(c, g, acts).flow)
    decreases |acts|
  {
    if acts != [] {
      NothingDropped(c, g, acts[..|acts| - 1]);
      StepDropsNothing(c, g, acts[..|acts| - 1], acts[|acts| - 1]);
    }
  }

  /** Start-up check, budget and thresholds in order, but the servers wait for more than their share of the ring. */
  predicate OnlyRingTooSmall(c: Config, g: Rings)
    requires GoodLoop(c)
  {
    && StartUpCheck(c) && c.req.flush <= c.req.ring && c.resp.flush <= c.resp.ring
    && c.a * c.b * AllMessages(c) > Slack(c) && QueuesSuffice(c, g)
    && g.lag < g.clientSend && c.a * c.serverBatch > Share(g.serverDepth, c.servers)
  }

  lemma StopsWithRingFull(c: Config, g: Rings, acts: seq<Action>)
    requires GoodLoop(c) && Run(c, g, acts) && OnlyRingTooSmall(c, g) && Stuck(c, g, End(c, g, acts))
    requires NothingLost(End(c, g, acts))
    ensures var s := End(c, g, acts); s.flow.req.wire > 0 && s.server.delivered == s.server.reposted + g.serverDepth
  {
    var s := End(c, g, acts);
    RunKeepsSafe(c, g, acts);
    LoopStaysDry(c, g, ServerBatch, acts);
    if s.flow.req.wire == 0 {
      assert AllBelow(c, s.flow) by { ProductMonotone(c.b, 1, c.clientBatch); }
      BelowHidesBudget(c, g, acts);
    }
  }

  /** Such a configuration always comes to a stop with requests on the link, a full receive ring, and nothing lost
      or dropped. */
  lemma RingTooSmallStops(c: Config, g: Rings) returns (acts: seq<Action>)
    requires GoodLoop(c) && OnlyRingTooSmall(c, g)
    ensures Run(c, g, acts) && !CanAdvance(c, g, End(c, g, acts))
    ensures var s := End(c, g, acts); s.flow.req.wire > 0 && s.server.delivered == s.server.reposted + g.serverDepth
    ensures NothingLost(End(c, g, acts))
  {
    acts := ComesToAStop(c, g, ServerBatch, []);
    NothingDropped(c, g, acts);
    StuckIff(c, g, End(c, g, acts));
    StopsWithRingFull(c, g, acts);
  }

  /** With the source's budget of 1024, queues of 4095 and rings of 2048: five server workers on one dispatcher that
      wait for 512 one-packet messages each; and two that wait for 342 messages of three packets each. */
  lemma RingTooSmallExamples(g: Rings)
    requires g.serverDepth == g.clientDepth == g.serverSend == g.clientSend == 2048 && g.lag < 2048
    ensures var st := Stage(1, 32, 2048);
            && OnlyRingTooSmall(Config(5, 5, 1024, 32, 1, 1, 512, 32, 4095, st, st), g)
            && OnlyRingTooSmall(Config(1, 2, 1024, 32, 3, 1, 342, 32, 4095, st, st), g)
  {
  }

  // Buffers lost by a late mark

  /** Packet x lies in a lost buffer that has not been reposted since. */
  predicate LostAt(r: Ring, x: nat) { x in r.late && r.reposted <= x }

  lemma StaysLost(c: Config, g: Rings, s: Loop, act: Action, x: nat)
    requires GoodLoop(c) && Agrees(c, s) && Can(c, g, s, act)
    ensures LostAt(s.server, x) ==> LostAt(After(c, g, s, act).server, x)
    ensures LostAt(s.client, x) ==> LostAt(After(c, g, s, act).client, x)
  {
  }

  lemma {:induction false} RunStaysLost(c: Config, g: Rings, acts: seq<Action>, more: seq<Action>, x: nat)
    requires GoodLoop(c) && Run(c, g, acts + more)
    ensures Run(c, g, acts)
    ensures LostAt(End(c, g, acts).server, x) ==> LostAt(End(c, g, acts + more).server, x)
    ensures LostAt(End(c, g, acts).client, x) ==> LostAt(End(c, g, acts + more).client, x)
    decreases |more|
  {
    var all := acts + more;
    if more == [] {
      assert all == acts;
    } else {
      var past := more[..|more| - 1];
      assert all[..|all| - 1] == acts + past;
      RunStaysLost(c, g, acts, past, x);
      StaysLost(c, g, End(c, g, acts + past), all[|all| - 1], x);
    }
  }

  lemma MarkLoses(c: Config, g: Rings, s: Loop, act: Action)
    requires GoodLoop(c) && Agrees(c, s) && Can(c, g, s, act)
    ensures act.LateMarkServer? ==> s.server.dispatched >= 1 && LostAt(After(c, g, s, act).server, s.server.dispatched - 1)
    ensures act.LateMarkClient? ==> s.client.dispatched >= 1 && LostAt(After(c, g, s, act).client, s.client.dispatched - 1)
  {
  }

  lemma LastAction(c: Config, g: Rings, acts: seq<Action>, act: Action)
    requires GoodLoop(c) && Run(c, g, acts + [act])
    ensures Run(c, g, acts) && Can(c, g, End(c, g, acts), act)
    ensures End(c, g, acts + [act]) == After(c, g, End(c, g, acts), act)
  {
    assert (acts + [act])[..|acts + [act]| - 1] == acts;
  }

  lemma LostBounds(r: Ring, depth: nat, x: nat)
    requires LostAt(r, x) && RingSafe(r, depth)
    ensures r.delivered <= x + depth
  {
  }

  /** One late mark on the server stops its ring for good: whatever follows, fewer packets than the ring is deep
      arrive after the packet in the lost buffer. */
  lemma LateMarkStopsServer(c: Config, g: Rings, acts: seq<Action>, more: seq<Action>)
    requires GoodLoop(c) && Run(c, g, acts + [LateMarkServer] + more)
    ensures Run(c, g, acts)
    ensures End(c, g, acts + [LateMarkServer] + more).server.delivered < End(c, g, acts).server.dispatched + g.serverDepth
  {
    var past, all := acts + [LateMarkServer], acts + [LateMarkServer] + more;
    RunStaysLost(c, g, past, more, 0);
    LastAction(c, g, acts, LateMarkServer);
    MarkLoses(c, g, End(c, g, acts), LateMarkServer);
    var x := End(c, g, acts).server.dispatched - 1;
    RunStaysLost(c, g, past, more, x);
    RunKeepsSafe(c, g, all);
    LostBounds(End(c, g, all).server, g.serverDepth, x);
  }

  /** The same on the client. */
  lemma LateMarkStopsClient(c: Config, g: Rings, acts: seq<Action>, more: seq<Action>)
    requires GoodLoop(c) && Run(c, g, acts + [LateMarkClient] + more)
    ensures Run(c, g, acts)
    ensures End(c, g, acts + [LateMarkClient] + more).client.delivered < End(c, g, acts).client.dispatched + g.clientDepth
  {
    var past, all := acts + [LateMarkClient], acts + [LateMarkClient] + more;
    RunStaysLost(c, g, past, more, 0);
    LastAction(c, g, acts, LateMarkClient);
    MarkLoses(c, g, End(c, g, acts), LateMarkClient);
    var x := End(c, g, acts).client.dispatched - 1;
    RunStaysLost(c, g, past, more, x);
    RunKeepsSafe(c, g, all);
    LostBounds(End(c, g, all).client, g.clientDepth, x);
  }
}
