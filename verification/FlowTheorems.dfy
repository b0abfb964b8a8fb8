/** When the counted loop keeps moving, and when it cannot. */
module FlowTheorems {
  // Here the link delivers whenever it holds a packet: DPDK, whose receive descriptors are refilled as soon as they
  // are polled. RoCE's receive rings, which can be full, are the subject of RingTheorems and RingLimits.

  import opened MathUtils
  import opened FlowControl

  /** Some phase of some thread can move packets or messages on. */
  ghost predicate CanProgress(c: Config, s: State)
    requires GoodConfig(c) && Shape(c, s)
  {
    exists step :: Enabled(c, s, step) && Moves(step)
  }

  /** Losing packets on the link is not progress, nor is a burst that takes nothing. */
  predicate Moves(step: Step) {
    !(step.Request? && Idle(step.m)) && !(step.Response? && Idle(step.m))
  }

  predicate Idle(m: Motion) { m.Lose? || m == Flush(0) }

  /** Every stage holds less than it waits for. */
  predicate AllBelow(c: Config, s: State)
    requires GoodConfig(c) && Shape(c, s)
  {
    && (forall w :: 0 <= w < c.clients ==> s.held[w] == 0 && s.budget[w] < c.batch)
    && PathBelow(c.req, s.req, c.a * c.serverBatch) && PathBelow(c.resp, s.resp, c.b * c.clientBatch)
  }

  predicate PathBelow(st: Stage, p: Path, handled: nat) {
    && (forall w :: 0 <= w < |p.tx| ==> p.tx[w] < st.collect)
    && !Flushing(p) && p.disp < st.flush && p.wire == 0 && p.wait == 0
    && (forall w :: 0 <= w < |p.rx| ==> p.rx[w] < handled)
  }

  lemma PathStuck(st: Stage, p: Path)
    requires 1 <= st.collect && 1 <= st.flush <= st.ring && |p.rx| >= 1
    requires forall m :: CanMove(st, p, m) ==> Idle(m)
    ensures (forall w :: 0 <= w < |p.tx| ==> p.tx[w] < st.collect)
    ensures !Flushing(p) && p.disp < st.flush && p.wire == 0 && p.wait == 0
  {
    assert !CanMove(st, p, Flush(1)) && !CanMove(st, p, Deliver(1)) && !CanMove(st, p, Dispatch(0, 1));
    forall w | 0 <= w < |p.tx| ensures p.tx[w] < st.collect {
      assert !CanMove(st, p, Collect(w, 1));
    }
  }

  lemma WorkersStuck(c: Config, s: State)
    requires GoodConfig(c) && Shape(c, s) && !CanProgress(c, s)
    ensures forall w :: 0 <= w < c.clients ==> s.held[w] == 0 && s.budget[w] < c.batch && s.resp.rx[w] < c.b * c.clientBatch
    ensures forall w :: 0 <= w < c.servers ==> s.req.rx[w] < c.a * c.serverBatch
  {
    forall w | 0 <= w < c.clients
      ensures s.held[w] == 0 && s.budget[w] < c.batch && s.resp.rx[w] < c.b * c.clientBatch
    {
      assert !Enabled(c, s, Generate(w)) by { assert Moves(Generate(w)); }
      assert !Enabled(c, s, Apply(w)) by { assert Moves(Apply(w)); }
      assert !Enabled(c, s, Finish(w, c.clientBatch)) by { assert Moves(Finish(w, c.clientBatch)); }
      WholeMessages(s.resp.rx[w], c.b, c.clientBatch);
    }
    forall w | 0 <= w < c.servers ensures s.req.rx[w] < c.a * c.serverBatch {
      assert !Enabled(c, s, Serve(w, c.serverBatch)) by { assert Moves(Serve(w, c.serverBatch)); }
      WholeMessages(s.req.rx[w], c.a, c.serverBatch);
    }
  }

  /** With a link that always delivers, the loop stands still exactly when every stage is below its threshold and the
      link is empty. A flush threshold above the array's size would be a further way to stand still. */
  lemma StuckIffAllBelow(c: Config, s: State)
    requires GoodConfig(c) && Shape(c, s) && c.req.flush <= c.req.ring && c.resp.flush <= c.resp.ring
    ensures !CanProgress(c, s) <==> AllBelow(c, s)
  {
    if !CanProgress(c, s) {
      WorkersStuck(c, s);
      forall m | CanMove(c.req, s.req, m) ensures Idle(m) {
        assert Enabled(c, s, Request(m));
        assert !Moves(Request(m));
      }
      forall m | CanMove(c.resp, s.resp, m) ensures Idle(m) {
        assert Enabled(c, s, Response(m));
        assert !Moves(Response(m));
      }
      PathStuck(c.req, s.req);
      PathStuck(c.resp, s.resp);
    }
    if AllBelow(c, s) {
      forall step | Moves(step) ensures !Enabled(c, s, step) {
        BelowIsStuck(c, s, step);
      }
    }
  }

  lemma BelowIsStuck(c: Config, s: State, step: Step)
    requires GoodConfig(c) && Shape(c, s) && AllBelow(c, s) && Moves(step)
    ensures !Enabled(c, s, step)
  {
    if step.Serve? && step.w < c.servers {
      WholeMessages(s.req.rx[step.w], c.a, step.n);
      if step.n >= c.serverBatch { ProductMonotone(c.a, c.serverBatch, step.n); }
    }
    if step.Finish? && step.w < c.clients {
      WholeMessages(s.resp.rx[step.w], c.b, step.n);
      if step.n >= c.clientBatch { ProductMonotone(c.b, c.clientBatch, step.n); }
    }
  }

  /** The most packets that one direction can hold with every stage below its threshold. */
  function PathSlack(st: Stage, senders: nat, receivers: nat, handled: nat): int {
    senders * (st.collect - 1) + (st.flush - 1) + receivers * (handled - 1)
  }

  /** The most worth that can be spread below the thresholds. */
  function Slack(c: Config): int {
    Worth(c.a, c.b, c.clients * (c.batch - 1),
          PathSlack(c.req, c.clients, c.servers, c.a * c.serverBatch),
          PathSlack(c.resp, c.servers, c.clients, c.b * c.clientBatch))
  }

  lemma PathBelowSlack(st: Stage, p: Path, handled: nat)
    requires PathBelow(st, p, handled) && 1 <= st.collect && 1 <= handled
    ensures InFlight(p) <= PathSlack(st, |p.tx|, |p.rx|, handled)
  {
    TotalBound(p.tx, st.collect - 1);
    TotalBound(p.rx, handled - 1);
  }

  lemma WorthMonotone(a: nat, b: nat, x: int, r: int, p: int, x': int, r': int, p': int)
    requires x <= x' && r <= r' && p <= p'
    ensures Worth(a, b, x, r, p) <= Worth(a, b, x', r', p')
  {
    ProductMonotone(a * b, x, x');
    ProductMonotone(b, r, r');
    ProductMonotone(a, p, p');
  }

  lemma BelowHoldsLittle(c: Config, s: State)
    requires GoodConfig(c) && Shape(c, s) && AllBelow(c, s)
    ensures Worth(c.a, c.b, Messages(s), InFlight(s.req), InFlight(s.resp)) <= Slack(c)
  {
    MulMonotone(1, c.a, 1);
    ProductMonotone(c.a, 1, c.serverBatch);
    ProductMonotone(c.b, 1, c.clientBatch);
    PathBelowSlack(c.req, s.req, c.a * c.serverBatch);
    PathBelowSlack(c.resp, s.resp, c.b * c.clientBatch);
    TotalBound(s.budget, c.batch - 1);
    TotalBound(s.held, 0);
    WorthMonotone(c.a, c.b, Messages(s), InFlight(s.req), InFlight(s.resp), c.clients * (c.batch - 1),
                  PathSlack(c.req, c.clients, c.servers, c.a * c.serverBatch),
                  PathSlack(c.resp, c.servers, c.clients, c.b * c.clientBatch));
  }

  lemma ThresholdsHideLittle(c: Config, steps: seq<Step>)
    requires GoodConfig(c) && Loose(c, Initial(c), steps) && AllBelow(c, Exec(c, Initial(c), steps))
    requires var s := Exec(c, Initial(c), steps);
             s.req.lost == s.req.dropped == s.resp.lost == s.resp.dropped == 0
    ensures c.a * c.b * AllMessages(c) <= Slack(c)
  {
    RunConserves(c, steps);
    BelowHoldsLittle(c, Exec(c, Initial(c), steps));
  }

  /** Deadlock freedom with a link that always delivers: with a budget worth more than what the thresholds can hide,
      no run that has lost nothing comes to a stop. */
  lemma DeliveringLoopNeverDeadlocks(c: Config, steps: seq<Step>)
    requires GoodConfig(c) && c.req.flush <= c.req.ring && c.resp.flush <= c.resp.ring
    requires c.a * c.b * AllMessages(c) > Slack(c)
    requires Runs(c, Initial(c), steps)
    requires var s := Exec(c, Initial(c), steps);
             s.req.lost == s.req.dropped == s.resp.lost == s.resp.dropped == 0
    ensures CanProgress(c, Exec(c, Initial(c), steps))
  {
    StuckIffAllBelow(c, Exec(c, Initial(c), steps));
    if AllBelow(c, Exec(c, Initial(c), steps)) { ThresholdsHideLittle(c, steps); }
  }

  /** One client worker, one server worker and one-packet messages: it is enough that the budget exceeds the client's
      batch by the sum of (threshold - 1) over the batching points, DPDK's collect thresholds included. */
  lemma DeliveringFlowNeverDeadlocks(c: Config, steps: seq<Step>)
    requires GoodConfig(c) && c.clients == c.servers == c.a == c.b == 1
    requires c.req.flush <= c.req.ring && c.resp.flush <= c.resp.ring
    requires c.budget - c.batch >= (c.req.collect - 1) + (c.req.flush - 1) + (c.serverBatch - 1)
                                 + (c.resp.collect - 1) + (c.resp.flush - 1) + (c.clientBatch - 1)
    requires Runs(c, Initial(c), steps)
    requires var s := Exec(c, Initial(c), steps);
             s.req.lost == s.req.dropped == s.resp.lost == s.resp.dropped == 0
    ensures CanProgress(c, Exec(c, Initial(c), steps))
  {
    DeliveringLoopNeverDeadlocks(c, steps);
  }

  // What the start-up check misses

  /** `workspace.cc:41-42`. */
  predicate StartUpCheck(c: Config) {
    c.budget >= c.batch && c.budget >= c.clientBatch
  }

  /** The batching points in the order in which a message passes them. */
  datatype Point = ReqCollect | ReqFlush | ServerBatch | RespCollect | RespFlush | ClientBatch

  /** More than the whole budget would have to gather at this point. */
  predicate OutOfReach(c: Config, p: Point) {
    match p
    case ReqCollect => c.req.collect > c.a * AllMessages(c)
    case ReqFlush => c.req.flush > c.a * AllMessages(c)
    case ServerBatch => c.a * c.serverBatch > c.a * AllMessages(c)
    case RespCollect => c.resp.collect > c.b * AllMessages(c)
    case RespFlush => c.resp.flush > c.b * AllMessages(c)
    case ClientBatch => c.b * c.clientBatch > c.b * AllMessages(c)
  }

  predicate Zeros(s: seq<nat>) { forall i :: 0 <= i < |s| ==> s[i] == 0 }

  function Index(p: Point): nat {
    match p case ReqCollect => 0 case ReqFlush => 1 case ServerBatch => 2
    case RespCollect => 3 case RespFlush => 4 case ClientBatch => 5
  }

  /** Nothing has passed the point. */
  predicate DryAfter(s: State, p: Point) {
    var k := Index(p);
    && (k <= 0 ==> s.req.disp == 0)
    && (k <= 1 ==> !s.req.flushing && s.req.wire == 0 && s.req.wait == 0 && Zeros(s.req.rx))
    && (k <= 2 ==> Zeros(s.resp.tx))
    && (k <= 3 ==> s.resp.disp == 0)
    && (k <= 4 ==> !s.resp.flushing && s.resp.wire == 0 && s.resp.wait == 0 && Zeros(s.resp.rx))
  }

  /** The steps that pass a point. */
  predicate Passes(step: Step, p: Point) {
    match p
    case ReqCollect => step.Request? && step.m.Collect?
    case ReqFlush => step.Request? && step.m.Flush?
    case ServerBatch => step.Serve?
    case RespCollect => step.Response? && step.m.Collect?
    case RespFlush => step.Response? && step.m.Flush?
    case ClientBatch => step.Finish?
  }

  lemma PathOutOfReach(st: Stage, p: Path, m: Motion, all: nat)
    requires Accounted(p) <= all && ((m.Collect? && st.collect > all) || (m.Flush? && st.flush > all && !Flushing(p)))
    ensures !CanMove(st, p, m)
  {
    if m.Collect? && m.w < |p.tx| { PartOfTotal(p.tx, m.w); }
  }

  lemma HandlerOutOfReach(rx: seq<nat>, w: nat, per: nat, n: nat, batch: nat, total: nat)
    requires w < |rx| && per >= 1 && Total(rx) <= total && per * batch > total
    ensures !(batch <= n <= rx[w] / per)
  {
    PartOfTotal(rx, w);
    WholeMessages(rx[w], per, n);
    if n >= batch { ProductMonotone(per, batch, n); }
  }

  lemma OutOfReachBlocks(c: Config, s: State, p: Point, step: Step)
    requires GoodConfig(c) && Shape(c, s) && OutOfReach(c, p) && Passes(step, p) && DryAfter(s, p)
    requires Worths(c, s) == c.a * c.b * AllMessages(c)
    ensures !Enabled(c, s, step)
  {
    WorthBoundsRequests(c.a, c.b, Messages(s), Accounted(s.req), Accounted(s.resp), AllMessages(c));
    BlockedByTotals(c, s, p, step, c.a * AllMessages(c), c.b * AllMessages(c));
  }

  lemma BlockedByTotals(c: Config, s: State, p: Point, step: Step, requests: nat, responses: nat)
    requires GoodConfig(c) && Shape(c, s) && OutOfReach(c, p) && Passes(step, p) && DryAfter(s, p)
    requires requests == c.a * AllMessages(c) && responses == c.b * AllMessages(c)
    requires Accounted(s.req) <= requests && Accounted(s.resp) <= responses
    ensures !Enabled(c, s, step)
  {
    match step
    case Request(m) => PathOutOfReach(c.req, s.req, m, requests);
    case Response(m) => PathOutOfReach(c.resp, s.resp, m, responses);
    case Serve(w, n) => if w < c.servers { HandlerOutOfReach(s.req.rx, w, c.a, n, c.serverBatch, requests); }
    case Finish(w, n) => if w < c.clients { HandlerOutOfReach(s.resp.rx, w, c.b, n, c.clientBatch, responses); }
    case _ =>
  }

  lemma DryStaysDry(c: Config, s: State, p: Point, step: Step)
    requires GoodConfig(c) && Shape(c, s) && DryAfter(s, p) && Enabled(c, s, step) && !Passes(step, p)
    ensures DryAfter(Do(c, s, step), p)
  {
    match step
    case Serve(w, n) => WholeMessages(s.req.rx[w], c.a, n); ProductMonotone(c.a, 1, n);
    case Finish(w, n) => WholeMessages(s.resp.rx[w], c.b, n); ProductMonotone(c.b, 1, n);
    case _ =>
  }

  lemma {:induction false} RunStaysDry(c: Config, p: Point, steps: seq<Step>)
    requires GoodConfig(c) && OutOfReach(c, p) && Runs(c, Initial(c), steps)
    ensures DryAfter(Exec(c, Initial(c), steps), p)
    decreases |steps|
  {
    if steps != [] {
      var past, step := steps[..|steps| - 1], steps[|steps| - 1];
      var s := Exec(c, Initial(c), past);
      RunStaysDry(c, p, past);
      RunConserves(c, past);
      if Passes(step, p) { OutOfReachBlocks(c, s, p, step); } else { DryStaysDry(c, s, p, step); }
    }
  }

  /** If any of the six thresholds is beyond the whole budget, no run ever completes a message. */
  lemma NoMessageEverCompletes(c: Config, p: Point, steps: seq<Step>, w: nat, n: nat)
    requires GoodConfig(c) && OutOfReach(c, p) && Runs(c, Initial(c), steps)
    ensures !Enabled(c, Exec(c, Initial(c), steps), Finish(w, n))
  {
    var s := Exec(c, Initial(c), steps);
    RunStaysDry(c, p, steps);
    RunConserves(c, steps);
    if p.ClientBatch? {
      OutOfReachBlocks(c, s, p, Finish(w, n));
    } else if w < c.clients {
      WholeMessages(s.resp.rx[w], c.b, n);
      ProductMonotone(c.b, 0, n);
    }
  }

  /** The start-up check is not enough: this configuration passes it and never completes a message. */
  lemma StartUpCheckIsNotEnough(steps: seq<Step>, w: nat, n: nat)
    requires var st := Stage(1, 32, 2048);
             Runs(Config(1, 1, 16, 8, 1, 1, 8, 8, 4095, st, st), Initial(Config(1, 1, 16, 8, 1, 1, 8, 8, 4095, st, st)), steps)
    ensures var st := Stage(1, 32, 2048);
            var c := Config(1, 1, 16, 8, 1, 1, 8, 8, 4095, st, st);
            StartUpCheck(c) && !Enabled(c, Exec(c, Initial(c), steps), Finish(w, n))
  {
    var st := Stage(1, 32, 2048);
    var c := Config(1, 1, 16, 8, 1, 1, 8, 8, 4095, st, st);
    NoMessageEverCompletes(c, ReqFlush, steps, w, n);
  }
}
