/** The closed loop between the client and server workers of one workload. */
module FlowControl {
  // In-flight budget, worker queues, dispatcher batches, link, and the batching threshold of each stage
  // (`src/workspace.h`, `src/ws_impl/msg_handlers.cc`, `src/util/rule_table.h`). Queues are counted, not ordered.

  import opened MathUtils

  function Total(s: seq<nat>): nat {
    if s == [] then 0 else Total(s[..|s| - 1]) + s[|s| - 1]
  }

  lemma {:induction false} TotalUpdate(s: seq<nat>, i: nat, x: nat)
    requires i < |s|
    ensures Total(s[i := x]) + s[i] == Total(s) + x
    decreases |s|
  {
    var n := |s| - 1;
    if i == n {
      assert s[i := x][..n] == s[..n];
    } else {
      assert s[i := x][..n] == s[..n][i := x];
      TotalUpdate(s[..n], i, x);
    }
  }

  lemma {:induction false} PartOfTotal(s: seq<nat>, i: nat)
    requires i < |s|
    ensures s[i] <= Total(s)
  {
    if i < |s| - 1 { PartOfTotal(s[..|s| - 1], i); }
  }

  lemma {:induction false} TotalBound(s: seq<nat>, x: nat)
    requires forall i :: 0 <= i < |s| ==> s[i] <= x
    ensures Total(s) <= |s| * x
  {
    if s != [] {
      TotalBound(s[..|s| - 1], x);
      assert |s| * x == (|s| - 1) * x + x;
    }
  }

  /** A dispatcher's sending side: how many packets a worker's queue must hold to be collected from
      (1 on RoCE, kDispTxBatchSize on DPDK), how many collected ones start a flush, and its array's size. */
  datatype Stage = Stage(collect: nat, flush: nat, ring: nat)

  /** Packets on their way in one direction: worker tx queues, the dispatcher's array, the NICs and the link,
      the receiver's ring, worker rx queues; and those lost on the link or dropped at full queues. A flush that
      has begun goes on until the array is empty. */
  datatype Path = Path(tx: seq<nat>, disp: nat, flushing: bool, wire: nat, wait: nat, rx: seq<nat>, lost: nat, dropped: nat)

  predicate Flushing(p: Path) { p.flushing && p.disp > 0 }

  function InFlight(p: Path): nat {
    Total(p.tx) + p.disp + p.wire + p.wait + Total(p.rx)
  }

  /** Packets that ever entered and have not been handled. */
  function Accounted(p: Path): nat {
    InFlight(p) + p.lost + p.dropped
  }

  /** The entries that a queue of this capacity takes out of n offered one by one. */
  function Taken(len: nat, n: nat, capacity: nat): nat {
    if len + n <= capacity then n else if len <= capacity then capacity - len else 0
  }

  function Offer(p: Path, w: nat, n: nat, capacity: nat): Path
    requires w < |p.tx|
  {
    var k := Taken(p.tx[w], n, capacity);
    p.(tx := p.tx[w := p.tx[w] + k], dropped := p.dropped + n - k)
  }

  function Take(p: Path, w: nat, n: nat): Path
    requires w < |p.rx| && n <= p.rx[w]
  {
    p.(rx := p.rx[w := p.rx[w] - n])
  }

  /** Flush(n) is one burst of a flush, which the NIC takes n packets of. */
  datatype Motion = Collect(w: nat, n: nat) | Flush(n: nat) | Deliver(n: nat) | Lose(n: nat) | Dispatch(w: nat, n: nat)

  /** The packets that the motion takes are there. */
  predicate Available(p: Path, m: Motion) {
    match m
    case Collect(w, n) => w < |p.tx| && n <= p.tx[w]
    case Flush(n) => n <= p.disp
    case Deliver(n) => n <= p.wire
    case Lose(n) => n <= p.wire
    case Dispatch(w, n) => w < |p.rx| && n <= p.wait
  }

  /** One dispatcher on each side, which goes by its thresholds. */
  predicate CanMove(st: Stage, p: Path, m: Motion) {
    && Available(p, m)
    && match m
       case Collect(w, n) => !Flushing(p) && p.tx[w] >= st.collect && n >= 1 && p.disp + n <= st.ring
       case Flush(n) => (Flushing(p) || p.disp >= st.flush) && p.disp >= 1
       case Deliver(n) => n >= 1
       case Lose(n) => n >= 1
       case Dispatch(w, n) => n >= 1
  }

  function Move(p: Path, m: Motion, capacity: nat): Path
    requires Available(p, m)
  {
    match m
    case Collect(w, n) => p.(tx := p.tx[w := p.tx[w] - n], disp := p.disp + n)
    case Flush(n) => p.(wire := p.wire + n, disp := p.disp - n, flushing := n < p.disp)
    case Deliver(n) => p.(wire := p.wire - n, wait := p.wait + n)
    case Lose(n) => p.(wire := p.wire - n, lost := p.lost + n)
    case Dispatch(w, n) =>
      var k := Taken(p.rx[w], n, capacity);
      p.(wait := p.wait - n, rx := p.rx[w := p.rx[w] + k], dropped := p.dropped + n - k)
  }

  /** a request packets and b response packets per message; thresholds in messages at the two handlers. */
  datatype Config = Config(clients: nat, servers: nat, budget: nat, batch: nat, a: nat, b: nat,
                           serverBatch: nat, clientBatch: nat, capacity: nat, req: Stage, resp: Stage)

  /** The budgets of all client workers together, in messages. */
  function AllMessages(c: Config): nat { c.clients * c.budget }

  predicate GoodConfig(c: Config) {
    && c.clients >= 1 && c.servers >= 1 && c.batch >= 1 && c.a >= 1 && c.b >= 1
    && c.serverBatch >= 1 && c.clientBatch >= 1
    && c.req.collect >= 1 && c.req.flush >= 1 && c.resp.collect >= 1 && c.resp.flush >= 1
  }

  /** budget and held, in messages, per client worker; held is a batch applied for and not yet generated. */
  datatype State = State(budget: seq<nat>, held: seq<nat>, req: Path, resp: Path)

  datatype Step = Apply(w: nat) | Generate(w: nat) | Request(m: Motion) | Serve(w: nat, n: nat)
                | Response(m: Motion) | Finish(w: nat, n: nat)

  predicate Shape(c: Config, s: State) {
    && |s.budget| == c.clients && |s.held| == c.clients && |s.req.tx| == c.clients && |s.resp.rx| == c.clients
    && |s.req.rx| == c.servers && |s.resp.tx| == c.servers
  }

  predicate Enabled(c: Config, s: State, step: Step)
    requires GoodConfig(c) && Shape(c, s)
  {
    match step
    case Apply(w) => w < c.clients && s.held[w] == 0 && s.budget[w] >= c.batch
    case Generate(w) => w < c.clients && s.held[w] > 0
    case Request(m) => CanMove(c.req, s.req, m)
    case Serve(w, n) => w < c.servers && c.serverBatch <= n <= s.req.rx[w] / c.a
    case Response(m) => CanMove(c.resp, s.resp, m)
    case Finish(w, n) => w < c.clients && c.clientBatch <= n <= s.resp.rx[w] / c.b
  }

  /** The step's packets and messages are there, whatever the dispatchers' thresholds say: what any number of
      dispatchers on each side can do, with disp, wire and wait their totals (module Dispatchers). */
  predicate Feasible(c: Config, s: State, step: Step)
    requires GoodConfig(c) && Shape(c, s)
  {
    match step
    case Request(m) => Available(s.req, m)
    case Response(m) => Available(s.resp, m)
    case _ => Enabled(c, s, step)
  }

  lemma OneMore(q: int, per: int)
    ensures (q + 1) * per == q * per + per
  {
  }

  lemma WholeMessages(packets: nat, per: nat, n: nat)
    requires per >= 1
    ensures n <= packets / per <==> per * n <= packets
  {
    var q, r := packets / per, packets % per;
    assert packets == q * per + r && r < per;
    if n <= q { MulMonotone(n, q, per); }
    if n > q { MulMonotone(q + 1, n, per); OneMore(q, per); }
    assert per * n == n * per;
  }

  function Do(c: Config, s: State, step: Step): (s': State)
    requires GoodConfig(c) && Shape(c, s) && Feasible(c, s, step)
    ensures Shape(c, s')
  {
    match step
    case Apply(w) => s.(budget := s.budget[w := s.budget[w] - c.batch], held := s.held[w := c.batch])
    case Generate(w) => s.(held := s.held[w := 0], req := Offer(s.req, w, c.a * s.held[w], c.capacity))
    case Request(m) => s.(req := Move(s.req, m, c.capacity))
    case Serve(w, n) =>
      WholeMessages(s.req.rx[w], c.a, n);
      s.(req := Take(s.req, w, c.a * n), resp := Offer(s.resp, w, c.b * n, c.capacity))
    case Response(m) => s.(resp := Move(s.resp, m, c.capacity))
    case Finish(w, n) =>
      WholeMessages(s.resp.rx[w], c.b, n);
      s.(resp := Take(s.resp, w, c.b * n), budget := s.budget[w := s.budget[w] + n])
  }

  function EmptyPath(senders: nat, receivers: nat): Path {
    Path(seq(senders, _ => 0), 0, false, 0, 0, seq(receivers, _ => 0), 0, 0)
  }

  function Initial(c: Config): State {
    State(seq(c.clients, _ => c.budget), seq(c.clients, _ => 0), EmptyPath(c.clients, c.servers), EmptyPath(c.servers, c.clients))
  }

  // Conservation

  lemma OfferAccounts(p: Path, w: nat, n: nat, capacity: nat)
    requires w < |p.tx|
    ensures Accounted(Offer(p, w, n, capacity)) == Accounted(p) + n
  {
    TotalUpdate(p.tx, w, p.tx[w] + Taken(p.tx[w], n, capacity));
  }

  lemma TakeAccounts(p: Path, w: nat, n: nat)
    requires w < |p.rx| && n <= p.rx[w]
    ensures Accounted(Take(p, w, n)) + n == Accounted(p)
  {
    TotalUpdate(p.rx, w, p.rx[w] - n);
  }

  lemma MoveAccounts(p: Path, m: Motion, capacity: nat)
    requires Available(p, m)
    ensures Accounted(Move(p, m, capacity)) == Accounted(p)
  {
    match m
    case Collect(w, n) => TotalUpdate(p.tx, w, p.tx[w] - n);
    case Dispatch(w, n) => TotalUpdate(p.rx, w, p.rx[w] + Taken(p.rx[w], n, capacity));
    case _ =>
  }

  /** Everything in packets of both kinds at once: one message is worth a * b. */
  function Worth(a: nat, b: nat, messages: int, requests: int, responses: int): int {
    a * b * messages + b * requests + a * responses
  }

  function Messages(s: State): nat { Total(s.budget) + Total(s.held) }

  function Worths(c: Config, s: State): int {
    Worth(c.a, c.b, Messages(s), Accounted(s.req), Accounted(s.resp))
  }

  lemma BecomesRequests(a: nat, b: nat, x: int, r: int, p: int, n: int)
    ensures Worth(a, b, x - n, r + a * n, p) == Worth(a, b, x, r, p)
  {
    assert a * b * (x - n) == a * b * x - a * b * n;
    assert b * (r + a * n) == b * r + b * (a * n);
    assert b * (a * n) == a * b * n;
  }

  lemma BecomesResponses(a: nat, b: nat, x: int, r: int, p: int, n: int)
    ensures Worth(a, b, x, r - a * n, p + b * n) == Worth(a, b, x, r, p)
  {
    assert b * (r - a * n) == b * r - b * (a * n);
    assert a * (p + b * n) == a * p + a * (b * n);
    assert b * (a * n) == a * (b * n);
  }

  lemma BecomesBudget(a: nat, b: nat, x: int, r: int, p: int, n: int)
    ensures Worth(a, b, x + n, r, p - b * n) == Worth(a, b, x, r, p)
  {
    assert a * b * (x + n) == a * b * x + a * b * n;
    assert a * (p - b * n) == a * p - a * (b * n);
    assert a * (b * n) == a * b * n;
  }

  lemma ServeConserves(c: Config, s: State, w: nat, n: nat)
    requires GoodConfig(c) && Shape(c, s) && Enabled(c, s, Serve(w, n))
    ensures Worths(c, Do(c, s, Serve(w, n))) == Worths(c, s)
  {
    WholeMessages(s.req.rx[w], c.a, n);
    TakeAccounts(s.req, w, c.a * n);
    OfferAccounts(s.resp, w, c.b * n, c.capacity);
    BecomesResponses(c.a, c.b, Messages(s), Accounted(s.req), Accounted(s.resp), n);
  }

  lemma FinishConserves(c: Config, s: State, w: nat, n: nat)
    requires GoodConfig(c) && Shape(c, s) && Enabled(c, s, Finish(w, n))
    ensures Worths(c, Do(c, s, Finish(w, n))) == Worths(c, s)
  {
    WholeMessages(s.resp.rx[w], c.b, n);
    TakeAccounts(s.resp, w, c.b * n);
    TotalUpdate(s.budget, w, s.budget[w] + n);
    BecomesBudget(c.a, c.b, Messages(s), Accounted(s.req), Accounted(s.resp), n);
  }

  lemma StepConserves(c: Config, s: State, step: Step)
    requires GoodConfig(c) && Shape(c, s) && Feasible(c, s, step)
    ensures Worths(c, Do(c, s, step)) == Worths(c, s)
  {
    match step
    case Apply(w) =>
      TotalUpdate(s.budget, w, s.budget[w] - c.batch);
      TotalUpdate(s.held, w, c.batch);
    case Generate(w) =>
      TotalUpdate(s.held, w, 0);
      OfferAccounts(s.req, w, c.a * s.held[w], c.capacity);
      BecomesRequests(c.a, c.b, Messages(s), Accounted(s.req), Accounted(s.resp), s.held[w]);
    case Request(m) => MoveAccounts(s.req, m, c.capacity);
    case Serve(w, n) => ServeConserves(c, s, w, n);
    case Response(m) => MoveAccounts(s.resp, m, c.capacity);
    case Finish(w, n) => FinishConserves(c, s, w, n);
  }

  // Runs

  /** A run of feasible steps, latest last. */
  predicate Loose(c: Config, s: State, steps: seq<Step>)
    requires GoodConfig(c) && Shape(c, s)
    decreases |steps|, 0
  {
    steps == [] || (Loose(c, s, steps[..|steps| - 1]) && Feasible(c, Exec(c, s, steps[..|steps| - 1]), steps[|steps| - 1]))
  }

  function Exec(c: Config, s: State, steps: seq<Step>): (s': State)
    requires GoodConfig(c) && Shape(c, s) && Loose(c, s, steps)
    ensures Shape(c, s')
    decreases |steps|, 1
  {
    if steps == [] then s else Do(c, Exec(c, s, steps[..|steps| - 1]), steps[|steps| - 1])
  }

  /** A run with one dispatcher on each side. */
  predicate Runs(c: Config, s: State, steps: seq<Step>): (r: bool)
    requires GoodConfig(c) && Shape(c, s)
    ensures r ==> Loose(c, s, steps)
  {
    steps == [] || (Runs(c, s, steps[..|steps| - 1]) && Enabled(c, Exec(c, s, steps[..|steps| - 1]), steps[|steps| - 1]))
  }

  lemma {:induction false} TotalOfSame(n: nat, x: nat)
    ensures Total(seq(n, _ => x)) == n * x
  {
    if n > 0 {
      TotalOfSame(n - 1, x);
      assert seq(n, _ => x)[..n - 1] == seq(n - 1, _ => x);
      OneMore(n - 1, x);
    }
  }

  lemma InitialWorth(c: Config)
    ensures Worths(c, Initial(c)) == c.a * c.b * AllMessages(c)
  {
    TotalOfSame(c.clients, c.budget);
    TotalOfSame(c.clients, 0);
    TotalOfSame(c.servers, 0);
  }

  lemma {:induction false} RunConserves(c: Config, steps: seq<Step>)
    requires GoodConfig(c) && Loose(c, Initial(c), steps)
    ensures Worths(c, Exec(c, Initial(c), steps)) == c.a * c.b * AllMessages(c)
    decreases |steps|
  {
    if steps == [] {
      InitialWorth(c);
    } else {
      RunConserves(c, steps[..|steps| - 1]);
      StepConserves(c, Exec(c, Initial(c), steps[..|steps| - 1]), steps[|steps| - 1]);
    }
  }

  /** Over every run of any number of dispatchers, whichever client worker a response comes back to: budget, requests and responses never
      add up to more than the initial budget, and to exactly that when nothing was lost or dropped. */
  lemma BudgetIsConserved(c: Config, steps: seq<Step>)
    requires GoodConfig(c) && Loose(c, Initial(c), steps)
    ensures var s := Exec(c, Initial(c), steps);
            var now := Worth(c.a, c.b, Messages(s), InFlight(s.req), InFlight(s.resp));
            var all := c.a * c.b * AllMessages(c);
            && now <= all
            && (now == all <==> s.req.lost == s.req.dropped == s.resp.lost == s.resp.dropped == 0)
  {
    RunConserves(c, steps);
    var s := Exec(c, Initial(c), steps);
    LossesWeigh(c.a, c.b, Messages(s), InFlight(s.req), InFlight(s.resp),
                s.req.lost + s.req.dropped, s.resp.lost + s.resp.dropped);
  }

  lemma LossesWeigh(a: nat, b: nat, x: int, r: int, p: int, lr: nat, lp: nat)
    requires a >= 1 && b >= 1
    ensures Worth(a, b, x, r, p) <= Worth(a, b, x, r + lr, p + lp)
    ensures Worth(a, b, x, r, p) == Worth(a, b, x, r + lr, p + lp) <==> lr == lp == 0
  {
    assert b * (r + lr) == b * r + b * lr && a * (p + lp) == a * p + a * lp;
    MulMonotone(1, b, lr);
    MulMonotone(1, a, lp);
  }

  // Queue capacity

  /** What a step would drop at full queues. */
  function Drops(c: Config, s: State, step: Step): nat
    requires GoodConfig(c) && Shape(c, s) && Feasible(c, s, step)
  {
    var s' := Do(c, s, step);
    var more := s'.req.dropped + s'.resp.dropped - s.req.dropped - s.resp.dropped;
    if more >= 0 then more else 0
  }

  lemma WorthBoundsRequests(a: nat, b: nat, x: nat, r: nat, p: nat, total: nat)
    requires a >= 1 && b >= 1 && Worth(a, b, x, r, p) == a * b * total
    ensures r + a * x <= a * total && p + b * x <= b * total
  {
    assert a * b * x == b * (a * x) == a * (b * x) && a * b * total == b * (a * total) == a * (b * total);
    assert b * (r + a * x) == b * r + b * (a * x) && a * (p + b * x) == a * p + a * (b * x);
    CancelFactor(b, r + a * x, a * total);
    CancelFactor(a, p + b * x, b * total);
  }

  lemma CancelFactor(k: nat, x: int, y: int)
    requires k >= 1 && k * x <= k * y
    ensures x <= y
  {
    if x > y { MulMonotone(y + 1, x, k); OneMore(y, k); }
  }

  lemma OfferFits(p: Path, w: nat, n: nat, capacity: nat)
    requires w < |p.tx| && Accounted(p) + n <= capacity
    ensures Offer(p, w, n, capacity).dropped == p.dropped
  {
    PartOfTotal(p.tx, w);
  }

  lemma MoveFits(p: Path, m: Motion, capacity: nat)
    requires Available(p, m) && Accounted(p) <= capacity
    ensures Move(p, m, capacity).dropped == p.dropped
  {
    if m.Dispatch? { PartOfTotal(p.rx, m.w); }
  }

  lemma GenerateFits(c: Config, s: State, w: nat)
    requires GoodConfig(c) && Shape(c, s) && Enabled(c, s, Generate(w))
    requires Accounted(s.req) + c.a * Messages(s) <= c.capacity
    ensures Drops(c, s, Generate(w)) == 0
  {
    PartOfTotal(s.held, w);
    ProductMonotone(c.a, s.held[w], Messages(s));
    OfferFits(s.req, w, c.a * s.held[w], c.capacity);
  }

  lemma MotionFits(c: Config, s: State, step: Step)
    requires GoodConfig(c) && Shape(c, s) && Feasible(c, s, step) && (step.Request? || step.Response?)
    requires Accounted(s.req) <= c.capacity && Accounted(s.resp) <= c.capacity
    ensures Drops(c, s, step) == 0
  {
    if step.Request? { MoveFits(s.req, step.m, c.capacity); } else { MoveFits(s.resp, step.m, c.capacity); }
  }

  /** If all the packets that the budget can stand for fit in one worker queue, no enqueue ever fails. */
  lemma QueuesNeverOverflow(c: Config, steps: seq<Step>, step: Step)
    requires GoodConfig(c) && Loose(c, Initial(c), steps) && Feasible(c, Exec(c, Initial(c), steps), step)
    requires c.a * AllMessages(c) <= c.capacity && c.b * AllMessages(c) <= c.capacity
    ensures Drops(c, Exec(c, Initial(c), steps), step) == 0
  {
    RunConserves(c, steps);
    StepFits(c, Exec(c, Initial(c), steps), step, AllMessages(c));
  }

  lemma StepFits(c: Config, s: State, step: Step, all: nat)
    requires GoodConfig(c) && Shape(c, s) && Feasible(c, s, step) && Worths(c, s) == c.a * c.b * all
    requires c.a * all <= c.capacity && c.b * all <= c.capacity
    ensures Drops(c, s, step) == 0
  {
    WorthBoundsRequests(c.a, c.b, Messages(s), Accounted(s.req), Accounted(s.resp), all);
    match step
    case Generate(w) => GenerateFits(c, s, w);
    case Request(m) => MotionFits(c, s, step);
    case Serve(w, n) => StepConserves(c, s, step); ServedFits(c, s, w, n, all);
    case Response(m) => MotionFits(c, s, step);
    case _ =>
  }

  lemma ProductMonotone(k: nat, x: int, y: int)
    requires x <= y
    ensures k * x <= k * y
  {
    MulMonotone(x, y, k);
  }

  lemma ServedFits(c: Config, s: State, w: nat, n: nat, all: nat)
    requires GoodConfig(c) && Shape(c, s) && Enabled(c, s, Serve(w, n))
    requires Worths(c, Do(c, s, Serve(w, n))) == c.a * c.b * all && c.b * all <= c.capacity
    ensures Drops(c, s, Serve(w, n)) == 0
  {
    var s' := Do(c, s, Serve(w, n));
    assert Accounted(s'.resp) <= c.capacity by {
      WorthBoundsRequests(c.a, c.b, Messages(s'), Accounted(s'.req), Accounted(s'.resp), all);
    }
    OfferedFits(s.resp, w, c.b * n, c.capacity);
  }

  lemma OfferedFits(p: Path, w: nat, n: nat, capacity: nat)
    requires w < |p.tx| && Accounted(Offer(p, w, n, capacity)) <= capacity
    ensures Offer(p, w, n, capacity).dropped == p.dropped
  {
    OfferAccounts(p, w, n, capacity);
    OfferFits(p, w, n, capacity);
  }
}
