/** The closed loop with several dispatchers on each side. */
module Dispatchers {
  // A workload's workers can be spread over groups with a dispatcher each (`src/config.cc:42-93`). Every worker
  // collects and receives through its own dispatcher; a dispatcher sends to any dispatcher of the other side, as DPDK
  // does by destination port. (Over RoCE a dispatcher has a single queue pair, so groups are separate loops.)

  import opened MathUtils
  import opened FlowControl
  import opened FlowTheorems

  /** The dispatcher of each worker, on both sides. */
  datatype Net = Net(client: seq<nat>, server: seq<nat>, clients: nat, servers: nat)

  /** One direction, dispatcher by dispatcher: arrays, whether a flush is under way, packets on the link by
      destination, packets received and waiting. */
  datatype Side = Side(disp: seq<nat>, flushing: seq<bool>, wire: seq<nat>, wait: seq<nat>)

  /** FlowControl's state has the totals. */
  datatype Many = Many(flow: State, req: Side, resp: Side)

  datatype Hop = Gather(w: nat, n: nat) | Burst(d: nat, e: nat, n: nat) | Arrive(e: nat, n: nat) | Vanish(e: nat, n: nat)
               | HandOut(w: nat, n: nat)

  datatype ManyStep = Work(step: Step) | Ask(h: Hop) | Answer(h: Hop)

  predicate GoodHomes(home: seq<nat>, workers: nat, dispatchers: nat) {
    && |home| == workers && (forall w :: 0 <= w < workers ==> home[w] < dispatchers)
    && forall d :: 0 <= d < dispatchers ==> d in home
  }

  /** Every worker has a dispatcher, and every dispatcher a worker. */
  predicate GoodNet(c: Config, net: Net) {
    GoodHomes(net.client, c.clients, net.clients) && GoodHomes(net.server, c.servers, net.servers)
  }

  predicate SideAgrees(x: Side, p: Path, senders: nat, receivers: nat) {
    && |x.disp| == |x.flushing| == senders && |x.wire| == |x.wait| == receivers
    && Total(x.disp) == p.disp && Total(x.wire) == p.wire && Total(x.wait) == p.wait
  }

  predicate Agrees(c: Config, net: Net, s: Many) {
    && GoodNet(c, net) && Shape(c, s.flow)
    && SideAgrees(s.req, s.flow.req, net.clients, net.servers) && SideAgrees(s.resp, s.flow.resp, net.servers, net.clients)
  }

  /** Dispatcher d is in the middle of a flush. */
  predicate Busy(x: Side, d: nat)
    requires d < |x.disp| == |x.flushing|
  {
    x.flushing[d] && x.disp[d] > 0
  }

  predicate CanHop(st: Stage, p: Path, x: Side, from: seq<nat>, to: seq<nat>, h: Hop)
    requires |x.disp| == |x.flushing| && |x.wire| == |x.wait| && |from| == |p.tx| && |to| == |p.rx|
    requires forall w :: 0 <= w < |from| ==> from[w] < |x.disp|
    requires forall w :: 0 <= w < |to| ==> to[w] < |x.wait|
  {
    match h
    case Gather(w, n) =>
      && w < |p.tx| && !Busy(x, from[w]) && p.tx[w] >= st.collect && 1 <= n <= p.tx[w] && x.disp[from[w]] + n <= st.ring
    case Burst(d, e, n) =>
      && d < |x.disp| && e < |x.wire| && (Busy(x, d) || x.disp[d] >= st.flush) && x.disp[d] >= 1 && n <= x.disp[d]
    case Arrive(e, n) => e < |x.wire| && 1 <= n <= x.wire[e]
    case Vanish(e, n) => e < |x.wire| && 1 <= n <= x.wire[e]
    case HandOut(w, n) => w < |p.rx| && 1 <= n <= x.wait[to[w]]
  }

  predicate Can(c: Config, net: Net, s: Many, step: ManyStep)
    requires GoodConfig(c) && Agrees(c, net, s)
  {
    match step
    case Work(p) => !p.Request? && !p.Response? && Enabled(c, s.flow, p)
    case Ask(h) => CanHop(c.req, s.flow.req, s.req, net.client, net.server, h)
    case Answer(h) => CanHop(c.resp, s.flow.resp, s.resp, net.server, net.client, h)
  }

  /** What a hop is to the totals. */
  function Sum(h: Hop): Motion {
    match h
    case Gather(w, n) => Collect(w, n)
    case Burst(_, _, n) => Flush(n)
    case Arrive(_, n) => Deliver(n)
    case Vanish(_, n) => Lose(n)
    case HandOut(w, n) => Dispatch(w, n)
  }

  function Count(step: ManyStep): Step {
    match step case Work(p) => p case Ask(h) => Request(Sum(h)) case Answer(h) => Response(Sum(h))
  }

  function HopOn(st: Stage, p: Path, x: Side, from: seq<nat>, to: seq<nat>, h: Hop): Side
    requires |x.disp| == |x.flushing| && |x.wire| == |x.wait| && |from| == |p.tx| && |to| == |p.rx|
    requires forall w :: 0 <= w < |from| ==> from[w] < |x.disp|
    requires forall w :: 0 <= w < |to| ==> to[w] < |x.wait|
    requires CanHop(st, p, x, from, to, h)
  {
    match h
    case Gather(w, n) => Side(x.disp[from[w] := x.disp[from[w]] + n], x.flushing, x.wire, x.wait)
    case Burst(d, e, n) =>
      Side(x.disp[d := x.disp[d] - n], x.flushing[d := n < x.disp[d]], x.wire[e := x.wire[e] + n], x.wait)
    case Arrive(e, n) => Side(x.disp, x.flushing, x.wire[e := x.wire[e] - n], x.wait[e := x.wait[e] + n])
    case Vanish(e, n) => Side(x.disp, x.flushing, x.wire[e := x.wire[e] - n], x.wait)
    case HandOut(w, n) => Side(x.disp, x.flushing, x.wire, x.wait[to[w] := x.wait[to[w]] - n])
  }

  lemma HopIsAvailable(st: Stage, p: Path, x: Side, from: seq<nat>, to: seq<nat>, h: Hop)
    requires SideAgrees(x, p, |x.disp|, |x.wait|) && |from| == |p.tx| && |to| == |p.rx|
    requires forall w :: 0 <= w < |from| ==> from[w] < |x.disp|
    requires forall w :: 0 <= w < |to| ==> to[w] < |x.wait|
    requires CanHop(st, p, x, from, to, h)
    ensures Available(p, Sum(h))
  {
    match h
    case Gather(w, n) =>
    case Burst(d, e, n) => PartOfTotal(x.disp, d);
    case Arrive(e, n) => PartOfTotal(x.wire, e);
    case Vanish(e, n) => PartOfTotal(x.wire, e);
    case HandOut(w, n) => PartOfTotal(x.wait, to[w]);
  }

  lemma MoveTotals(x: seq<nat>, i: nat, n: nat)
    requires i < |x|
    ensures Total(x[i := x[i] + n]) == Total(x) + n
    ensures n <= x[i] ==> Total(x[i := x[i] - n]) == Total(x) - n
  {
    TotalUpdate(x, i, x[i] + n);
    if n <= x[i] { TotalUpdate(x, i, x[i] - n); }
  }

  lemma EndHopAgrees(st: Stage, p: Path, x: Side, from: seq<nat>, to: seq<nat>, h: Hop, capacity: nat)
    requires SideAgrees(x, p, |x.disp|, |x.wait|) && |from| == |p.tx| && |to| == |p.rx|
    requires forall w :: 0 <= w < |from| ==> from[w] < |x.disp|
    requires forall w :: 0 <= w < |to| ==> to[w] < |x.wait|
    requires CanHop(st, p, x, from, to, h) && Available(p, Sum(h)) && (h.Gather? || h.HandOut?)
    ensures SideAgrees(HopOn(st, p, x, from, to, h), Move(p, Sum(h), capacity), |x.disp|, |x.wait|)
  {
    match h
    case Gather(w, n) => MoveTotals(x.disp, from[w], n);
    case HandOut(w, n) => MoveTotals(x.wait, to[w], n);
  }

  lemma LinkHopAgrees(st: Stage, p: Path, x: Side, from: seq<nat>, to: seq<nat>, h: Hop, capacity: nat)
    requires SideAgrees(x, p, |x.disp|, |x.wait|) && |from| == |p.tx| && |to| == |p.rx|
    requires forall w :: 0 <= w < |from| ==> from[w] < |x.disp|
    requires forall w :: 0 <= w < |to| ==> to[w] < |x.wait|
    requires CanHop(st, p, x, from, to, h) && Available(p, Sum(h)) && (h.Arrive? || h.Vanish?)
    ensures SideAgrees(HopOn(st, p, x, from, to, h), Move(p, Sum(h), capacity), |x.disp|, |x.wait|)
  {
    MoveTotals(x.wire, h.e, h.n);
    MoveTotals(x.wait, h.e, h.n);
  }

  lemma BurstAgrees(st: Stage, p: Path, x: Side, from: seq<nat>, to: seq<nat>, h: Hop, capacity: nat)
    requires SideAgrees(x, p, |x.disp|, |x.wait|) && |from| == |p.tx| && |to| == |p.rx|
    requires forall w :: 0 <= w < |from| ==> from[w] < |x.disp|
    requires forall w :: 0 <= w < |to| ==> to[w] < |x.wait|
    requires CanHop(st, p, x, from, to, h) && Available(p, Sum(h)) && h.Burst?
    ensures SideAgrees(HopOn(st, p, x, from, to, h), Move(p, Sum(h), capacity), |x.disp|, |x.wait|)
  {
    MoveTotals(x.disp, h.d, h.n);
    MoveTotals(x.wire, h.e, h.n);
  }

  lemma HopAgrees(st: Stage, p: Path, x: Side, from: seq<nat>, to: seq<nat>, h: Hop, capacity: nat)
    requires SideAgrees(x, p, |x.disp|, |x.wait|) && |from| == |p.tx| && |to| == |p.rx|
    requires forall w :: 0 <= w < |from| ==> from[w] < |x.disp|
    requires forall w :: 0 <= w < |to| ==> to[w] < |x.wait|
    requires CanHop(st, p, x, from, to, h) && Available(p, Sum(h))
    ensures SideAgrees(HopOn(st, p, x, from, to, h), Move(p, Sum(h), capacity), |x.disp|, |x.wait|)
  {
    match h
    case Gather(_, _) => EndHopAgrees(st, p, x, from, to, h, capacity);
    case HandOut(_, _) => EndHopAgrees(st, p, x, from, to, h, capacity);
    case Burst(_, _, _) => BurstAgrees(st, p, x, from, to, h, capacity);
    case _ => LinkHopAgrees(st, p, x, from, to, h, capacity);
  }

  /** Every step is a feasible step on the totals. */
  lemma StepRefines(c: Config, net: Net, s: Many, step: ManyStep)
    requires GoodConfig(c) && Agrees(c, net, s) && Can(c, net, s, step)
    ensures Feasible(c, s.flow, Count(step))
  {
    match step
    case Work(_) =>
    case Ask(h) => HopIsAvailable(c.req, s.flow.req, s.req, net.client, net.server, h);
    case Answer(h) => HopIsAvailable(c.resp, s.flow.resp, s.resp, net.server, net.client, h);
  }

  function After(c: Config, net: Net, s: Many, step: ManyStep): (t: Many)
    requires GoodConfig(c) && Agrees(c, net, s) && Can(c, net, s, step)
    ensures Feasible(c, s.flow, Count(step)) && t.flow == Do(c, s.flow, Count(step))
  {
    StepRefines(c, net, s, step);
    var flow := Do(c, s.flow, Count(step));
    match step
    case Work(_) => Many(flow, s.req, s.resp)
    case Ask(h) => Many(flow, HopOn(c.req, s.flow.req, s.req, net.client, net.server, h), s.resp)
    case Answer(h) => Many(flow, s.req, HopOn(c.resp, s.flow.resp, s.resp, net.server, net.client, h))
  }

  lemma WorkLeavesMiddle(c: Config, s: State, p: Step)
    requires GoodConfig(c) && Shape(c, s) && Enabled(c, s, p) && !p.Request? && !p.Response?
    ensures var t := Do(c, s, p);
            && t.req.disp == s.req.disp && t.req.wire == s.req.wire && t.req.wait == s.req.wait
            && t.resp.disp == s.resp.disp && t.resp.wire == s.resp.wire && t.resp.wait == s.resp.wait
  {
  }

  lemma StepAgrees(c: Config, net: Net, s: Many, step: ManyStep)
    requires GoodConfig(c) && Agrees(c, net, s) && Can(c, net, s, step)
    ensures Agrees(c, net, After(c, net, s, step))
  {
    StepRefines(c, net, s, step);
    match step
    case Work(p) => WorkLeavesMiddle(c, s.flow, p);
    case Ask(h) => HopAgrees(c.req, s.flow.req, s.req, net.client, net.server, h, c.capacity);
    case Answer(h) => HopAgrees(c.resp, s.flow.resp, s.resp, net.server, net.client, h, c.capacity);
  }

  // Runs

  function NoPackets(senders: nat, receivers: nat): Side {
    Side(seq(senders, _ => 0), seq(senders, _ => false), seq(receivers, _ => 0), seq(receivers, _ => 0))
  }

  function Start(c: Config, net: Net): (s: Many)
    requires GoodConfig(c) && GoodNet(c, net)
    ensures Agrees(c, net, s)
  {
    TotalOfSame(net.clients, 0);
    TotalOfSame(net.servers, 0);
    Many(Initial(c), NoPackets(net.clients, net.servers), NoPackets(net.servers, net.clients))
  }

  /** A run from the start, latest step last. */
  predicate Run(c: Config, net: Net, steps: seq<ManyStep>)
    requires GoodConfig(c) && GoodNet(c, net)
    decreases |steps|, 0
  {
    steps == [] || (Run(c, net, steps[..|steps| - 1]) && Can(c, net, End(c, net, steps[..|steps| - 1]), steps[|steps| - 1]))
  }

  function End(c: Config, net: Net, steps: seq<ManyStep>): (s: Many)
    requires GoodConfig(c) && GoodNet(c, net) && Run(c, net, steps)
    ensures Agrees(c, net, s)
    decreases |steps|, 1
  {
    if steps == [] then Start(c, net) else
      var past, step := steps[..|steps| - 1], steps[|steps| - 1];
      StepAgrees(c, net, End(c, net, past), step);
      After(c, net, End(c, net, past), step)
  }

  function Counts(steps: seq<ManyStep>): seq<Step> {
    if steps == [] then [] else Counts(steps[..|steps| - 1]) + [Count(steps[|steps| - 1])]
  }

  /** The totals of any number of dispatchers go through a run of feasible steps, so what FlowControl proves of those
      runs holds here. */
  lemma {:induction false} RunRefines(c: Config, net: Net, steps: seq<ManyStep>)
    requires GoodConfig(c) && GoodNet(c, net) && Run(c, net, steps)
    ensures Loose(c, Initial(c), Counts(steps)) && Exec(c, Initial(c), Counts(steps)) == End(c, net, steps).flow
  {
    if steps != [] {
      var past := steps[..|steps| - 1];
      RunRefines(c, net, past);
      StepRefines(c, net, End(c, net, past), steps[|steps| - 1]);
      assert Counts(steps)[..|Counts(steps)| - 1] == Counts(past);
    }
  }

  // Standing still

  /** Losing packets is not progress, nor is a burst that takes nothing. */
  predicate Advances(step: ManyStep) { Moves(Count(step)) }

  ghost predicate Moving(c: Config, net: Net, s: Many)
    requires GoodConfig(c) && Agrees(c, net, s)
  {
    exists step :: Can(c, net, s, step) && Advances(step)
  }

  /** Every stage of one direction holds less than it waits for. */
  predicate SideBelow(st: Stage, p: Path, x: Side, handled: nat)
    requires |x.disp| == |x.flushing| && |x.wire| == |x.wait|
  {
    && (forall w :: 0 <= w < |p.tx| ==> p.tx[w] < st.collect)
    && (forall d :: 0 <= d < |x.disp| ==> !Busy(x, d) && x.disp[d] < st.flush)
    && (forall e :: 0 <= e < |x.wire| ==> x.wire[e] == 0 && x.wait[e] == 0)
    && (forall w :: 0 <= w < |p.rx| ==> p.rx[w] < handled)
  }

  predicate AllWait(c: Config, net: Net, s: Many)
    requires GoodConfig(c) && Agrees(c, net, s)
  {
    && (forall w :: 0 <= w < c.clients ==> s.flow.held[w] == 0 && s.flow.budget[w] < c.batch)
    && SideBelow(c.req, s.flow.req, s.req, c.a * c.serverBatch) && SideBelow(c.resp, s.flow.resp, s.resp, c.b * c.clientBatch)
  }

  lemma SideStands(st: Stage, p: Path, x: Side, from: seq<nat>, to: seq<nat>, handled: nat)
    requires SideAgrees(x, p, |x.disp|, |x.wait|) && GoodHomes(from, |p.tx|, |x.disp|) && GoodHomes(to, |p.rx|, |x.wait|)
    requires 1 <= st.collect && 1 <= st.flush <= st.ring && |p.rx| >= 1
    requires forall h :: CanHop(st, p, x, from, to, h) ==> Idle(Sum(h))
    requires forall w :: 0 <= w < |p.rx| ==> p.rx[w] < handled
    ensures SideBelow(st, p, x, handled)
  {
    forall d | 0 <= d < |x.disp| ensures !Busy(x, d) && x.disp[d] < st.flush {
      assert to[0] < |x.wire|;
      assert !CanHop(st, p, x, from, to, Burst(d, 0, 1));
    }
    forall w | 0 <= w < |p.tx| ensures p.tx[w] < st.collect {
      assert !CanHop(st, p, x, from, to, Gather(w, 1));
    }
    forall e | 0 <= e < |x.wire| ensures x.wire[e] == 0 && x.wait[e] == 0 {
      assert !CanHop(st, p, x, from, to, Arrive(e, 1));
      assert e in to;
      var w :| 0 <= w < |to| && to[w] == e;
      assert !CanHop(st, p, x, from, to, HandOut(w, 1));
    }
  }

  lemma WorkersStand(c: Config, net: Net, s: Many)
    requires GoodConfig(c) && Agrees(c, net, s) && !Moving(c, net, s)
    ensures forall w :: 0 <= w < c.clients ==>
              s.flow.held[w] == 0 && s.flow.budget[w] < c.batch && s.flow.resp.rx[w] < c.b * c.clientBatch
    ensures forall w :: 0 <= w < c.servers ==> s.flow.req.rx[w] < c.a * c.serverBatch
  {
    forall w | 0 <= w < c.clients
      ensures s.flow.held[w] == 0 && s.flow.budget[w] < c.batch && s.flow.resp.rx[w] < c.b * c.clientBatch
    {
      WholeMessages(s.flow.resp.rx[w], c.b, c.clientBatch);
      assert Advances(Work(Generate(w))) && Advances(Work(Apply(w))) && Advances(Work(Finish(w, c.clientBatch)));
      assert !Can(c, net, s, Work(Generate(w))) && !Can(c, net, s, Work(Apply(w)))
          && !Can(c, net, s, Work(Finish(w, c.clientBatch)));
    }
    forall w | 0 <= w < c.servers ensures s.flow.req.rx[w] < c.a * c.serverBatch {
      WholeMessages(s.flow.req.rx[w], c.a, c.serverBatch);
      assert Advances(Work(Serve(w, c.serverBatch)));
      assert !Can(c, net, s, Work(Serve(w, c.serverBatch)));
    }
  }

  lemma WaitingStands(c: Config, net: Net, s: Many, step: ManyStep)
    requires GoodConfig(c) && Agrees(c, net, s) && AllWait(c, net, s) && Advances(step)
    ensures !Can(c, net, s, step)
  {
    if step.Work? && step.step.Serve? && step.step.w < c.servers {
      WholeMessages(s.flow.req.rx[step.step.w], c.a, step.step.n);
      if step.step.n >= c.serverBatch { ProductMonotone(c.a, c.serverBatch, step.step.n); }
    }
    if step.Work? && step.step.Finish? && step.step.w < c.clients {
      WholeMessages(s.flow.resp.rx[step.step.w], c.b, step.step.n);
      if step.step.n >= c.clientBatch { ProductMonotone(c.b, c.clientBatch, step.step.n); }
    }
  }

  lemma HopsStand(c: Config, net: Net, s: Many)
    requires GoodConfig(c) && Agrees(c, net, s) && !Moving(c, net, s)
    ensures forall h :: CanHop(c.req, s.flow.req, s.req, net.client, net.server, h) ==> Idle(Sum(h))
    ensures forall h :: CanHop(c.resp, s.flow.resp, s.resp, net.server, net.client, h) ==> Idle(Sum(h))
  {
    forall h | CanHop(c.req, s.flow.req, s.req, net.client, net.server, h) ensures Idle(Sum(h)) {
      assert Can(c, net, s, Ask(h));
      assert !Advances(Ask(h));
    }
    forall h | CanHop(c.resp, s.flow.resp, s.resp, net.server, net.client, h) ensures Idle(Sum(h)) {
      assert Can(c, net, s, Answer(h));
      assert !Advances(Answer(h));
    }
  }

  /** The loop stands still exactly when every worker and every dispatcher is below its threshold and no packet is on
      a link or waiting for dispatch. */
  lemma StandsIffAllWait(c: Config, net: Net, s: Many)
    requires GoodConfig(c) && Agrees(c, net, s) && c.req.flush <= c.req.ring && c.resp.flush <= c.resp.ring
    ensures !Moving(c, net, s) <==> AllWait(c, net, s)
  {
    if AllWait(c, net, s) {
      forall step | Advances(step) ensures !Can(c, net, s, step) { WaitingStands(c, net, s, step); }
    } else if !Moving(c, net, s) {
      WorkersStand(c, net, s);
      HopsStand(c, net, s);
      SideStands(c.req, s.flow.req, s.req, net.client, net.server, c.a * c.serverBatch);
      SideStands(c.resp, s.flow.resp, s.resp, net.server, net.client, c.b * c.clientBatch);
    }
  }

  /** The most packets that one direction can hold with every stage below its threshold. */
  function SideSlack(st: Stage, senders: nat, dispatchers: nat, receivers: nat, handled: nat): int {
    senders * (st.collect - 1) + dispatchers * (st.flush - 1) + receivers * (handled - 1)
  }

  function NetSlack(c: Config, net: Net): int {
    Worth(c.a, c.b, c.clients * (c.batch - 1),
          SideSlack(c.req, c.clients, net.clients, c.servers, c.a * c.serverBatch),
          SideSlack(c.resp, c.servers, net.servers, c.clients, c.b * c.clientBatch))
  }

  lemma SideHoldsLittle(st: Stage, p: Path, x: Side, handled: nat)
    requires SideAgrees(x, p, |x.disp|, |x.wait|) && SideBelow(st, p, x, handled)
    requires st.collect >= 1 && st.flush >= 1 && handled >= 1
    ensures InFlight(p) <= SideSlack(st, |p.tx|, |x.disp|, |p.rx|, handled)
  {
    TotalBound(p.tx, st.collect - 1);
    TotalBound(x.disp, st.flush - 1);
    TotalBound(x.wire, 0);
    TotalBound(x.wait, 0);
    TotalBound(p.rx, handled - 1);
  }

  lemma WaitingHoldsLittle(c: Config, net: Net, s: Many)
    requires GoodConfig(c) && Agrees(c, net, s) && AllWait(c, net, s)
    ensures Worth(c.a, c.b, Messages(s.flow), InFlight(s.flow.req), InFlight(s.flow.resp)) <= NetSlack(c, net)
  {
    ProductMonotone(c.a, 1, c.serverBatch);
    ProductMonotone(c.b, 1, c.clientBatch);
    SideHoldsLittle(c.req, s.flow.req, s.req, c.a * c.serverBatch);
    SideHoldsLittle(c.resp, s.flow.resp, s.resp, c.b * c.clientBatch);
    TotalBound(s.flow.budget, c.batch - 1);
    TotalBound(s.flow.held, 0);
    WorthMonotone(c.a, c.b, Messages(s.flow), InFlight(s.flow.req), InFlight(s.flow.resp), c.clients * (c.batch - 1),
                  SideSlack(c.req, c.clients, net.clients, c.servers, c.a * c.serverBatch),
                  SideSlack(c.resp, c.servers, net.servers, c.clients, c.b * c.clientBatch));
  }

  /** Deadlock freedom with links that always deliver, for any groups: with a budget worth more than what the
      thresholds of all workers and dispatchers can hide, no run that has lost nothing comes to a stop. */
  lemma NeverDeadlocks(c: Config, net: Net, steps: seq<ManyStep>)
    requires GoodConfig(c) && GoodNet(c, net) && c.req.flush <= c.req.ring && c.resp.flush <= c.resp.ring
    requires c.a * c.b * AllMessages(c) > NetSlack(c, net)
    requires Run(c, net, steps)
    requires var s := End(c, net, steps).flow; s.req.lost == s.req.dropped == s.resp.lost == s.resp.dropped == 0
    ensures Moving(c, net, End(c, net, steps))
  {
    var s := End(c, net, steps);
    StandsIffAllWait(c, net, s);
    if AllWait(c, net, s) {
      WaitingHoldsLittle(c, net, s);
      RunRefines(c, net, steps);
      RunConserves(c, Counts(steps));
    }
  }
}
