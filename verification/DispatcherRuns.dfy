/** What each dispatcher may do, and what it holds, told from the steps before. */
module DispatcherRuns {
  // `nic_tx` flushes once enough packets are collected, and `tx_flush` goes on until the array is empty
  // (`src/workspace.h:258-290`). The loops keep a flag for a flush under way; here the flag is out of sight.

  import opened FlowControl
  import D = Dispatchers

  // One dispatcher on each side

  function PathOf(s: State, reply: bool): Path { if reply then s.resp else s.req }

  function StageOf(c: Config, reply: bool): Stage { if reply then c.resp else c.req }

  function On(reply: bool, m: Motion): Step { if reply then Response(m) else Request(m) }

  predicate IsBurst(step: Step, reply: bool) {
    if reply then step.Response? && step.m.Flush? else step.Request? && step.m.Flush?
  }

  /** There was a burst since the array was last empty. */
  predicate Begun(c: Config, steps: seq<Step>, reply: bool)
    requires GoodConfig(c) && Runs(c, Initial(c), steps)
  {
    && PathOf(Exec(c, Initial(c), steps), reply).disp > 0 && steps != []
    && (IsBurst(steps[|steps| - 1], reply) || Begun(c, steps[..|steps| - 1], reply))
  }

  lemma {:induction false} FlagIsHistory(c: Config, steps: seq<Step>, reply: bool)
    requires GoodConfig(c) && Runs(c, Initial(c), steps)
    ensures PathOf(Exec(c, Initial(c), steps), reply).flushing <==> Begun(c, steps, reply)
  {
    if steps != [] {
      var past, step := steps[..|steps| - 1], steps[|steps| - 1];
      FlagIsHistory(c, past, reply);
      OneStep(c, Exec(c, Initial(c), past), step, reply);
    }
  }

  lemma OneStep(c: Config, s: State, step: Step, reply: bool)
    requires GoodConfig(c) && Shape(c, s) && Enabled(c, s, step)
    requires PathOf(s, reply).flushing ==> PathOf(s, reply).disp > 0
    ensures var p, q := PathOf(s, reply), PathOf(Do(c, s, step), reply);
            if IsBurst(step, reply) then q.flushing <==> q.disp > 0
            else q.flushing == p.flushing && (q.flushing ==> q.disp > 0)
  {
  }

  /** Over every run: the array is flushed exactly when it holds enough packets or a burst since it was last empty has
      left some, and packets are collected into it exactly while there was no such burst, from a queue that holds
      enough, as many as there is room for. */
  lemma FlushOrCollect(c: Config, steps: seq<Step>, reply: bool, w: nat, n: nat)
    requires GoodConfig(c) && Runs(c, Initial(c), steps)
    ensures var s := Exec(c, Initial(c), steps);
            var st, p := StageOf(c, reply), PathOf(s, reply);
            && (Enabled(c, s, On(reply, Flush(n))) <==>
                n <= p.disp && p.disp >= 1 && (p.disp >= st.flush || Begun(c, steps, reply)))
            && (Enabled(c, s, On(reply, Collect(w, n))) <==>
                && w < |p.tx| && st.collect <= p.tx[w] && 1 <= n <= p.tx[w] && p.disp + n <= st.ring
                && !Begun(c, steps, reply))
  {
    FlagIsHistory(c, steps, reply);
  }

  // Several dispatchers

  function SideOf(s: D.Many, reply: bool): D.Side { if reply then s.resp else s.req }

  function HomesOf(net: D.Net, reply: bool): seq<nat> { if reply then net.server else net.client }

  function Hops(reply: bool, h: D.Hop): D.ManyStep { if reply then D.Answer(h) else D.Ask(h) }

  predicate IsBurstOf(step: D.ManyStep, reply: bool, d: nat) {
    if reply then step.Answer? && step.h.Burst? && step.h.d == d else step.Ask? && step.h.Burst? && step.h.d == d
  }

  /** Dispatcher d had a burst since its array was last empty. */
  predicate BegunBy(c: Config, net: D.Net, steps: seq<D.ManyStep>, reply: bool, d: nat)
    requires GoodConfig(c) && D.GoodNet(c, net) && D.Run(c, net, steps)
    requires d < |SideOf(D.End(c, net, steps), reply).disp|
  {
    && SideOf(D.End(c, net, steps), reply).disp[d] > 0 && steps != []
    && (IsBurstOf(steps[|steps| - 1], reply, d) || BegunBy(c, net, steps[..|steps| - 1], reply, d))
  }

  lemma {:induction false} FlagsAreHistory(c: Config, net: D.Net, steps: seq<D.ManyStep>, reply: bool, d: nat)
    requires GoodConfig(c) && D.GoodNet(c, net) && D.Run(c, net, steps)
    requires d < |SideOf(D.End(c, net, steps), reply).disp|
    ensures SideOf(D.End(c, net, steps), reply).flushing[d] <==> BegunBy(c, net, steps, reply, d)
  {
    if steps != [] {
      var past, step := steps[..|steps| - 1], steps[|steps| - 1];
      FlagsAreHistory(c, net, past, reply, d);
      D.StepAgrees(c, net, D.End(c, net, past), step);
      OneHop(c, net, D.End(c, net, past), step, reply, d);
    }
  }

  lemma OneHop(c: Config, net: D.Net, s: D.Many, step: D.ManyStep, reply: bool, d: nat)
    requires GoodConfig(c) && D.Agrees(c, net, s) && D.Can(c, net, s, step) && d < |SideOf(s, reply).disp|
    requires SideOf(s, reply).flushing[d] ==> SideOf(s, reply).disp[d] > 0
    ensures var x, y := SideOf(s, reply), SideOf(D.After(c, net, s, step), reply);
            && d < |y.disp| == |y.flushing|
            && if IsBurstOf(step, reply, d) then y.flushing[d] <==> y.disp[d] > 0
               else y.flushing[d] == x.flushing[d] && (y.flushing[d] ==> y.disp[d] > 0)
  {
  }

  /** The same with several dispatchers, for each of them by itself. */
  lemma EachFlushesOrCollects(c: Config, net: D.Net, steps: seq<D.ManyStep>, reply: bool, d: nat, w: nat, e: nat, n: nat)
    requires GoodConfig(c) && D.GoodNet(c, net) && D.Run(c, net, steps) && w < |HomesOf(net, reply)|
    requires d < |SideOf(D.End(c, net, steps), reply).disp| && HomesOf(net, reply)[w] == d
    ensures var s := D.End(c, net, steps);
            var st, x, tx := StageOf(c, reply), SideOf(s, reply), PathOf(s.flow, reply).tx;
            && (D.Can(c, net, s, Hops(reply, D.Burst(d, e, n))) <==>
                && e < |x.wire| && n <= x.disp[d] && x.disp[d] >= 1
                && (x.disp[d] >= st.flush || BegunBy(c, net, steps, reply, d)))
            && (D.Can(c, net, s, Hops(reply, D.Gather(w, n))) <==>
                && st.collect <= tx[w] && 1 <= n <= tx[w] && x.disp[d] + n <= st.ring
                && !BegunBy(c, net, steps, reply, d))
  {
    FlagsAreHistory(c, net, steps, reply, d);
  }

  // Packets in and out

  /** The sum of f over the steps. */
  function Tally(steps: seq<D.ManyStep>, f: D.ManyStep -> nat): nat {
    if steps == [] then 0 else Tally(steps[..|steps| - 1], f) + f(steps[|steps| - 1])
  }

  predicate IsHop(step: D.ManyStep, reply: bool) { if reply then step.Answer? else step.Ask? }

  predicate At(homes: seq<nat>, w: nat, d: nat) { w < |homes| && homes[w] == d }

  /** Packets collected by d, and sent by it. */
  function GatheredBy(net: D.Net, reply: bool, d: nat): D.ManyStep -> nat {
    (step: D.ManyStep) =>
      if IsHop(step, reply) && step.h.Gather? && At(HomesOf(net, reply), step.h.w, d) then step.h.n else 0
  }

  function SentBy(reply: bool, d: nat): D.ManyStep -> nat {
    (step: D.ManyStep) => if IsHop(step, reply) && step.h.Burst? && step.h.d == d then step.h.n else 0
  }

  /** Packets sent to e, lost on the way, received, and handed to its workers. */
  function SentTo(reply: bool, e: nat): D.ManyStep -> nat {
    (step: D.ManyStep) => if IsHop(step, reply) && step.h.Burst? && step.h.e == e then step.h.n else 0
  }

  function LostTo(reply: bool, e: nat): D.ManyStep -> nat {
    (step: D.ManyStep) => if IsHop(step, reply) && step.h.Vanish? && step.h.e == e then step.h.n else 0
  }

  function ReceivedBy(reply: bool, e: nat): D.ManyStep -> nat {
    (step: D.ManyStep) => if IsHop(step, reply) && step.h.Arrive? && step.h.e == e then step.h.n else 0
  }

  function HandedOutBy(net: D.Net, reply: bool, e: nat): D.ManyStep -> nat {
    (step: D.ManyStep) =>
      if IsHop(step, reply) && step.h.HandOut? && At(HomesOf(net, !reply), step.h.w, e) then step.h.n else 0
  }

  lemma SideAccounts(st: Stage, p: Path, x: D.Side, from: seq<nat>, to: seq<nat>, h: D.Hop, d: nat, e: nat)
    requires D.GoodHomes(from, |p.tx|, |x.disp|) && D.GoodHomes(to, |p.rx|, |x.wait|) && |x.disp| == |x.flushing|
    requires |x.wire| == |x.wait| && D.CanHop(st, p, x, from, to, h) && d < |x.disp| && e < |x.wire|
    ensures var y := D.HopOn(st, p, x, from, to, h);
            && |y.disp| == |x.disp| && |y.wire| == |x.wire| == |x.wait| == |y.wait|
            && y.disp[d] + (if h.Burst? && h.d == d then h.n else 0)
               == x.disp[d] + (if h.Gather? && At(from, h.w, d) then h.n else 0)
            && y.wire[e] + (if h.Vanish? && h.e == e then h.n else 0) + (if h.Arrive? && h.e == e then h.n else 0)
               == x.wire[e] + (if h.Burst? && h.e == e then h.n else 0)
            && y.wait[e] + (if h.HandOut? && At(to, h.w, e) then h.n else 0)
               == x.wait[e] + (if h.Arrive? && h.e == e then h.n else 0)
  {
  }

  lemma HopAccounts(c: Config, net: D.Net, s: D.Many, step: D.ManyStep, reply: bool, d: nat, e: nat)
    requires GoodConfig(c) && D.Agrees(c, net, s) && D.Can(c, net, s, step)
    requires d < |SideOf(s, reply).disp| && e < |SideOf(s, reply).wire|
    ensures var x, y := SideOf(s, reply), SideOf(D.After(c, net, s, step), reply);
            && |y.disp| == |x.disp| && |y.wire| == |x.wire| == |x.wait| == |y.wait|
            && y.disp[d] + SentBy(reply, d)(step) == x.disp[d] + GatheredBy(net, reply, d)(step)
            && y.wire[e] + LostTo(reply, e)(step) + ReceivedBy(reply, e)(step) == x.wire[e] + SentTo(reply, e)(step)
            && y.wait[e] + HandedOutBy(net, reply, e)(step) == x.wait[e] + ReceivedBy(reply, e)(step)
  {
    if step.Ask? && !reply { SideAccounts(c.req, s.flow.req, s.req, net.client, net.server, step.h, d, e); }
    if step.Answer? && reply { SideAccounts(c.resp, s.flow.resp, s.resp, net.server, net.client, step.h, d, e); }
  }

  /** Over every run, on both sides: what a dispatcher collected from its own workers it has sent or still holds; what
      was sent to a dispatcher it has received, or it was lost, or it is on the way; and what it received it has
      handed to its own workers or still has waiting. */
  lemma {:induction false} EachConserves(c: Config, net: D.Net, steps: seq<D.ManyStep>, reply: bool, d: nat, e: nat)
    requires GoodConfig(c) && D.GoodNet(c, net) && D.Run(c, net, steps)
    requires d < |SideOf(D.End(c, net, steps), reply).disp| && e < |SideOf(D.End(c, net, steps), reply).wire|
    ensures var x := SideOf(D.End(c, net, steps), reply);
            && |x.wait| == |x.wire|
            && Tally(steps, GatheredBy(net, reply, d)) == Tally(steps, SentBy(reply, d)) + x.disp[d]
            && Tally(steps, SentTo(reply, e)) == Tally(steps, ReceivedBy(reply, e)) + Tally(steps, LostTo(reply, e)) + x.wire[e]
            && Tally(steps, ReceivedBy(reply, e)) == Tally(steps, HandedOutBy(net, reply, e)) + x.wait[e]
  {
    if steps != [] {
      var past, step := steps[..|steps| - 1], steps[|steps| - 1];
      D.StepAgrees(c, net, D.End(c, net, past), step);
      EachConserves(c, net, past, reply, d, e);
      HopAccounts(c, net, D.End(c, net, past), step, reply, d, e);
    }
  }
}
