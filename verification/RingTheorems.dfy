/** When the closed loop over RoCE keeps moving. */
module RingTheorems {
  import opened MathUtils
  import opened FlowControl
  import opened FlowTheorems
  import opened RingFlow
  import opened RingOrder
  import opened RingInvariant

  /** The completions that the next poll is sure to see. */
  function Due(wire: nat, posted: nat, lag: nat): nat {
    if posted <= wire + lag then 0 else posted - wire - lag
  }

  predicate BurstAdvances(p: Path, posted: nat, polled: nat, send: nat, lag: nat) {
    polled == Due(p.wire, posted, lag) <= posted && polled + BurstSize(p.disp, posted - polled, send) >= 1
  }

  /** Losing packets or buffers is not progress, nor is a burst that can be sure neither of a completion nor of room. */
  predicate Advances(g: Rings, s: Loop, act: Action) {
    match act
    case Plain(step) => Moves(step)
    case BurstRequests(k) => BurstAdvances(s.flow.req, s.posted, k, g.clientSend, g.lag)
    case BurstReplies(k) => BurstAdvances(s.flow.resp, |s.sent|, k, g.serverSend, g.lag)
    case _ => act.RepostServer? || act.RepostClient?
  }

  ghost predicate CanAdvance(c: Config, g: Rings, s: Loop)
    requires GoodLoop(c) && Agrees(c, s)
  {
    exists act :: Can(c, g, s, act) && Advances(g, s, act)
  }

  // Standing still

  /** A flush is under way or due. */
  predicate MustFlush(st: Stage, p: Path) { Flushing(p) || p.disp >= st.flush }

  /** The sending side: nothing to collect or no room for it, and nothing to flush or a full send ring none of whose
      packets is surely completed. */
  predicate SenderStuck(st: Stage, p: Path, posted: nat, send: nat, lag: nat) {
    && (Flushing(p) || p.disp >= st.ring || forall w :: 0 <= w < |p.tx| ==> p.tx[w] < st.collect)
    && (MustFlush(st, p) ==> send <= posted <= p.wire + lag)
  }

  /** The receiving side: nothing on the link or no buffer posted; and the dispatcher, unless it is flushing, has
      nothing to deal out and finds the next buffer to repost held. */
  predicate ReceiverStuck(r: Ring, p: Path, depth: nat, busy: bool, held: bool) {
    && (p.wire == 0 || r.delivered >= r.reposted + depth)
    && (busy || (p.wait == 0 && (r.reposted >= r.dispatched || held)))
  }

  predicate ClientsStuck(c: Config, g: Rings, s: State)
    requires Shape(c, s)
  {
    || (g.clientShared && Flushing(s.req))
    || forall w :: 0 <= w < c.clients ==> s.held[w] == 0 && s.budget[w] < c.batch && s.resp.rx[w] < c.b * c.clientBatch
  }

  predicate ServersStuck(c: Config, g: Rings, s: State)
    requires Shape(c, s)
  {
    (g.serverShared && Flushing(s.resp)) || forall w :: 0 <= w < c.servers ==> s.req.rx[w] < c.a * c.serverBatch
  }

  predicate Stuck(c: Config, g: Rings, s: Loop)
    requires Agrees(c, s)
  {
    && ClientsStuck(c, g, s.flow) && ServersStuck(c, g, s.flow)
    && SenderStuck(c.req, s.flow.req, s.posted, g.clientSend, g.lag)
    && SenderStuck(c.resp, s.flow.resp, |s.sent|, g.serverSend, g.lag)
    && ReceiverStuck(s.server, s.flow.req, g.serverDepth, Flushing(s.flow.resp), Held(s, s.server.reposted))
    && ReceiverStuck(s.client, s.flow.resp, g.clientDepth, Flushing(s.flow.req), ClientHeld(s, s.client.reposted))
  }

  lemma SenderMoves(st: Stage, p: Path, posted: nat, send: nat, lag: nat)
    requires st.collect >= 1 && st.flush >= 1 && p.wire <= posted
    requires !SenderStuck(st, p, posted, send, lag)
    ensures || (exists w :: 0 <= w < |p.tx| && CanMove(st, p, Collect(w, 1)))
            || (CanBurst(st, p, posted, Due(p.wire, posted, lag), send, lag)
                && BurstAdvances(p, posted, Due(p.wire, posted, lag), send, lag))
  {
    if !(Flushing(p) || p.disp >= st.ring || forall w :: 0 <= w < |p.tx| ==> p.tx[w] < st.collect) {
      var w :| 0 <= w < |p.tx| && p.tx[w] >= st.collect;
      assert CanMove(st, p, Collect(w, 1));
    }
  }

  lemma ReceiverMoves(st: Stage, r: Ring, p: Path, depth: nat, busy: bool, held: bool)
    requires |r.rx| > 0 && RingAgrees(r, p) && !ReceiverStuck(r, p, depth, busy, held)
    ensures || (CanMove(st, p, Deliver(1)) && Receives(r, depth, busy, Deliver(1)))
            || (var m := Dispatch(r.dispatched % |r.rx|, 1); CanMove(st, p, m) && Receives(r, depth, busy, m))
            || (!busy && r.reposted < r.dispatched && !held)
  {
  }

  lemma ClientMoves(c: Config, g: Rings, s: Loop)
    requires GoodLoop(c) && Agrees(c, s) && !ClientsStuck(c, g, s.flow)
    ensures CanAdvance(c, g, s)
  {
    var flow := s.flow;
    var w :| 0 <= w < c.clients
             && (flow.held[w] > 0 || flow.budget[w] >= c.batch || flow.resp.rx[w] >= c.b * c.clientBatch);
    WholeMessages(flow.resp.rx[w], c.b, c.clientBatch);
    var step := if flow.held[w] > 0 then Generate(w) else if flow.budget[w] >= c.batch then Apply(w)
                else Finish(w, c.clientBatch);
    assert Can(c, g, s, Plain(step)) && Advances(g, s, Plain(step));
  }

  lemma ServerMoves(c: Config, g: Rings, s: Loop)
    requires GoodLoop(c) && Agrees(c, s) && !ServersStuck(c, g, s.flow)
    ensures CanAdvance(c, g, s)
  {
    var w :| 0 <= w < c.servers && s.flow.req.rx[w] >= c.a * c.serverBatch;
    WholeMessages(s.flow.req.rx[w], c.a, c.serverBatch);
    assert Can(c, g, s, Plain(Serve(w, c.serverBatch))) && Advances(g, s, Plain(Serve(w, c.serverBatch)));
  }

  lemma RequestsMove(c: Config, g: Rings, s: Loop)
    requires GoodLoop(c) && Agrees(c, s)
    requires || !SenderStuck(c.req, s.flow.req, s.posted, g.clientSend, g.lag)
             || !ReceiverStuck(s.server, s.flow.req, g.serverDepth, Flushing(s.flow.resp), Held(s, s.server.reposted))
    ensures CanAdvance(c, g, s)
  {
    var p, busy := s.flow.req, Flushing(s.flow.resp);
    var k, turn := Due(p.wire, s.posted, g.lag), Dispatch(s.server.dispatched % |s.server.rx|, 1);
    if !SenderStuck(c.req, p, s.posted, g.clientSend, g.lag) {
      SenderMoves(c.req, p, s.posted, g.clientSend, g.lag);
      if w :| 0 <= w < |p.tx| && CanMove(c.req, p, Collect(w, 1)) {
        assert Can(c, g, s, Plain(Request(Collect(w, 1)))) && Advances(g, s, Plain(Request(Collect(w, 1))));
      } else {
        assert Can(c, g, s, BurstRequests(k)) && Advances(g, s, BurstRequests(k));
      }
    } else {
      ReceiverMoves(c.req, s.server, p, g.serverDepth, busy, Held(s, s.server.reposted));
      if !busy && s.server.reposted < s.server.dispatched && !Held(s, s.server.reposted) {
        assert Can(c, g, s, RepostServer) && Advances(g, s, RepostServer);
      } else if CanMove(c.req, p, Deliver(1)) && Receives(s.server, g.serverDepth, busy, Deliver(1)) {
        assert Can(c, g, s, Plain(Request(Deliver(1)))) && Advances(g, s, Plain(Request(Deliver(1))));
      } else {
        assert Can(c, g, s, Plain(Request(turn))) && Advances(g, s, Plain(Request(turn)));
      }
    }
  }

  lemma RepliesMove(c: Config, g: Rings, s: Loop)
    requires GoodLoop(c) && Agrees(c, s)
    requires || !SenderStuck(c.resp, s.flow.resp, |s.sent|, g.serverSend, g.lag)
             || !ReceiverStuck(s.client, s.flow.resp, g.clientDepth, Flushing(s.flow.req),
                               ClientHeld(s, s.client.reposted))
    ensures CanAdvance(c, g, s)
  {
    var p, busy := s.flow.resp, Flushing(s.flow.req);
    var k, turn := Due(p.wire, |s.sent|, g.lag), Dispatch(s.client.dispatched % |s.client.rx|, 1);
    if !SenderStuck(c.resp, p, |s.sent|, g.serverSend, g.lag) {
      SenderMoves(c.resp, p, |s.sent|, g.serverSend, g.lag);
      if w :| 0 <= w < |p.tx| && CanMove(c.resp, p, Collect(w, 1)) {
        assert Can(c, g, s, Plain(Response(Collect(w, 1)))) && Advances(g, s, Plain(Response(Collect(w, 1))));
      } else {
        assert Can(c, g, s, BurstReplies(k)) && Advances(g, s, BurstReplies(k));
      }
    } else {
      ReceiverMoves(c.resp, s.client, p, g.clientDepth, busy, ClientHeld(s, s.client.reposted));
      if !busy && s.client.reposted < s.client.dispatched && !ClientHeld(s, s.client.reposted) {
        assert Can(c, g, s, RepostClient) && Advances(g, s, RepostClient);
      } else if CanMove(c.resp, p, Deliver(1)) && Receives(s.client, g.clientDepth, busy, Deliver(1)) {
        assert Can(c, g, s, Plain(Response(Deliver(1)))) && Advances(g, s, Plain(Response(Deliver(1))));
      } else {
        assert Can(c, g, s, Plain(Response(turn))) && Advances(g, s, Plain(Response(turn)));
      }
    }
  }

  lemma StuckStands(c: Config, g: Rings, s: Loop, act: Action)
    requires GoodLoop(c) && Agrees(c, s) && Stuck(c, g, s) && Advances(g, s, act)
    ensures !Can(c, g, s, act)
  {
    if act.Plain? {
      var step := act.step;
      if step.Serve? && step.w < c.servers {
        WholeMessages(s.flow.req.rx[step.w], c.a, step.n);
        if step.n >= c.serverBatch { ProductMonotone(c.a, c.serverBatch, step.n); }
      }
      if step.Finish? && step.w < c.clients {
        WholeMessages(s.flow.resp.rx[step.w], c.b, step.n);
        if step.n >= c.clientBatch { ProductMonotone(c.b, c.clientBatch, step.n); }
      }
    }
  }

  /** The loop stands still exactly when on both sides the workers are below their thresholds (or behind a flush of
      their own thread), the sender has nothing to collect and nothing to flush or no room in its send ring, and the
      receiver has nothing on the link or no buffer posted, nothing to deal out, and the next buffer to repost is held. */
  lemma StuckIff(c: Config, g: Rings, s: Loop)
    requires GoodLoop(c) && Agrees(c, s)
    ensures !CanAdvance(c, g, s) <==> Stuck(c, g, s)
  {
    if Stuck(c, g, s) {
      forall act | Advances(g, s, act) ensures !Can(c, g, s, act) { StuckStands(c, g, s, act); }
    } else if !ClientsStuck(c, g, s.flow) {
      ClientMoves(c, g, s);
    } else if !ServersStuck(c, g, s.flow) {
      ServerMoves(c, g, s);
    } else if !SenderStuck(c.req, s.flow.req, s.posted, g.clientSend, g.lag)
            || !ReceiverStuck(s.server, s.flow.req, g.serverDepth, Flushing(s.flow.resp), Held(s, s.server.reposted)) {
      RequestsMove(c, g, s);
    } else {
      RepliesMove(c, g, s);
    }
  }

  // What the budget bounds

  function AllRequests(c: Config): nat { c.a * AllMessages(c) }

  function AllReplies(c: Config): nat { c.b * AllMessages(c) }

  lemma BudgetBounds(c: Config, g: Rings, acts: seq<Action>)
    requires GoodLoop(c) && Run(c, g, acts)
    ensures var flow := End(c, g, acts).flow;
            && Accounted(flow.req) <= Accounted(flow.req) + c.a * Messages(flow) <= AllRequests(c)
            && Accounted(flow.resp) <= Accounted(flow.resp) + c.b * Messages(flow) <= AllReplies(c)
  {
    var flow := End(c, g, acts).flow;
    RunRefines(c, g, acts);
    RunConserves(c, CountRun(c, g, acts));
    WorthBoundsRequests(c.a, c.b, Messages(flow), Accounted(flow.req), Accounted(flow.resp), AllMessages(c));
    ProductMonotone(c.a, 0, Messages(flow));
    ProductMonotone(c.b, 0, Messages(flow));
  }

  /** What a send ring of this depth holds at most when all that can be under way is total packets. */
  predicate SendBounded(posted: nat, send: nat, total: nat, lag: nat) {
    posted <= send && posted <= total + lag
  }

  lemma BurstBounded(p: Path, posted: nat, polled: nat, send: nat, lag: nat, total: nat)
    requires CanPoll(p.wire, posted, polled, lag) && posted <= send && InFlight(p) <= total
    ensures SendBounded(posted - polled + BurstSize(p.disp, posted - polled, send), send, total, lag)
    ensures total + lag <= send ==> BurstSize(p.disp, posted - polled, send) == p.disp
  {
  }

  /** Neither send ring holds more than can be under way; if that always fits, every flush is over in one burst. */
  predicate SendInv(c: Config, g: Rings, s: Loop)
    requires GoodLoop(c)
  {
    && SendBounded(s.posted, g.clientSend, AllRequests(c), g.lag)
    && SendBounded(|s.sent|, g.serverSend, AllReplies(c), g.lag)
    && (AllRequests(c) + g.lag <= g.clientSend ==> !s.flow.req.flushing)
    && (AllReplies(c) + g.lag <= g.serverSend ==> !s.flow.resp.flushing)
  }

  lemma StepKeepsSend(c: Config, g: Rings, s: Loop, act: Action)
    requires GoodLoop(c) && Agrees(c, s) && SendInv(c, g, s) && Can(c, g, s, act)
    requires Accounted(s.flow.req) <= AllRequests(c) && Accounted(s.flow.resp) <= AllReplies(c)
    ensures SendInv(c, g, After(c, g, s, act))
  {
    match act
    case BurstRequests(k) => BurstBounded(s.flow.req, s.posted, k, g.clientSend, g.lag, AllRequests(c));
    case BurstReplies(k) => BurstBounded(s.flow.resp, |s.sent|, k, g.serverSend, g.lag, AllReplies(c));
    case _ =>
  }

  lemma {:induction false} RunKeepsSend(c: Config, g: Rings, acts: seq<Action>)
    requires GoodLoop(c) && Run(c, g, acts)
    ensures SendInv(c, g, End(c, g, acts))
    decreases |acts|
  {
    if acts != [] {
      RunKeepsSend(c, g, acts[..|acts| - 1]);
      BudgetBounds(c, g, acts[..|acts| - 1]);
      StepKeepsSend(c, g, End(c, g, acts[..|acts| - 1]), acts[|acts| - 1]);
    }
  }

  /** The buffers that the client has taken from its allocator, or is about to take. */
  function ClientBuffers(c: Config, s: Loop): nat {
    c.a * Total(s.flow.held) + Total(s.flow.req.tx) + s.flow.req.disp + s.posted
  }

  /** A pool of this many buffers beyond the receive ring never makes apply_mbufs wait, and every flush takes a
      single burst if the send rings hold what the budget stands for. */
  lemma PoolAndSendRingsSuffice(c: Config, g: Rings, acts: seq<Action>)
    requires GoodLoop(c) && Run(c, g, acts)
    ensures ClientBuffers(c, End(c, g, acts)) <= AllRequests(c) + g.clientSend
    ensures AllRequests(c) + g.lag <= g.clientSend ==> !End(c, g, acts).flow.req.flushing
    ensures AllReplies(c) + g.lag <= g.serverSend ==> !End(c, g, acts).flow.resp.flushing
  {
    var s := End(c, g, acts);
    BudgetBounds(c, g, acts);
    RunKeepsSend(c, g, acts);
    ProductMonotone(c.a, Total(s.flow.held), Messages(s.flow));
  }

  // A full ring is reposted

  /** The responses that can be between a worker and the server's next poll when the sender stands still. */
  function RepliesHeld(c: Config, g: Rings): int {
    (c.resp.collect - 1) + (c.resp.flush - 1) + AllReplies(c) + g.lag
  }

  /** The ring is deep enough: the workers' thresholds, and the responses still in their requests' buffers, leave a
      buffer to repost. */
  predicate ServerRingSuffices(c: Config, g: Rings)
    requires GoodLoop(c)
  {
    c.b * c.b * Share(g.serverDepth, c.servers) > c.a * c.b * (c.a * c.serverBatch - 1) + c.a * c.a * RepliesHeld(c, g)
  }

  predicate ClientRingSuffices(c: Config, g: Rings)
    requires GoodLoop(c)
  {
    Share(g.clientDepth, c.clients) >= c.b * c.clientBatch
  }

  /** The arithmetic of a reply that holds the ring up: packet num of its worker carries response nr, the worker has
      been given its share of packets since, all but rx of them are handled, and line responses are held from nr on. */
  lemma HeldUp(a: nat, b: nat, share: nat, nr: nat, num: nat, m: nat, rx: nat, line: nat, handled: nat, q: int)
    requires 1 <= b <= a && Early(a, b, share, nr, num)
    requires num + share <= a * m + rx && rx <= handled - 1 && b * m - nr <= line <= q
    ensures b * b * share <= a * b * (handled - 1) + a * a * q
  {
    assert a * a * (b * m - nr) <= a * a * q by { ProductMonotone(a * a, b * m - nr, q); }
    assert a * b * (num + share) <= a * b * (a * m + (handled - 1)) by {
      ProductMonotone(a * b, num + share, a * m + (handled - 1));
    }
    assert a * a * (b * m - nr) == a * b * (a * m) - a * a * nr by { SwapFactors(a, b, m, nr); }
    assert a * b * (a * m + (handled - 1)) == a * b * (a * m) + a * b * (handled - 1);
    assert a * b * (num + share) == a * b * num + a * b * share;
    EarlyBound(a, b, share);
  }

  lemma SwapFactors(a: nat, b: nat, m: nat, nr: nat)
    ensures a * a * (b * m - nr) == a * b * (a * m) - a * a * nr
  {
    assert a * a * (b * m) == a * b * (a * m);
  }

  lemma EarlyBound(a: nat, b: nat, share: nat)
    requires 1 <= b <= a
    ensures (a - b) * (b * share - a) <= a * b * share - b * b * share
  {
    assert (a - b) * (b * share - a) == a * b * share - b * b * share - a * (a - b);
  }

  /** A packet in a worker's queue holds the ring up only if the queue has the worker's whole share. */
  lemma QueueHoldsUp(r: Ring, per: nat, depth: nat)
    requires |r.rx| > 0 && RingDealt(r, per) && RingSpaced(r) && r.dispatched == r.reposted + depth
    requires Queued(r.rx, r.reposted)
    ensures exists w :: 0 <= w < |r.rx| && |r.rx[w]| >= Share(depth, |r.rx|)
  {
    var k, x := |r.rx|, r.reposted;
    var w :| 0 <= w < k && x in r.rx[w];
    var q, base := r.rx[w], per * r.handled[w];
    assert Spaced(q, w, k, x, r.dispatched) && Dealt(q, w, base, k, r.dispatched);
    LowestIsFirst(q, w, k, x, r.dispatched);
    GivenSince(r, per, depth, w, base);
  }

  lemma LowestIsFirst(q: seq<nat>, w: nat, k: nat, x: nat, end: nat)
    requires k > 0 && x in q && Spaced(q, w, k, x, end)
    ensures q != [] && q[0] == x
  {
    var i: nat :| i < |q| && q[i] == x;
    SpacedFrom(q, w, k, x, end, i);
    if i > 0 { MulMonotone(1, i, k); }
  }

  /** A reply in the line of its worker. */
  lemma ReplyHoldsUp(c: Config, g: Rings, s: Loop, rs: seq<Reply>, i: nat, j: nat)
    requires GoodLoop(c) && SafeInv(c, g, s) && OrderInv(c, g, s) && s.server.dispatched == s.server.reposted + g.serverDepth
    requires Sound(c, g, rs, s.server.reposted) && i < |rs| && rs[i].buf == s.server.reposted
    requires var line := Line(s, rs[i].buf % c.servers, c.servers); j < |line| && line[j] == rs[i]
    requires forall w :: 0 <= w < c.servers ==> s.flow.req.rx[w] < c.a * c.serverBatch
    requires forall w :: 0 <= w < c.servers ==> |Line(s, w, c.servers)| <= RepliesHeld(c, g)
    ensures !ServerRingSuffices(c, g)
  {
    var x, k := rs[i].buf, c.servers;
    var w, num := x % k, x / k;
    var line, end := Line(s, w, k), c.b * s.server.handled[w];
    assert Lined(line, end);
    assert x == Nth(w, num, k) by { assert x == num * k + w; }
    GivenSince(s.server, c.a, g.serverDepth, w, num);
    HeldUp(c.a, c.b, Share(g.serverDepth, k), rs[i].nr, num, s.server.handled[w], |s.server.rx[w]|, |line|,
           c.a * c.serverBatch, RepliesHeld(c, g));
  }

  lemma InLine(s: Loop, k: nat, x: nat) returns (rs: seq<Reply>, i: nat, j: nat)
    requires k >= 1 && |s.tx| == k && forall w :: 0 <= w < k ==> TurnOf(s.tx[w], w, k)
    requires Held(s, x) && !Queued(s.server.rx, x) && x !in s.server.late
    ensures rs == s.disp || rs == s.sent || rs in s.tx
    ensures i < |rs| && rs[i].buf == x && j < |Line(s, x % k, k)| && Line(s, x % k, k)[j] == rs[i]
  {
    if Carries(s.sent, x) || Carries(s.disp, x) {
      rs := if Carries(s.sent, x) then s.sent else s.disp;
      i :| i < |rs| && rs[i].buf == x;
      var at := if Carries(s.sent, x) then i else |s.sent| + i;
      assert (s.sent + s.disp)[at] == rs[i];
      j := OfHas(s.sent + s.disp, at, k);
    } else {
      var w :| 0 <= w < |s.tx| && Carries(s.tx[w], x);
      rs := s.tx[w];
      i :| i < |rs| && rs[i].buf == x;
      j := |Of(s.sent + s.disp, w, k)| + i;
    }
  }

  lemma ShareBeatsBatch(a: nat, b: nat, share: nat, handled: nat, q: int)
    requires 1 <= b <= a && handled >= 1 && q >= 0 && b * b * share > a * b * (handled - 1) + a * a * q
    ensures share >= handled
  {
    if share < handled {
      ProductMonotone(b * b, share, handled - 1);
      MulMonotone(b, a, b);
      MulMonotone(b * b, a * b, handled - 1);
      ProductMonotone(a * a, 0, q);
    }
  }

  lemma RepliesHeldBound(c: Config, g: Rings, s: Loop, w: nat)
    requires GoodLoop(c) && Agrees(c, s) && SendInv(c, g, s) && w < c.servers
    requires !MustFlush(c.resp, s.flow.resp) && s.flow.resp.tx[w] < c.resp.collect
    ensures |Line(s, w, c.servers)| <= RepliesHeld(c, g)
  {
  }

  /** While the server's workers are below their thresholds and its sender has nothing to do, its receive ring is
      never full with the next buffer held. */
  lemma ServerRingOpens(c: Config, g: Rings, s: Loop)
    requires GoodLoop(c) && SafeInv(c, g, s) && OrderInv(c, g, s) && SendInv(c, g, s) && ServerRingSuffices(c, g)
    requires forall w :: 0 <= w < c.servers ==> s.flow.req.rx[w] < c.a * c.serverBatch
    requires !MustFlush(c.resp, s.flow.resp) && forall w :: 0 <= w < c.servers ==> s.flow.resp.tx[w] < c.resp.collect
    requires s.server.dispatched == s.server.delivered == s.server.reposted + g.serverDepth && s.server.late == {}
    ensures s.server.reposted < s.server.dispatched && !Held(s, s.server.reposted)
  {
    var x := s.server.reposted;
    ProductMonotone(c.a, 1, c.serverBatch);
    ShareBeatsBatch(c.a, c.b, Share(g.serverDepth, c.servers), c.a * c.serverBatch, RepliesHeld(c, g));
    if Held(s, x) {
      forall w | 0 <= w < c.servers ensures |Line(s, w, c.servers)| <= RepliesHeld(c, g) {
        RepliesHeldBound(c, g, s, w);
      }
      if Queued(s.server.rx, x) {
        QueueHoldsUp(s.server, c.a, g.serverDepth);
      } else {
        var rs, i, j := InLine(s, c.servers, x);
        ReplyHoldsUp(c, g, s, rs, i, j);
      }
    }
  }

  lemma ClientRingOpens(c: Config, g: Rings, s: Loop)
    requires GoodLoop(c) && SafeInv(c, g, s) && OrderInv(c, g, s) && ClientRingSuffices(c, g)
    requires forall w :: 0 <= w < c.clients ==> s.flow.resp.rx[w] < c.b * c.clientBatch
    requires s.client.dispatched == s.client.delivered == s.client.reposted + g.clientDepth && s.client.late == {}
    ensures s.client.reposted < s.client.dispatched && !ClientHeld(s, s.client.reposted)
  {
    ProductMonotone(c.b, 1, c.clientBatch);
    if ClientHeld(s, s.client.reposted) {
      QueueHoldsUp(s.client, c.b, g.clientDepth);
    }
  }

  /** Everything the theorem asks of a configuration. */
  predicate Provisioned(c: Config, g: Rings)
    requires GoodLoop(c)
  {
    && c.req.flush <= c.req.ring && c.resp.flush <= c.resp.ring
    && c.a * c.b * AllMessages(c) > Slack(c)
    && AllRequests(c) + g.lag <= g.clientSend && AllReplies(c) + g.lag <= g.serverSend
    && ServerRingSuffices(c, g) && ClientRingSuffices(c, g)
  }

  /** With room in the send ring, a sender that stands still has less than its thresholds. */
  lemma SenderBelow(st: Stage, p: Path, posted: nat, send: nat, lag: nat, total: nat)
    requires st.flush <= st.ring && 1 <= st.flush && SenderStuck(st, p, posted, send, lag) && !p.flushing
    requires InFlight(p) <= total && total + lag <= send
    ensures p.disp < st.flush && forall w :: 0 <= w < |p.tx| ==> p.tx[w] < st.collect
  {
    assert p.wire + p.disp <= InFlight(p);
  }

  lemma RequestsBelow(c: Config, g: Rings, s: Loop)
    requires GoodLoop(c) && SafeInv(c, g, s) && OrderInv(c, g, s) && SendInv(c, g, s) && Provisioned(c, g)
    requires Stuck(c, g, s) && InFlight(s.flow.req) <= AllRequests(c) && InFlight(s.flow.resp) <= AllReplies(c)
    requires s.server.late == {}
    ensures PathBelow(c.req, s.flow.req, c.a * c.serverBatch)
  {
    SenderBelow(c.req, s.flow.req, s.posted, g.clientSend, g.lag, AllRequests(c));
    SenderBelow(c.resp, s.flow.resp, |s.sent|, g.serverSend, g.lag, AllReplies(c));
    if s.flow.req.wire > 0 { ServerRingOpens(c, g, s); }
  }

  lemma RepliesBelow(c: Config, g: Rings, s: Loop)
    requires GoodLoop(c) && SafeInv(c, g, s) && OrderInv(c, g, s) && SendInv(c, g, s) && Provisioned(c, g)
    requires Stuck(c, g, s) && InFlight(s.flow.resp) <= AllReplies(c) && s.client.late == {}
    ensures PathBelow(c.resp, s.flow.resp, c.b * c.clientBatch)
  {
    SenderBelow(c.resp, s.flow.resp, |s.sent|, g.serverSend, g.lag, AllReplies(c));
    if s.flow.resp.wire > 0 { ClientRingOpens(c, g, s); }
  }

  /** No packet was lost on the link or dropped at a full queue, no buffer by a late mark. */
  predicate NothingLost(s: Loop) {
    && s.flow.req.lost == s.flow.req.dropped == s.flow.resp.lost == s.flow.resp.dropped == 0
    && s.server.late == s.client.late == {}
  }

  lemma StandsOnlyBelow(c: Config, g: Rings, acts: seq<Action>)
    requires GoodLoop(c) && Provisioned(c, g) && Run(c, g, acts) && Stuck(c, g, End(c, g, acts))
    requires NothingLost(End(c, g, acts))
    ensures AllBelow(c, End(c, g, acts).flow)
  {
    RunKeepsSafe(c, g, acts);
    RunKeepsOrder(c, g, acts);
    RunKeepsSend(c, g, acts);
    BudgetBounds(c, g, acts);
    RequestsBelow(c, g, End(c, g, acts));
    RepliesBelow(c, g, End(c, g, acts));
  }

  lemma BelowHidesBudget(c: Config, g: Rings, acts: seq<Action>)
    requires GoodLoop(c) && Run(c, g, acts) && AllBelow(c, End(c, g, acts).flow)
    requires NothingLost(End(c, g, acts))
    ensures c.a * c.b * AllMessages(c) <= Slack(c)
  {
    RunRefines(c, g, acts);
    ThresholdsHideLittle(c, CountRun(c, g, acts));
  }

  /** Deadlock freedom: with a budget worth more than the thresholds can hide, send rings that hold what it stands
      for, and receive rings deep enough for the workers' shares, no run that has lost nothing comes to a stop. */
  lemma NeverDeadlocks(c: Config, g: Rings, acts: seq<Action>)
    requires GoodLoop(c) && Provisioned(c, g) && Run(c, g, acts)
    requires NothingLost(End(c, g, acts))
    ensures CanAdvance(c, g, End(c, g, acts))
  {
    var s := End(c, g, acts);
    StuckIff(c, g, s);
    if Stuck(c, g, s) {
      StandsOnlyBelow(c, g, acts);
      BelowHidesBudget(c, g, acts);
    }
  }

  /** One client worker, one server worker and one-packet messages, rings of one depth: the budget exceeds the
      client's batch by the sum of (threshold - 1) over the batching points, and the ring holds the budget, the
      server's batch and the responses waiting to be flushed. */
  lemma SingleFlowNeverDeadlocks(c: Config, g: Rings, depth: nat, acts: seq<Action>)
    requires GoodConfig(c) && c.clients == c.servers == c.a == c.b == 1
    requires c.req.flush <= c.req.ring && c.resp.flush <= c.resp.ring
    requires c.budget - c.batch >= (c.req.collect - 1) + (c.req.flush - 1) + (c.serverBatch - 1)
                                 + (c.resp.collect - 1) + (c.resp.flush - 1) + (c.clientBatch - 1)
    requires g.serverDepth == g.clientDepth == g.serverSend == g.clientSend == depth
    requires depth > c.budget + g.lag + (c.serverBatch - 1) + (c.resp.collect - 1) + (c.resp.flush - 1)
    requires Run(c, g, acts)
    requires NothingLost(End(c, g, acts))
    ensures CanAdvance(c, g, End(c, g, acts))
  {
    NeverDeadlocks(c, g, acts);
  }

  /** With rings of one depth, as in the source, the receive ring's condition covers the send rings. */
  lemma OneDepthSuffices(c: Config, g: Rings)
    requires GoodLoop(c) && ServerRingSuffices(c, g)
    requires g.serverDepth == g.serverSend == g.clientSend
    ensures AllRequests(c) + g.lag <= g.clientSend && AllReplies(c) + g.lag <= g.serverSend
  {
    ProductMonotone(c.a, 1, c.serverBatch);
    ShareAtMost(g.serverDepth, c.servers);
    SendRingArithmetic(c.a, c.b, Share(g.serverDepth, c.servers), AllMessages(c), g.lag, c.a * c.serverBatch - 1,
                       (c.resp.collect - 1) + (c.resp.flush - 1));
    MulMonotone(c.b, c.a, AllMessages(c));
  }

  lemma ShareAtMost(depth: nat, k: nat)
    requires k >= 1
    ensures Share(depth, k) <= depth
  {
    MulMonotone(1, k, depth);
    assert depth * k == k * depth;
    ShareIsLeast(depth, depth, k);
  }

  lemma SendRingArithmetic(a: nat, b: nat, share: nat, all: nat, lag: nat, x: nat, y: nat)
    requires 1 <= b <= a && b * b * share > a * b * x + a * a * (y + b * all + lag)
    ensures a * all + lag < share
  {
    ProductMonotone(a * b, 0, x);
    ProductMonotone(a * a, b * all + lag, y + b * all + lag);
    RequestsForReplies(a, b, all, lag);
    if a * all + lag >= share { ProductMonotone(b * b, share, a * all + lag); }
  }

  lemma RequestsForReplies(a: nat, b: nat, all: nat, lag: nat)
    requires b <= a
    ensures b * b * (a * all + lag) <= a * a * (b * all + lag)
  {
    assert a * a * (b * all) == a * b * (a * all);
    SquareMonotone(b, a);
    MulMonotone(b * b, a * b, a * all);
    MulMonotone(b * b, a * a, lag);
  }

  lemma SquareMonotone(b: nat, a: nat)
    requires b <= a
    ensures b * b <= a * b <= a * a
  {
    MulMonotone(b, a, b);
    MulMonotone(b, a, a);
  }

  /** The shipped configuration files: `config/send_config` for the client and `config/recv_config` for the server. */
  lemma ShippedConfigurationIsProvisioned(g: Rings)
    requires g.serverDepth == g.clientDepth == g.serverSend == g.clientSend == 2048 && g.lag <= 512
    ensures Provisioned(Config(1, 1, 1024, 16, 1, 1, 128, 16, 4095, Stage(1, 16, 2048), Stage(1, 32, 2048)), g)
  {
  }
}
