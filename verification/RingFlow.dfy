/** The closed loop with its rings. */
module RingFlow {
  // Module FlowControl with the RoCE rings (`src/dispatcher_impl/roce/roce_dispatcher_dataplane.cc`): receive rings
  // of fixed depth whose buffers are reposted in ring order, send rings whose buffers come back with the next burst.
  // The server answers in the buffers of the requests.

  import opened MathUtils
  import opened FlowControl

  /** Depths of the four rings; a poll may miss the completions of the last lag packets delivered; and whether the
      workers of a side run on their dispatcher's thread. */
  datatype Rings = Rings(serverDepth: nat, clientDepth: nat, serverSend: nat, clientSend: nat, lag: nat,
                         serverShared: bool, clientShared: bool)

  /** A receive ring. Packets are numbered in order of arrival, and packet x lies in buffer x modulo the depth. The
      packets in each worker's rx queue; the messages that each worker has handled; and the packets whose buffers were
      marked APP_OWNED after they had been freed (module LateMark). */
  datatype Ring = Ring(delivered: nat, dispatched: nat, reposted: nat, rx: seq<seq<nat>>, handled: seq<nat>, late: set<nat>)

  /** A response packet: the request packet whose buffer carries it, and its number among its worker's. */
  datatype Reply = Reply(buf: nat, nr: nat)

  /** The counts of FlowControl; the server's receive ring, and the responses in its tx queues, in its dispatcher's
      array and in its send ring; the client's receive ring, and how many requests its send ring holds. */
  datatype Loop = Loop(flow: State, server: Ring, tx: seq<seq<Reply>>, disp: seq<Reply>, sent: seq<Reply>,
                       client: Ring, posted: nat)

  datatype Action = Plain(step: Step) | BurstRequests(polled: nat) | BurstReplies(polled: nat)
                  | RepostServer | RepostClient | LateMarkServer | LateMarkClient

  /** Responses of no more packets than requests. */
  predicate GoodLoop(c: Config) { GoodConfig(c) && c.b <= c.a }

  predicate Counted<T>(queues: seq<seq<T>>, counts: seq<nat>) {
    |queues| == |counts| && forall w :: 0 <= w < |queues| ==> |queues[w]| == counts[w]
  }

  predicate RingAgrees(r: Ring, p: Path) {
    Counted(r.rx, p.rx) && |r.handled| == |r.rx| && r.dispatched <= r.delivered && p.wait == r.delivered - r.dispatched
  }

  /** The queues have the lengths that FlowControl counts, and what is on the link has not been completed. */
  predicate Agrees(c: Config, s: Loop) {
    && Shape(c, s.flow) && RingAgrees(s.server, s.flow.req) && RingAgrees(s.client, s.flow.resp)
    && Counted(s.tx, s.flow.resp.tx) && |s.disp| == s.flow.resp.disp
    && s.flow.req.wire <= s.posted && s.flow.resp.wire <= |s.sent|
  }

  // Who holds a buffer

  predicate Queued(rx: seq<seq<nat>>, x: nat) {
    exists w :: 0 <= w < |rx| && x in rx[w]
  }

  predicate Carries(rs: seq<Reply>, x: nat) {
    exists i :: 0 <= i < |rs| && rs[i].buf == x
  }

  /** The client's buffer of packet x is not FREE. */
  predicate ClientHeld(s: Loop, x: nat) { x in s.client.late || Queued(s.client.rx, x) }

  /** The server's buffer of packet x is not FREE. */
  predicate Held(s: Loop, x: nat) {
    || x in s.server.late || Queued(s.server.rx, x) || (exists w :: 0 <= w < |s.tx| && Carries(s.tx[w], x))
    || Carries(s.disp, x) || Carries(s.sent, x)
  }

  // Guards

  /** What a receiving side adds to a motion's guard: arrivals need posted buffers, and the dispatcher deals the
      packets out in turn unless it is busy flushing. */
  predicate Receives(r: Ring, depth: nat, busy: bool, m: Motion) {
    match m
    case Deliver(n) => r.delivered + n <= r.reposted + depth
    case Dispatch(w, n) => |r.rx| > 0 && w == r.dispatched % |r.rx| && n == 1 && !busy
    case Flush(_) => false
    case _ => true
  }

  predicate Allowed(g: Rings, s: Loop, step: Step) {
    match step
    case Request(m) => Receives(s.server, g.serverDepth, Flushing(s.flow.resp), m)
    case Response(m) => Receives(s.client, g.clientDepth, Flushing(s.flow.req), m)
    case Serve(_, _) => !(g.serverShared && Flushing(s.flow.resp))
    case _ => !(g.clientShared && Flushing(s.flow.req))
  }

  /** The packets that one burst posts when left stay in the send ring. */
  function BurstSize(disp: nat, left: nat, send: nat): (n: nat)
    ensures n <= disp
  {
    if left + disp <= send then disp else if left <= send then send - left else 0
  }

  /** The poll sees the completions of delivered packets only, and of all but the last lag. */
  predicate CanPoll(wire: nat, posted: nat, polled: nat, lag: nat) {
    wire + polled <= posted <= wire + polled + lag
  }

  predicate CanBurst(st: Stage, p: Path, posted: nat, polled: nat, send: nat, lag: nat) {
    CanPoll(p.wire, posted, polled, lag) && CanMove(st, p, Flush(BurstSize(p.disp, posted - polled, send)))
  }

  predicate Can(c: Config, g: Rings, s: Loop, act: Action)
    requires GoodLoop(c) && Agrees(c, s)
  {
    match act
    case Plain(step) => Enabled(c, s.flow, step) && Allowed(g, s, step)
    case BurstRequests(k) => CanBurst(c.req, s.flow.req, s.posted, k, g.clientSend, g.lag)
    case BurstReplies(k) => CanBurst(c.resp, s.flow.resp, |s.sent|, k, g.serverSend, g.lag)
    case RepostServer => s.server.reposted < s.server.dispatched && !Held(s, s.server.reposted) && !Flushing(s.flow.resp)
    case RepostClient =>
      s.client.reposted < s.client.dispatched && !ClientHeld(s, s.client.reposted) && !Flushing(s.flow.req)
    case LateMarkServer =>
      !g.serverShared && s.server.reposted < s.server.dispatched && !Held(s, s.server.dispatched - 1)
    case LateMarkClient =>
      !g.clientShared && s.client.reposted < s.client.dispatched && !ClientHeld(s, s.client.dispatched - 1)
  }

  // Effects

  /** Packets arrive. */
  function Arrive(r: Ring, n: nat): Ring { r.(delivered := r.delivered + n) }

  /** The oldest waiting packet goes to the worker whose turn it is; at a full queue its buffer is FREE again. */
  function Deal(r: Ring, capacity: nat): Ring
    requires |r.rx| > 0
  {
    var w := r.dispatched % |r.rx|;
    Ring(r.delivered, r.dispatched + 1, r.reposted,
         if |r.rx[w]| < capacity then r.rx[w := r.rx[w] + [r.dispatched]] else r.rx, r.handled, r.late)
  }

  /** A worker takes n messages of per packets each. */
  function Handle(r: Ring, w: nat, n: nat, per: nat): Ring
    requires w < |r.rx| == |r.handled| && per * n <= |r.rx[w]|
  {
    Ring(r.delivered, r.dispatched, r.reposted, r.rx[w := r.rx[w][per * n..]], r.handled[w := r.handled[w] + n],
         r.late)
  }

  function Receive(r: Ring, m: Motion, capacity: nat): Ring
    requires m.Dispatch? ==> |r.rx| > 0
  {
    match m
    case Deliver(n) => Arrive(r, n)
    case Dispatch(_, _) => Deal(r, capacity)
    case _ => r
  }

  function Repost(r: Ring): Ring { r.(reposted := r.reposted + 1) }

  /** APP_OWNED is written over the FREE of the packet dealt out last. */
  function MarkLate(r: Ring): Ring
    requires r.dispatched > 0
  {
    r.(late := r.late + {r.dispatched - 1})
  }

  /** The responses to n messages: packet i of the batch carries response i. */
  function Replies(packets: seq<nat>, count: nat, first: nat): (rs: seq<Reply>)
    requires count <= |packets|
    ensures |rs| == count
  {
    seq(count, i requires 0 <= i < count => Reply(packets[i], first + i))
  }

  function Answered(c: Config, r: Ring, w: nat, n: nat): (rs: seq<Reply>)
    requires GoodLoop(c) && w < |r.rx| == |r.handled| && c.a * n <= |r.rx[w]|
    ensures |rs| == c.b * n
  {
    MulMonotone(c.b, c.a, n);
    Replies(r.rx[w], c.b * n, c.b * r.handled[w])
  }

  function CollectReplies(s: Loop, flow: State, w: nat, n: nat): Loop
    requires w < |s.tx| && n <= |s.tx[w]|
  {
    Loop(flow, s.server, s.tx[w := s.tx[w][n..]], s.disp + s.tx[w][..n], s.sent, s.client, s.posted)
  }

  function ServeMessages(c: Config, s: Loop, flow: State, w: nat, n: nat): Loop
    requires GoodLoop(c) && w < |s.tx| == |s.server.rx| == |s.server.handled| && c.a * n <= |s.server.rx[w]|
  {
    var rs := Answered(c, s.server, w, n);
    Loop(flow, Handle(s.server, w, n, c.a), s.tx[w := s.tx[w] + rs[..Taken(|s.tx[w]|, |rs|, c.capacity)]],
         s.disp, s.sent, s.client, s.posted)
  }

  function ReceiveRequests(c: Config, s: Loop, flow: State, m: Motion): Loop
    requires m.Dispatch? ==> |s.server.rx| > 0
  {
    Loop(flow, Receive(s.server, m, c.capacity), s.tx, s.disp, s.sent, s.client, s.posted)
  }

  function ReceiveReplies(c: Config, s: Loop, flow: State, m: Motion): Loop
    requires m.Dispatch? ==> |s.client.rx| > 0
  {
    Loop(flow, s.server, s.tx, s.disp, s.sent, Receive(s.client, m, c.capacity), s.posted)
  }

  function FinishMessages(c: Config, s: Loop, flow: State, w: nat, n: nat): Loop
    requires w < |s.client.rx| == |s.client.handled| && c.b * n <= |s.client.rx[w]|
  {
    Loop(flow, s.server, s.tx, s.disp, s.sent, Handle(s.client, w, n, c.b), s.posted)
  }

  function AfterPlain(c: Config, g: Rings, s: Loop, step: Step): Loop
    requires GoodLoop(c) && Agrees(c, s) && Can(c, g, s, Plain(step))
  {
    var flow := Do(c, s.flow, step);
    match step
    case Request(m) => ReceiveRequests(c, s, flow, m)
    case Response(Collect(w, n)) => CollectReplies(s, flow, w, n)
    case Response(m) => ReceiveReplies(c, s, flow, m)
    case Serve(w, n) => WholeMessages(s.flow.req.rx[w], c.a, n); ServeMessages(c, s, flow, w, n)
    case Finish(w, n) => WholeMessages(s.flow.resp.rx[w], c.b, n); FinishMessages(c, s, flow, w, n)
    case _ => Loop(flow, s.server, s.tx, s.disp, s.sent, s.client, s.posted)
  }

  /** The completed requests leave the send ring, and as many as fit are posted. */
  function AfterRequests(c: Config, g: Rings, s: Loop, polled: nat): Loop
    requires GoodLoop(c) && Agrees(c, s) && Can(c, g, s, BurstRequests(polled))
  {
    var n := BurstSize(s.flow.req.disp, s.posted - polled, g.clientSend);
    Loop(Do(c, s.flow, Request(Flush(n))), s.server, s.tx, s.disp, s.sent, s.client, s.posted - polled + n)
  }

  function AfterReplies(c: Config, g: Rings, s: Loop, polled: nat): Loop
    requires GoodLoop(c) && Agrees(c, s) && Can(c, g, s, BurstReplies(polled))
  {
    var n := BurstSize(s.flow.resp.disp, |s.sent| - polled, g.serverSend);
    Loop(Do(c, s.flow, Response(Flush(n))), s.server, s.tx, s.disp[n..], s.sent[polled..] + s.disp[..n], s.client, s.posted)
  }

  function After(c: Config, g: Rings, s: Loop, act: Action): Loop
    requires GoodLoop(c) && Agrees(c, s) && Can(c, g, s, act)
  {
    match act
    case Plain(step) => AfterPlain(c, g, s, step)
    case BurstRequests(k) => AfterRequests(c, g, s, k)
    case BurstReplies(k) => AfterReplies(c, g, s, k)
    case RepostServer => Loop(s.flow, Repost(s.server), s.tx, s.disp, s.sent, s.client, s.posted)
    case RepostClient => Loop(s.flow, s.server, s.tx, s.disp, s.sent, Repost(s.client), s.posted)
    case LateMarkServer => Loop(s.flow, MarkLate(s.server), s.tx, s.disp, s.sent, s.client, s.posted)
    case LateMarkClient => Loop(s.flow, s.server, s.tx, s.disp, s.sent, MarkLate(s.client), s.posted)
  }

  // The lengths stay right

  lemma ReceiveAgrees(st: Stage, r: Ring, p: Path, m: Motion, depth: nat, busy: bool, capacity: nat)
    requires RingAgrees(r, p) && CanMove(st, p, m) && Receives(r, depth, busy, m)
    ensures RingAgrees(Receive(r, m, capacity), Move(p, m, capacity))
  {
  }

  lemma HandleAgrees(r: Ring, p: Path, w: nat, n: nat, per: nat)
    requires RingAgrees(r, p) && w < |p.rx| && per * n <= p.rx[w]
    ensures RingAgrees(Handle(r, w, n, per), Take(p, w, per * n))
  {
  }

  lemma ServeAgrees(c: Config, s: Loop, w: nat, n: nat)
    requires GoodLoop(c) && Agrees(c, s) && Enabled(c, s.flow, Serve(w, n)) && c.a * n <= s.flow.req.rx[w]
    ensures Agrees(c, ServeMessages(c, s, Do(c, s.flow, Serve(w, n)), w, n))
  {
    HandleAgrees(s.server, s.flow.req, w, n, c.a);
  }

  lemma FinishAgrees(c: Config, s: Loop, w: nat, n: nat)
    requires GoodLoop(c) && Agrees(c, s) && Enabled(c, s.flow, Finish(w, n)) && c.b * n <= s.flow.resp.rx[w]
    ensures Agrees(c, FinishMessages(c, s, Do(c, s.flow, Finish(w, n)), w, n))
  {
    HandleAgrees(s.client, s.flow.resp, w, n, c.b);
  }

  lemma RequestAgrees(c: Config, g: Rings, s: Loop, m: Motion)
    requires GoodLoop(c) && Agrees(c, s) && Can(c, g, s, Plain(Request(m)))
    ensures Agrees(c, AfterPlain(c, g, s, Request(m)))
  {
    ReceiveAgrees(c.req, s.server, s.flow.req, m, g.serverDepth, Flushing(s.flow.resp), c.capacity);
  }

  lemma ResponseAgrees(c: Config, g: Rings, s: Loop, m: Motion)
    requires GoodLoop(c) && Agrees(c, s) && Can(c, g, s, Plain(Response(m)))
    ensures Agrees(c, AfterPlain(c, g, s, Response(m)))
  {
    if !m.Collect? {
      ReceiveAgrees(c.resp, s.client, s.flow.resp, m, g.clientDepth, Flushing(s.flow.req), c.capacity);
    }
  }

  /** Every action keeps the queues as long as FlowControl counts them. */
  lemma StepAgrees(c: Config, g: Rings, s: Loop, act: Action)
    requires GoodLoop(c) && Agrees(c, s) && Can(c, g, s, act)
    ensures Agrees(c, After(c, g, s, act))
  {
    match act
    case Plain(step) =>
      match step {
        case Request(m) => RequestAgrees(c, g, s, m);
        case Response(m) => ResponseAgrees(c, g, s, m);
        case Serve(w, n) => WholeMessages(s.flow.req.rx[w], c.a, n); ServeAgrees(c, s, w, n);
        case Finish(w, n) => WholeMessages(s.flow.resp.rx[w], c.b, n); FinishAgrees(c, s, w, n);
        case _ =>
      }
    case _ =>
  }

  // Runs

  function EmptyRing(workers: nat): Ring {
    Ring(0, 0, 0, seq(workers, _ => []), seq(workers, _ => 0), {})
  }

  function Start(c: Config): (s: Loop)
    requires GoodLoop(c)
    ensures Agrees(c, s)
  {
    Loop(Initial(c), EmptyRing(c.servers), seq(c.servers, _ => []), [], [], EmptyRing(c.clients), 0)
  }

  /** A run from the start, latest action last. */
  predicate Run(c: Config, g: Rings, acts: seq<Action>)
    requires GoodLoop(c)
    decreases |acts|, 0
  {
    acts == [] || (Run(c, g, acts[..|acts| - 1]) && Can(c, g, End(c, g, acts[..|acts| - 1]), acts[|acts| - 1]))
  }

  function End(c: Config, g: Rings, acts: seq<Action>): (s: Loop)
    requires GoodLoop(c) && Run(c, g, acts)
    ensures Agrees(c, s)
    decreases |acts|, 1
  {
    if acts == [] then Start(c) else
      var past, act := acts[..|acts| - 1], acts[|acts| - 1];
      StepAgrees(c, g, End(c, g, past), act);
      After(c, g, End(c, g, past), act)
  }

  /** What an action is to FlowControl: a repost is nothing there. */
  function Counts(g: Rings, s: Loop, act: Action): seq<Step> {
    match act
    case Plain(step) => [step]
    case BurstRequests(k) =>
      if k <= s.posted then [Request(Flush(BurstSize(s.flow.req.disp, s.posted - k, g.clientSend)))] else []
    case BurstReplies(k) =>
      if k <= |s.sent| then [Response(Flush(BurstSize(s.flow.resp.disp, |s.sent| - k, g.serverSend)))] else []
    case _ => []
  }

  function CountRun(c: Config, g: Rings, acts: seq<Action>): seq<Step>
    requires GoodLoop(c) && Run(c, g, acts)
  {
    if acts == [] then [] else
      CountRun(c, g, acts[..|acts| - 1]) + Counts(g, End(c, g, acts[..|acts| - 1]), acts[|acts| - 1])
  }

  lemma StepRefines(c: Config, g: Rings, s: Loop, act: Action)
    requires GoodLoop(c) && Agrees(c, s) && Can(c, g, s, act)
    ensures var steps := Counts(g, s, act);
            if steps == [] then After(c, g, s, act).flow == s.flow
            else |steps| == 1 && Enabled(c, s.flow, steps[0]) && After(c, g, s, act).flow == Do(c, s.flow, steps[0])
  {
  }

  /** The rings only restrain the loop: every run with rings is a run of FlowControl. */
  lemma {:induction false} RunRefines(c: Config, g: Rings, acts: seq<Action>)
    requires GoodLoop(c) && Run(c, g, acts)
    ensures Runs(c, Initial(c), CountRun(c, g, acts))
    ensures Exec(c, Initial(c), CountRun(c, g, acts)) == End(c, g, acts).flow
    decreases |acts|
  {
    if acts != [] {
      var past, act := acts[..|acts| - 1], acts[|acts| - 1];
      var s, before := End(c, g, past), CountRun(c, g, past);
      RunRefines(c, g, past);
      StepRefines(c, g, s, act);
      var steps := before + Counts(g, s, act);
      if |steps| > |before| {
        assert steps[..|steps| - 1] == before;
      } else {
        assert steps == before;
      }
    }
  }
}
