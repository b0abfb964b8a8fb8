/** The ring objects' methods are sequences of the server's steps. */
module RingSteps {
  // Modules RecvRing and SendRing say what whole calls do to the rings' fields, module BufferLifecycle what single reads
  // and writes do to the server. Each call below is a run of dispatcher and NIC steps to the state that its method's
  // contract gives, so what holds over the server's runs holds of the methods.

  import opened MathUtils
  import opened Circular
  import opened Ledger
  import opened BufferLifecycle
  import opened BufferTheorems
  import opened SendRing
  import opened RecvRing
  import opened RuleTable

  /** The dispatcher and the NIC can take the server from s to t, while the workers do nothing. */
  ghost predicate Leads(c: Config, s: Server, t: Server) {
    exists steps :: Runs(c, s, steps) && t == Exec(c, s, steps) && forall st :: st in steps ==> !IsWorker(st)
  }

  lemma LeadsNowhere(c: Config, s: Server)
    ensures Leads(c, s, s)
  {
    assert Runs(c, s, []) && s == Exec(c, s, []);
  }

  lemma LeadsOn(c: Config, s: Server, t: Server, step: Step)
    requires Leads(c, s, t) && Enabled(c, t, step) && !IsWorker(step)
    ensures Leads(c, s, Apply(c, t, step))
  {
    var steps :| Runs(c, s, steps) && t == Exec(c, s, steps) && forall st :: st in steps ==> !IsWorker(st);
    OneMoreStep(c, s, steps, step);
    assert forall st :: st in steps + [step] ==> !IsWorker(st);
  }

  lemma LeadsKeepsInv(c: Config, s: Server, t: Server)
    requires GoodConfig(c) && Inv(c, s) && Leads(c, s, t)
    ensures Inv(c, t)
  {
    var steps :| Runs(c, s, steps) && t == Exec(c, s, steps) && forall st :: st in steps ==> !IsWorker(st);
    RunKeepsInv(c, s, steps);
  }

  /** The fields of the receive ring, with the holders they speak of. */
  datatype RxView = RxView(flag: seq<BufState>, marked: seq<nat>, nic: seq<nat>, waiting: seq<nat>,
                           recvHead: nat, ringHead: nat, waitForDisp: nat, cursor: nat, pc: DispatcherPc)

  function RxOf(s: Server): RxView {
    RxView(s.flag, Has(s, Marked), Has(s, NicRecv), Has(s, Waiting), s.recvHead, s.ringHead, s.waitForDisp, s.cursor, s.pc)
  }

  predicate InRx(p: Place) { p.Marked? || p.NicRecv? || p.Waiting? }

  /** Workers and the other holders are as they were. */
  ghost predicate Apart(s: Server, t: Server) {
    t.worker == s.worker && forall p :: !InRx(p) ==> Has(t, p) == Has(s, p)
  }

  // rx_burst: the repost loop

  /** n buffers from recv_head_ on have been marked. */
  function Marked1(s: Server, n: nat, depth: nat): RxView
    requires depth > 0
  {
    RxView(WithFlags(s.flag, Arc(s.recvHead, n, depth), Posted), Arc(s.recvHead, n, depth), Has(s, NicRecv), Has(s, Waiting),
           s.recvHead, s.ringHead, s.waitForDisp, s.cursor, if n == 0 then Ready else Reposting)
  }

  lemma MarkedEntry(c: Config, s: Server, t: Server, n: nat)
    requires c.depth > 0 && RxOf(t) == Marked1(s, n, c.depth)
    ensures NextEntry(c, t) == Slot(s.recvHead, n, c.depth) && t.flag == WithFlags(s.flag, Arc(s.recvHead, n, c.depth), Posted)
  {
  }

  lemma MarkNextEntry(c: Config, s: Server, t: Server, n: nat)
    requires c.depth > 0 && |s.flag| == c.depth && n < FreeRun(s.flag, s.recvHead, 0)
    requires Shape(c, t) && RxOf(t) == Marked1(s, n, c.depth)
    ensures NextEntry(c, t) == Slot(s.recvHead, n, c.depth) && Enabled(c, t, RepostNext)
  {
    MarkedEntry(c, s, t, n);
    FreeAt(s.flag, s.recvHead, n);
  }

  /** While the walk goes on it finds FREE. */
  lemma FreeAt(flags: seq<BufState>, head: nat, n: nat)
    requires |flags| > 0 && n < FreeRun(flags, head, 0)
    ensures WithFlags(flags, Arc(head, n, |flags|), Posted)[Slot(head, n, |flags|)] == Free
  {
    WalkStays(flags, head, n);
  }

  /** At its end it does not. */
  lemma NotFreeAt(flags: seq<BufState>, head: nat)
    requires |flags| > 0
    ensures var n := FreeRun(flags, head, 0);
            WithFlags(flags, Arc(head, n, |flags|), Posted)[Slot(head, n, |flags|)] != Free
  {
    WalkStays(flags, head, FreeRun(flags, head, 0));
  }

  lemma RepostStep(c: Config, t: Server)
    requires Located(t.ledger) && Flags(t) && Enabled(c, t, RepostNext)
    ensures var x, u := NextEntry(c, t), Apply(c, t, RepostNext);
            && x < |t.flag| && Apart(t, u)
            && RxOf(u) == RxView(t.flag[x := Posted], Has(t, Marked) + [x], Has(t, NicRecv), Has(t, Waiting),
                                 t.recvHead, t.ringHead, t.waitForDisp, t.cursor, Reposting)
  {
    StepTransfers(c, t, RepostNext);
  }

  lemma MarkedNext(s: Server, t: Server, u: Server, n: nat, depth: nat)
    requires depth > 0 && |s.flag| == depth && RxOf(t) == Marked1(s, n, depth) && Apart(s, t) && Apart(t, u)
    requires var x := Slot(s.recvHead, n, depth);
             RxOf(u) == RxView(t.flag[x := Posted], Has(t, Marked) + [x], Has(t, NicRecv), Has(t, Waiting),
                               t.recvHead, t.ringHead, t.waitForDisp, t.cursor, Reposting)
    ensures RxOf(u) == Marked1(s, n + 1, depth) && Apart(s, u)
  {
    var arc := Arc(s.recvHead, n + 1, depth);
    assert arc[..n] == Arc(s.recvHead, n, depth);
  }

  lemma MarkOne(c: Config, s: Server, t: Server, n: nat) returns (u: Server)
    requires GoodConfig(c) && Inv(c, s) && Leads(c, s, t) && n < FreeRun(s.flag, s.recvHead, 0)
    requires RxOf(t) == Marked1(s, n, c.depth) && Apart(s, t)
    ensures Leads(c, s, u) && RxOf(u) == Marked1(s, n + 1, c.depth) && Apart(s, u)
  {
    LeadsKeepsInv(c, s, t);
    MarkNextEntry(c, s, t, n);
    RepostStep(c, t);
    LeadsOn(c, s, t, RepostNext);
    u := Apply(c, t, RepostNext);
    MarkedNext(s, t, u, n, c.depth);
  }

  lemma MarkNone(c: Config, s: Server)
    requires c.depth > 0 && Geometry(c, s) && s.pc.Ready?
    ensures RxOf(s) == Marked1(s, 0, c.depth)
  {
  }

  lemma {:induction false} MarkMany(c: Config, s: Server, n: nat) returns (t: Server)
    requires GoodConfig(c) && Inv(c, s) && s.pc.Ready? && n <= FreeRun(s.flag, s.recvHead, 0)
    ensures Leads(c, s, t) && RxOf(t) == Marked1(s, n, c.depth) && Apart(s, t)
  {
    if n == 0 {
      t := s;
      LeadsNowhere(c, s);
      MarkNone(c, s);
    } else {
      t := MarkMany(c, s, n - 1);
      t := MarkOne(c, s, t, n - 1);
    }
  }

  // rx_burst: the post and the poll

  lemma KeepsFlags(c: Config, t: Server, step: Step)
    requires Enabled(c, t, step) && (step.PostOne? || step.PollOne? || step.Collect?)
    ensures FlagsAfter(c, t, step) == t.flag
  {
  }

  lemma PostStep(c: Config, t: Server)
    requires Located(t.ledger) && Flags(t) && Enabled(c, t, PostOne)
    ensures var u, m := Apply(c, t, PostOne), Has(t, Marked);
            && Apart(t, u)
            && RxOf(u) == RxView(t.flag, m[1..], Has(t, NicRecv) + [m[0]], Has(t, Waiting), (t.recvHead + 1) % c.depth,
                                 t.ringHead, t.waitForDisp, t.cursor, if |m| == 1 then Ready else Posting)
  {
    KeepsFlags(c, t, PostOne);
    StepTransfers(c, t, PostOne);
  }

  /** The first k marked buffers have been posted. */
  function PostedFirst(v: RxView, k: nat, depth: nat): RxView
    requires depth > 0 && k <= |v.marked|
  {
    RxView(v.flag, v.marked[k..], v.nic + v.marked[..k], v.waiting, if k == 0 then v.recvHead else Slot(v.recvHead, k, depth),
           v.ringHead, v.waitForDisp, v.cursor, if k == 0 then v.pc else if k == |v.marked| then Ready else Posting)
  }

  lemma PostedNone(v: RxView, depth: nat)
    requires depth > 0
    ensures PostedFirst(v, 0, depth) == v
  {
    assert v.marked[0..] == v.marked && v.nic + v.marked[..0] == v.nic;
  }

  lemma PostedNext(v: RxView, k: nat, depth: nat)
    requires 0 < depth && k < |v.marked| && v.recvHead < depth
    ensures var w, m := PostedFirst(v, k, depth), v.marked[k..];
            PostedFirst(v, k + 1, depth)
            == RxView(w.flag, m[1..], w.nic + [m[0]], w.waiting, (w.recvHead + 1) % depth, w.ringHead, w.waitForDisp, w.cursor,
                      if |m| == 1 then Ready else Posting)
  {
    assert v.marked[..k + 1] == v.marked[..k] + [v.marked[k]];
    assert v.nic + v.marked[..k + 1] == (v.nic + v.marked[..k]) + [v.marked[k]];
    assert v.marked[k..][1..] == v.marked[k + 1..];
    SlotNext(v.recvHead, k, depth);
    RemainderSmall(v.recvHead, depth);
  }

  /** Posting can begin: the walk has stopped at a buffer that is not FREE. */
  predicate WalkOver(c: Config, t: Server) {
    c.depth > 0 && Shape(c, t) && t.pc.Reposting? && !t.flag[NextEntry(c, t)].Free? && t.recvHead < c.depth
  }

  lemma {:induction false} PostMany(c: Config, s: Server, r: Server, k: nat) returns (t: Server)
    requires GoodConfig(c) && Inv(c, s) && Leads(c, s, r) && WalkOver(c, r) && k <= |Has(r, Marked)|
    ensures Leads(c, s, t) && RxOf(t) == PostedFirst(RxOf(r), k, c.depth) && Apart(r, t)
  {
    if k == 0 {
      t := r;
      PostedNone(RxOf(r), c.depth);
    } else {
      t := PostMany(c, s, r, k - 1);
      t := PostNext(c, s, r, t, k - 1);
    }
  }

  lemma PostNext(c: Config, s: Server, r: Server, t: Server, k: nat) returns (u: Server)
    requires GoodConfig(c) && Inv(c, s) && Leads(c, s, t) && WalkOver(c, r) && k < |Has(r, Marked)|
    requires RxOf(t) == PostedFirst(RxOf(r), k, c.depth) && Apart(r, t)
    ensures Leads(c, s, u) && RxOf(u) == PostedFirst(RxOf(r), k + 1, c.depth) && Apart(r, u)
  {
    LeadsKeepsInv(c, s, t);
    PostReady(c, r, t, k);
    PostStep(c, t);
    LeadsOn(c, s, t, PostOne);
    u := Apply(c, t, PostOne);
    PostedView(r, t, u, k, c.depth);
  }

  lemma PostedView(r: Server, t: Server, u: Server, k: nat, depth: nat)
    requires 0 < depth && k < |Has(r, Marked)| && r.recvHead < depth
    requires RxOf(t) == PostedFirst(RxOf(r), k, depth) && Apart(r, t) && Apart(t, u)
    requires var m := Has(t, Marked);
             RxOf(u) == RxView(t.flag, m[1..], Has(t, NicRecv) + [m[0]], Has(t, Waiting), (t.recvHead + 1) % depth,
                               t.ringHead, t.waitForDisp, t.cursor, if |m| == 1 then Ready else Posting)
    ensures RxOf(u) == PostedFirst(RxOf(r), k + 1, depth) && Apart(r, u)
  {
    PostedNext(RxOf(r), k, depth);
  }

  lemma PostReady(c: Config, r: Server, t: Server, k: nat)
    requires WalkOver(c, r) && k < |Has(r, Marked)| && Shape(c, t) && RxOf(t) == PostedFirst(RxOf(r), k, c.depth)
    ensures Enabled(c, t, PostOne)
  {
  }

  lemma PollStep(c: Config, t: Server)
    requires Located(t.ledger) && Flags(t) && Enabled(c, t, PollOne)
    ensures var u, nic := Apply(c, t, PollOne), Has(t, NicRecv);
            && Apart(t, u)
            && RxOf(u) == RxView(t.flag, Has(t, Marked), nic[1..], Has(t, Waiting) + [nic[0]], t.recvHead, t.ringHead,
                                 t.waitForDisp + 1, t.cursor, t.pc)
  {
    KeepsFlags(c, t, PollOne);
    StepTransfers(c, t, PollOne);
  }

  /** The NIC has filled its k oldest buffers. */
  function Filled(v: RxView, k: nat): RxView
    requires k <= |v.nic|
  {
    RxView(v.flag, v.marked, v.nic[k..], v.waiting + v.nic[..k], v.recvHead, v.ringHead, v.waitForDisp + k, v.cursor, v.pc)
  }

  lemma FilledNext(v: RxView, k: nat)
    requires k < |v.nic|
    ensures var w, nic := Filled(v, k), v.nic[k..];
            Filled(v, k + 1)
            == RxView(w.flag, w.marked, nic[1..], w.waiting + [nic[0]], w.recvHead, w.ringHead, w.waitForDisp + 1, w.cursor, w.pc)
  {
    assert v.waiting + v.nic[..k + 1] == (v.waiting + v.nic[..k]) + [v.nic[k]];
  }

  lemma PollMore(c: Config, s: Server, t: Server) returns (u: Server)
    requires GoodConfig(c) && Inv(c, s) && Leads(c, s, t) && t.pc.Ready? && Has(t, NicRecv) != []
    ensures Leads(c, s, u) && Apart(t, u)
    ensures var nic := Has(t, NicRecv);
            RxOf(u) == RxView(t.flag, Has(t, Marked), nic[1..], Has(t, Waiting) + [nic[0]], t.recvHead, t.ringHead,
                              t.waitForDisp + 1, t.cursor, t.pc)
  {
    LeadsKeepsInv(c, s, t);
    PollStep(c, t);
    LeadsOn(c, s, t, PollOne);
    u := Apply(c, t, PollOne);
  }

  lemma {:induction false} PollUpTo(c: Config, s: Server, r: Server, k: nat) returns (t: Server)
    requires GoodConfig(c) && Inv(c, s) && Leads(c, s, r) && r.pc.Ready? && k <= |Has(r, NicRecv)|
    ensures Leads(c, s, t) && RxOf(t) == Filled(RxOf(r), k) && Apart(r, t)
  {
    if k == 0 {
      t := r;
    } else {
      t := PollUpTo(c, s, r, k - 1);
      t := PollMore(c, s, t);
      FilledNext(RxOf(r), k - 1);
    }
  }

  /** The receive ring after `rx_burst` with ret completions: what `RecvRing.RxBurst` promises. */
  function AfterRxBurst(v: RxView, ret: nat, depth: nat): RxView
    requires 0 < depth == |v.flag| && ret <= |v.nic| + FreeRun(v.flag, v.recvHead, 0)
  {
    var n := FreeRun(v.flag, v.recvHead, 0);
    var nic := v.nic + Arc(v.recvHead, n, depth);
    RxView(WithFlags(v.flag, Arc(v.recvHead, n, depth), Posted), [], nic[ret..], v.waiting + nic[..ret],
           if n == 0 then v.recvHead else Slot(v.recvHead, n, depth), v.ringHead, v.waitForDisp + ret, v.cursor, Ready)
  }

  lemma WalkEnds(c: Config, s: Server, t: Server, n: nat)
    requires c.depth > 0 && |s.flag| == c.depth && n == FreeRun(s.flag, s.recvHead, 0) > 0 && s.recvHead < c.depth
    requires Shape(c, t) && RxOf(t) == Marked1(s, n, c.depth)
    ensures WalkOver(c, t)
  {
    MarkedEntry(c, s, t, n);
    NotFreeAt(s.flag, s.recvHead);
  }

  /** `rx_burst` is a run: it marks the FREE run, posts it, and polls. */
  lemma RxBurstIsRun(c: Config, s: Server, ret: nat) returns (t: Server)
    requires GoodConfig(c) && Inv(c, s) && s.pc.Ready? && ret <= |Has(s, NicRecv)| + FreeRun(s.flag, s.recvHead, 0)
    ensures Leads(c, s, t) && RxOf(t) == AfterRxBurst(RxOf(s), ret, c.depth) && Apart(s, t)
  {
    var n := FreeRun(s.flag, s.recvHead, 0);
    var m := MarkMany(c, s, n);
    var p := m;
    if n > 0 {
      HeadInRing(c, s);
      LeadsKeepsInv(c, s, m);
      WalkEnds(c, s, m, n);
      p := PostMany(c, s, m, n);
      PostedAll(RxOf(m), c.depth);
    }
    t := PollUpTo(c, s, p, ret);
  }

  lemma HeadInRing(c: Config, s: Server)
    requires Inv(c, s)
    ensures s.recvHead < c.depth
  {
    assert Geometry(c, s);
  }

  lemma PostedAll(v: RxView, depth: nat)
    requires depth > 0 && v.marked != []
    ensures PostedFirst(v, |v.marked|, depth)
         == RxView(v.flag, [], v.nic + v.marked, v.waiting, Slot(v.recvHead, |v.marked|, depth), v.ringHead, v.waitForDisp, v.cursor, Ready)
  {
    assert v.marked[..|v.marked|] == v.marked;
  }

  // dispatch_rx_pkts

  /** The workers' rx queues. */
  function RxQueues(s: Server, k: nat): seq<seq<nat>> {
    seq(k, w requires 0 <= w < k => Has(s, WorkerRx(w)))
  }

  /** What a dispatch works on: the flags, the worker queues, the packets that wait, and where it is. */
  datatype Dealing = Dealing(queues: seq<seq<nat>>, flag: seq<BufState>, waiting: seq<nat>, cursor: nat, pc: DispatcherPc)

  function DealingOf(s: Server, k: nat): Dealing {
    Dealing(RxQueues(s, k), s.flag, Has(s, Waiting), s.cursor, s.pc)
  }

  /** The server but for flags and holders. */
  datatype Indices = Indices(worker: seq<WorkerPc>, pc: DispatcherPc, recvHead: nat, ringHead: nat, waitForDisp: nat, cursor: nat)

  function IndicesOf(s: Server): Indices { Indices(s.worker, s.pc, s.recvHead, s.ringHead, s.waitForDisp, s.cursor) }

  /** Workers, the other holders and the ring's heads are as they were. */
  ghost predicate Besides(s: Server, t: Server) {
    && IndicesOf(t) == Indices(s.worker, t.pc, s.recvHead, s.ringHead, s.waitForDisp, t.cursor)
    && forall p: Place :: !p.Waiting? && !p.WorkerRx? ==> Has(t, p) == Has(s, p)
  }

  lemma QueueGains(s: Server, t: Server, w: nat, b: nat, k: nat)
    requires w < k && Has(t, WorkerRx(w)) == Has(s, WorkerRx(w)) + [b]
    requires forall v :: v != w ==> Has(t, WorkerRx(v)) == Has(s, WorkerRx(v))
    ensures RxQueues(t, k) == RxQueues(s, k)[w := RxQueues(s, k)[w] + [b]]
  {
  }

  lemma QueuesSame(s: Server, t: Server, k: nat)
    requires forall v :: Has(t, WorkerRx(v)) == Has(s, WorkerRx(v))
    ensures RxQueues(t, k) == RxQueues(s, k)
  {
  }

  /** The packet at the head of those that wait can be dealt out. */
  predicate CanDeal(c: Config, t: Server, w: nat) {
    && Shape(c, t) && (t.pc.Ready? || t.pc.Dispatching?) && t.cursor < t.waitForDisp && Has(t, Waiting) != [] && w < c.workers
  }

  lemma DropStep(c: Config, t: Server, w: nat)
    requires Located(t.ledger) && Flags(t) && CanDeal(c, t, w) && |Has(t, WorkerRx(w))| >= c.queueCap
    ensures var u, x := Apply(c, t, DispatchTo(w)), Has(t, Waiting);
            && x[0] < |t.flag| && Besides(t, u) && u.pc == Dispatching && u.cursor == t.cursor + 1
            && Has(u, Waiting) == x[1..] && u.flag == t.flag[x[0] := Free]
            && forall v :: Has(u, WorkerRx(v)) == Has(t, WorkerRx(v))
  {
    StepMoves(c, t, DispatchTo(w));
    assert MotionOf(c, t, DispatchTo(w)) == Goes(Waiting, Has(t, Waiting)[0], Unheld);
  }

  lemma EnqueueStep(c: Config, t: Server, w: nat)
    requires Located(t.ledger) && Flags(t) && CanDeal(c, t, w) && |Has(t, WorkerRx(w))| < c.queueCap
    ensures var u, x := Apply(c, t, DispatchTo(w)), Has(t, Waiting);
            && x[0] < |t.flag| && Besides(t, u) && u.pc == Marking(x[0]) && u.cursor == t.cursor + 1
            && Has(u, Waiting) == x[1..] && u.flag == t.flag && t.flag[x[0]] == Posted
            && Has(u, WorkerRx(w)) == Has(t, WorkerRx(w)) + [x[0]]
            && forall v :: v != w ==> Has(u, WorkerRx(v)) == Has(t, WorkerRx(v))
  {
    StepTransfers(c, t, DispatchTo(w));
    assert FlagFits(t.flag[Has(t, Waiting)[0]], Waiting, t.pc == Marking(Has(t, Waiting)[0]));
  }

  lemma MarkStep(c: Config, t: Server)
    requires Shape(c, t) && t.pc.Marking? && !t.flag[t.pc.b].Free?
    ensures var u := Apply(c, t, MarkAppOwned);
            && Besides(t, u) && u.pc == Dispatching && u.cursor == t.cursor && u.flag == t.flag[t.pc.b := AppOwned]
            && u.ledger == t.ledger
  {
  }

  /** One packet dealt out to worker w. */
  function DealtTo(v: Dealing, w: nat, cap: nat): Dealing
    requires v.waiting != []
  {
    var d := DeliverOne(Delivery(v.queues, v.flag, 0), v.waiting[0], w, cap);
    Dealing(d.queues, d.flags, v.waiting[1..], v.cursor + 1, Dispatching)
  }

  lemma DropIsDeal(c: Config, s: Server, t: Server, w: nat) returns (u: Server)
    requires GoodConfig(c) && Leads(c, s, t) && Inv(c, t) && CanDeal(c, t, w) && |Has(t, WorkerRx(w))| >= c.queueCap
    ensures Leads(c, s, u) && Besides(t, u) && DealingOf(u, c.workers) == DealtTo(DealingOf(t, c.workers), w, c.queueCap)
  {
    DropStep(c, t, w);
    LeadsOn(c, s, t, DispatchTo(w));
    u := Apply(c, t, DispatchTo(w));
    DropView(t, u, w, c.workers, c.queueCap);
  }

  lemma DropView(t: Server, u: Server, w: nat, k: nat, cap: nat)
    requires w < k && |Has(t, WorkerRx(w))| >= cap && Has(t, Waiting) != [] && Has(t, Waiting)[0] < |t.flag|
    requires u.pc == Dispatching && u.cursor == t.cursor + 1 && Has(u, Waiting) == Has(t, Waiting)[1..]
    requires u.flag == t.flag[Has(t, Waiting)[0] := Free] && forall v :: Has(u, WorkerRx(v)) == Has(t, WorkerRx(v))
    ensures DealingOf(u, k) == DealtTo(DealingOf(t, k), w, cap)
  {
    QueuesSame(t, u, k);
  }

  lemma Enqueued(c: Config, s: Server, t: Server, w: nat) returns (u: Server)
    requires GoodConfig(c) && Leads(c, s, t) && Inv(c, t) && CanDeal(c, t, w) && |Has(t, WorkerRx(w))| < c.queueCap
    ensures Leads(c, s, u) && Inv(c, u) && Besides(t, u) && u.pc == Marking(Has(t, Waiting)[0]) && u.cursor == t.cursor + 1
    ensures Has(t, Waiting)[0] < |t.flag| && u.flag == t.flag && t.flag[Has(t, Waiting)[0]] == Posted
    ensures Has(u, Waiting) == Has(t, Waiting)[1..]
    ensures RxQueues(u, c.workers) == RxQueues(t, c.workers)[w := RxQueues(t, c.workers)[w] + [Has(t, Waiting)[0]]]
  {
    EnqueueStep(c, t, w);
    LeadsOn(c, s, t, DispatchTo(w));
    StepKeepsInv(c, t, DispatchTo(w));
    u := Apply(c, t, DispatchTo(w));
    QueueGains(t, u, w, Has(t, Waiting)[0], c.workers);
  }

  lemma EnqueueIsDeal(c: Config, s: Server, t: Server, w: nat) returns (u: Server)
    requires GoodConfig(c) && Leads(c, s, t) && Inv(c, t) && CanDeal(c, t, w) && |Has(t, WorkerRx(w))| < c.queueCap
    ensures Leads(c, s, u) && Besides(t, u) && DealingOf(u, c.workers) == DealtTo(DealingOf(t, c.workers), w, c.queueCap)
  {
    var m := Enqueued(c, s, t, w);
    MarkStep(c, m);
    LeadsOn(c, s, m, MarkAppOwned);
    u := Apply(c, m, MarkAppOwned);
    QueuesSame(m, u, c.workers);
  }

  /** The first i waiting packets dealt out. */
  function DealtFirst(v: Dealing, routes: seq<nat>, i: nat, cap: nat): Dealing
    requires i <= |v.waiting| == |routes|
  {
    var d := Deliver(Delivery(v.queues, v.flag, 0), v.waiting[..i], routes[..i], cap);
    Dealing(d.queues, d.flags, v.waiting[i..], v.cursor + i, if i == 0 then v.pc else Dispatching)
  }

  lemma DeliverIgnoresTotal(d: Delivery, b: nat, w: nat, cap: nat)
    ensures var r, q := DeliverOne(d, b, w, cap), DeliverOne(Delivery(d.queues, d.flags, 0), b, w, cap);
            r.queues == q.queues && r.flags == q.flags
  {
  }

  lemma DealtNext(v: Dealing, routes: seq<nat>, i: nat, cap: nat)
    requires i < |v.waiting| == |routes|
    ensures DealtFirst(v, routes, i + 1, cap) == DealtTo(DealtFirst(v, routes, i, cap), routes[i], cap)
  {
    var d := Delivery(v.queues, v.flag, 0);
    DeliverNext(d, v.waiting, routes, i, cap);
    DeliverIgnoresTotal(Deliver(d, v.waiting[..i], routes[..i], cap), v.waiting[i], routes[i], cap);
    assert v.waiting[i..][0] == v.waiting[i] && v.waiting[i..][1..] == v.waiting[i + 1..];
  }

  lemma DealOne(c: Config, s: Server, t: Server, w: nat) returns (u: Server)
    requires GoodConfig(c) && Inv(c, s) && Leads(c, s, t) && CanDeal(c, t, w)
    ensures Leads(c, s, u) && Besides(t, u) && DealingOf(u, c.workers) == DealtTo(DealingOf(t, c.workers), w, c.queueCap)
  {
    LeadsKeepsInv(c, s, t);
    if |Has(t, WorkerRx(w))| < c.queueCap {
      u := EnqueueIsDeal(c, s, t, w);
    } else {
      u := DropIsDeal(c, s, t, w);
    }
  }

  lemma {:induction false} DealMany(c: Config, s: Server, routes: seq<nat>, i: nat) returns (t: Server)
    requires GoodConfig(c) && Inv(c, s) && s.pc.Ready? && i <= |Has(s, Waiting)| == |routes| == s.waitForDisp && s.cursor == 0
    requires forall k :: 0 <= k < |routes| ==> routes[k] < c.workers
    ensures Leads(c, s, t) && Besides(s, t)
    ensures DealingOf(t, c.workers) == DealtFirst(DealingOf(s, c.workers), routes, i, c.queueCap)
  {
    if i == 0 {
      t := s;
      LeadsNowhere(c, s);
    } else {
      var r := DealMany(c, s, routes, i - 1);
      LeadsKeepsInv(c, s, r);
      t := DealOne(c, s, r, routes[i - 1]);
      DealtNext(DealingOf(s, c.workers), routes, i - 1, c.queueCap);
    }
  }

  lemma DealAll(c: Config, s: Server, routes: seq<nat>) returns (t: Server)
    requires GoodConfig(c) && Inv(c, s) && s.pc.Ready? && |routes| == s.waitForDisp > 0
    requires forall k :: 0 <= k < |routes| ==> routes[k] < c.workers
    ensures Leads(c, s, t) && Besides(s, t) && t.pc.Dispatching? && t.cursor == s.waitForDisp && Has(t, Waiting) == []
    ensures var d := Deliver(Delivery(RxQueues(s, c.workers), s.flag, 0), Arc(s.ringHead, s.waitForDisp, c.depth), routes, c.queueCap);
            RxQueues(t, c.workers) == d.queues && t.flag == d.flags
  {
    WaitingIsArc(c, s);
    var n := |routes|;
    t := DealMany(c, s, routes, n);
    assert Has(s, Waiting)[..n] == Has(s, Waiting) && routes[..n] == routes;
  }

  lemma EndStep(c: Config, t: Server)
    requires Shape(c, t) && t.pc.Dispatching? && t.cursor == t.waitForDisp
    ensures Enabled(c, t, EndDispatch)
    ensures var u := Apply(c, t, EndDispatch);
            && u.ringHead == Slot(t.ringHead, t.waitForDisp, c.depth) && u.waitForDisp == 0 && u.cursor == 0 && u.pc == Ready
            && u.flag == t.flag && u.ledger == t.ledger && u.worker == t.worker && u.recvHead == t.recvHead
  {
  }

  lemma WaitingIsArc(c: Config, s: Server)
    requires Inv(c, s) && s.pc.Ready?
    ensures s.cursor == 0 && Has(s, Waiting) == Arc(s.ringHead, s.waitForDisp, c.depth)
  {
    assert Geometry(c, s);
    var w := Has(s, Waiting);
    var all := w + Has(s, NicRecv) + Has(s, Marked);
    ArcFrom(s.ringHead, |w|, |all|, c.depth);
    assert all[..|w|] == w;
  }

  /** `dispatch_rx_pkts` is a run: every waiting packet goes where the routes say, as `RecvRing.DispatchRxPkts`
      promises, and the ring's head moves past them. */
  lemma DispatchIsRun(c: Config, s: Server, routes: seq<nat>) returns (t: Server)
    requires GoodConfig(c) && Inv(c, s) && s.pc.Ready? && |routes| == s.waitForDisp > 0
    requires forall k :: 0 <= k < |routes| ==> routes[k] < c.workers
    ensures Leads(c, s, t) && t.pc.Ready? && t.worker == s.worker && t.recvHead == s.recvHead
    ensures t.ringHead == Slot(s.ringHead, s.waitForDisp, c.depth) && t.waitForDisp == 0 && Has(t, Waiting) == []
    ensures var d := Deliver(Delivery(RxQueues(s, c.workers), s.flag, 0), Arc(s.ringHead, s.waitForDisp, c.depth), routes, c.queueCap);
            RxQueues(t, c.workers) == d.queues && t.flag == d.flags
    ensures forall p: Place :: !p.Waiting? && !p.WorkerRx? ==> Has(t, p) == Has(s, p)
  {
    var r := DealAll(c, s, routes);
    LeadsKeepsInv(c, s, r);
    EndStep(c, r);
    LeadsOn(c, s, r, EndDispatch);
    t := Apply(c, r, EndDispatch);
  }

  // collect_tx_pkts

  /** The dispatcher's array and one worker's tx queue. */
  datatype ChunkView = ChunkView(flag: seq<BufState>, disp: seq<nat>, tx: seq<nat>)

  function ChunkOf(s: Server, w: nat): ChunkView { ChunkView(s.flag, Has(s, DispTx), Has(s, WorkerTx(w))) }

  ghost predicate AllButChunk(s: Server, t: Server, w: nat) {
    IndicesOf(t) == IndicesOf(s) && forall p: Place :: p != DispTx && p != WorkerTx(w) ==> Has(t, p) == Has(s, p)
  }

  lemma CollectStep(c: Config, t: Server, w: nat)
    requires Located(t.ledger) && Flags(t) && Enabled(c, t, Collect(w))
    ensures var u, tx := Apply(c, t, Collect(w)), Has(t, WorkerTx(w));
            AllButChunk(t, u, w) && ChunkOf(u, w) == ChunkView(t.flag, Has(t, DispTx) + [tx[0]], tx[1..])
  {
    KeepsFlags(c, t, Collect(w));
    StepTransfers(c, t, Collect(w));
    assert MotionOf(c, t, Collect(w)) == Goes(WorkerTx(w), Has(t, WorkerTx(w))[0], DispTx);
  }

  /** The first k packets of the queue collected. */
  function CollectedFirst(v: ChunkView, k: nat): ChunkView
    requires k <= |v.tx|
  {
    ChunkView(v.flag, v.disp + v.tx[..k], v.tx[k..])
  }

  lemma CollectedNext(v: ChunkView, k: nat)
    requires k < |v.tx|
    ensures var w := CollectedFirst(v, k); CollectedFirst(v, k + 1) == ChunkView(w.flag, w.disp + [w.tx[0]], w.tx[1..])
  {
    assert v.disp + v.tx[..k + 1] == (v.disp + v.tx[..k]) + [v.tx[k]];
  }

  lemma AllButChunkOn(r: Server, s: Server, t: Server, w: nat)
    requires AllButChunk(r, s, w) && AllButChunk(s, t, w)
    ensures AllButChunk(r, t, w)
  {
  }

  /** One turn of `collect_tx_pkts` is a run: a chunk of the worker's queue goes to the end of the array, in order. */
  lemma {:induction false} CollectIsRun(c: Config, s: Server, r: Server, w: nat, k: nat) returns (t: Server)
    requires GoodConfig(c) && Inv(c, s) && Leads(c, s, r) && r.pc.Ready? && w < c.workers
    requires k <= |Has(r, WorkerTx(w))| && |Has(r, DispTx)| + k <= c.txRing
    ensures Leads(c, s, t) && AllButChunk(r, t, w) && ChunkOf(t, w) == CollectedFirst(ChunkOf(r, w), k)
  {
    if k == 0 {
      t := r;
      assert Has(r, DispTx) + [] == Has(r, DispTx);
    } else {
      t := CollectIsRun(c, s, r, w, k - 1);
      t := CollectMore(c, s, r, t, w, k - 1);
    }
  }

  lemma CanCollect(c: Config, t: Server, w: nat)
    requires Inv(c, t) && t.pc.Ready? && w < c.workers && Has(t, WorkerTx(w)) != [] && |Has(t, DispTx)| < c.txRing
    ensures Enabled(c, t, Collect(w)) && Located(t.ledger) && Flags(t)
  {
  }

  lemma CollectNext(c: Config, s: Server, t: Server, w: nat) returns (u: Server)
    requires GoodConfig(c) && Inv(c, s) && Leads(c, s, t) && t.pc.Ready? && w < c.workers
    requires Has(t, WorkerTx(w)) != [] && |Has(t, DispTx)| < c.txRing
    ensures Leads(c, s, u) && AllButChunk(t, u, w)
    ensures ChunkOf(u, w) == ChunkView(t.flag, Has(t, DispTx) + [Has(t, WorkerTx(w))[0]], Has(t, WorkerTx(w))[1..])
  {
    LeadsKeepsInv(c, s, t);
    CanCollect(c, t, w);
    CollectStep(c, t, w);
    LeadsOn(c, s, t, Collect(w));
    u := Apply(c, t, Collect(w));
  }

  lemma CollectMore(c: Config, s: Server, r: Server, t: Server, w: nat, k: nat) returns (u: Server)
    requires GoodConfig(c) && Inv(c, s) && Leads(c, s, t) && t.pc.Ready? && w < c.workers && AllButChunk(r, t, w)
    requires k < |Has(r, WorkerTx(w))| && |Has(r, DispTx)| + k < c.txRing && ChunkOf(t, w) == CollectedFirst(ChunkOf(r, w), k)
    ensures Leads(c, s, u) && AllButChunk(r, u, w) && ChunkOf(u, w) == CollectedFirst(ChunkOf(r, w), k + 1)
  {
    u := CollectNext(c, s, t, w);
    CollectedNext(ChunkOf(r, w), k);
    AllButChunkOn(r, t, u, w);
  }

  // tx_burst

  /** The fields of the send ring, with the holders they speak of. */
  datatype TxView = TxView(flag: seq<BufState>, disp: seq<nat>, sending: seq<nat>)

  function TxOf(s: Server): TxView { TxView(s.flag, Has(s, DispTx), Has(s, Sending)) }

  /** Workers, the receive ring and the other holders are as they were. */
  ghost predicate Aside(s: Server, t: Server) {
    IndicesOf(t) == IndicesOf(s) && forall p: Place :: !p.DispTx? && !p.Sending? ==> Has(t, p) == Has(s, p)
  }

  lemma CompleteStep(c: Config, t: Server)
    requires Located(t.ledger) && Flags(t) && Enabled(c, t, Complete)
    ensures var u, x := Apply(c, t, Complete), Has(t, Sending);
            x[0] < |t.flag| && Aside(t, u) && TxOf(u) == TxView(t.flag[x[0] := Free], Has(t, DispTx), x[1..])
  {
    StepMoves(c, t, Complete);
    assert MotionOf(c, t, Complete) == Goes(Sending, Has(t, Sending)[0], Unheld);
  }

  lemma SendStep(c: Config, t: Server)
    requires Located(t.ledger) && Flags(t) && Enabled(c, t, Send)
    ensures var u, x := Apply(c, t, Send), Has(t, DispTx);
            x[0] < |t.flag| && Aside(t, u) && TxOf(u) == TxView(t.flag[x[0] := Posted], x[1..], Has(t, Sending) + [x[0]])
  {
    StepMoves(c, t, Send);
    assert MotionOf(c, t, Send) == Goes(DispTx, Has(t, DispTx)[0], Sending);
  }

  /** The k oldest packets on the send ring completed. */
  function CompletedFirst(v: TxView, k: nat): TxView
    requires k <= |v.sending|
  {
    TxView(WithFlags(v.flag, v.sending[..k], Free), v.disp, v.sending[k..])
  }

  lemma CompletedNext(v: TxView, k: nat)
    requires k < |v.sending| && v.sending[k] < |v.flag|
    ensures var w := CompletedFirst(v, k);
            CompletedFirst(v, k + 1) == TxView(w.flag[w.sending[0] := Free], w.disp, w.sending[1..])
  {
    WithFlagsNext(v.flag, v.sending, k, Free);
  }

  /** The first k packets of the dispatcher's array posted. */
  function SentFirst(v: TxView, k: nat): TxView
    requires k <= |v.disp|
  {
    TxView(WithFlags(v.flag, v.disp[..k], Posted), v.disp[k..], v.sending + v.disp[..k])
  }

  lemma SentNext(v: TxView, k: nat)
    requires k < |v.disp| && v.disp[k] < |v.flag|
    ensures var w := SentFirst(v, k);
            SentFirst(v, k + 1) == TxView(w.flag[w.disp[0] := Posted], w.disp[1..], w.sending + [w.disp[0]])
  {
    WithFlagsNext(v.flag, v.disp, k, Posted);
    assert v.sending + v.disp[..k + 1] == (v.sending + v.disp[..k]) + [v.disp[k]];
  }

  lemma CompleteOne(c: Config, s: Server, t: Server) returns (u: Server)
    requires GoodConfig(c) && Inv(c, s) && Leads(c, s, t) && t.pc.Ready? && Has(t, Sending) != []
    ensures Leads(c, s, u) && Aside(t, u) && Has(t, Sending)[0] < |t.flag|
    ensures TxOf(u) == TxView(t.flag[Has(t, Sending)[0] := Free], Has(t, DispTx), Has(t, Sending)[1..])
  {
    LeadsKeepsInv(c, s, t);
    CompleteStep(c, t);
    LeadsOn(c, s, t, Complete);
    u := Apply(c, t, Complete);
  }

  lemma SendOne(c: Config, s: Server, t: Server) returns (u: Server)
    requires GoodConfig(c) && Inv(c, s) && Leads(c, s, t) && t.pc.Ready?
    requires Has(t, DispTx) != [] && |Has(t, Sending)| < c.sendDepth
    ensures Leads(c, s, u) && Aside(t, u) && Has(t, DispTx)[0] < |t.flag|
    ensures TxOf(u) == TxView(t.flag[Has(t, DispTx)[0] := Posted], Has(t, DispTx)[1..], Has(t, Sending) + [Has(t, DispTx)[0]])
  {
    LeadsKeepsInv(c, s, t);
    SendStep(c, t);
    LeadsOn(c, s, t, Send);
    u := Apply(c, t, Send);
  }

  lemma {:induction false} CompleteUpTo(c: Config, s: Server, r: Server, k: nat) returns (t: Server)
    requires GoodConfig(c) && Inv(c, s) && Leads(c, s, r) && r.pc.Ready? && k <= |Has(r, Sending)|
    ensures Leads(c, s, t) && Aside(r, t) && TxOf(t) == CompletedFirst(TxOf(r), k)
  {
    if k == 0 {
      t := r;
    } else {
      t := CompleteUpTo(c, s, r, k - 1);
      t := CompleteOne(c, s, t);
      CompletedNext(TxOf(r), k - 1);
    }
  }

  lemma {:induction false} SendMany(c: Config, s: Server, r: Server, k: nat) returns (t: Server)
    requires GoodConfig(c) && Inv(c, s) && Leads(c, s, r) && r.pc.Ready?
    requires k <= |Has(r, DispTx)| && |Has(r, Sending)| + k <= c.sendDepth
    ensures Leads(c, s, t) && Aside(r, t) && TxOf(t) == SentFirst(TxOf(r), k)
  {
    if k == 0 {
      t := r;
    } else {
      t := SendMany(c, s, r, k - 1);
      t := SendOne(c, s, t);
      SentNext(TxOf(r), k - 1);
    }
  }

  /** `tx_burst` is a run: ret completions free the oldest buffers, and then the next n of the array are posted, as many
      as there are or as fit, as `SendRing.TxBurst` promises. */
  lemma TxBurstIsRun(c: Config, s: Server, ret: nat, n: nat) returns (t: Server)
    requires GoodConfig(c) && Inv(c, s) && s.pc.Ready? && ret <= |Has(s, Sending)|
    requires n <= |Has(s, DispTx)| && |Has(s, Sending)| - ret + n <= c.sendDepth
    ensures Leads(c, s, t) && Aside(s, t)
    ensures TxOf(t) == TxView(WithFlags(WithFlags(s.flag, Has(s, Sending)[..ret], Free), Has(s, DispTx)[..n], Posted),
                              Has(s, DispTx)[n..], Has(s, Sending)[ret..] + Has(s, DispTx)[..n])
  {
    LeadsNowhere(c, s);
    var r := CompleteUpTo(c, s, s, ret);
    t := SendMany(c, s, r, n);
  }

  // The objects follow the server

  /** The receive-ring object has the server's flags, indices and posted buffers. */
  ghost predicate RxMatches(c: Config, s: Server, r: RecvRing)
    reads r, r.flag
  {
    && r.depth == c.depth && r.flag[..] == s.flag && r.nic == Has(s, NicRecv) && s.pc.Ready?
    && r.recvHead == s.recvHead && r.ringHead == s.ringHead && r.waitForDisp == s.waitForDisp
  }

  /** The send-ring object has the server's flags and in-flight buffers; from start on, its array is the server's. */
  ghost predicate TxMatches(c: Config, s: Server, r: SendRing, start: nat)
    reads r, r.flag, r.txQueue
  {
    && r.depth == c.sendDepth && r.flag[..] == s.flag && r.inflight == Has(s, Sending) && s.pc.Ready?
    && start <= r.txQueueIdx <= r.txQueue.Length && r.txQueue[start..r.txQueueIdx] == Has(s, DispTx)
  }

  /** `rx_burst` on the object takes the server along: it ends in a state that a run of the server reaches. */
  method RxBurst(c: Config, ghost s: Server, r: RecvRing, lens: seq<nat>) returns (ret: nat, ghost t: Server)
    requires r.Valid() && GoodConfig(c) && Inv(c, s) && RxMatches(c, s, r)
    requires |lens| <= |r.nic| + FreeRun(r.flag[..], r.recvHead, 0)
    modifies r`nic, r`recvHead, r`waitForDisp, r.flag, r.length, r.wrNext
    ensures r.Valid() && Leads(c, s, t) && RxMatches(c, t, r) && Apart(s, t)
  {
    t := RxBurstIsRun(c, s, |lens|);
    RemainderSmall(r.recvHead, c.depth);
    ret := r.RxBurst(lens);
  }

  /** So does `dispatch_rx_pkts`, for the workers that the rule table picks. */
  method DispatchRxPkts(c: Config, ghost s: Server, r: RecvRing, rules: RuleTable, types: seq<nat>,
                        rxQueues: array<seq<nat>>) returns (total: nat, ghost t: Server)
    requires r.Valid() && GoodConfig(c) && Inv(c, s) && RxMatches(c, s, r)
    requires rxQueues.Length == c.workers && rxQueues[..] == RxQueues(s, c.workers)
    requires |types| == r.waitForDisp > 0 && forall i :: 0 <= i < |types| ==> GoodRoutes(rules.table, types[i], rxQueues.Length)
    modifies r`ringHead, r`waitForDisp, r.flag, rules`selectIdx, rxQueues
    ensures r.Valid() && Leads(c, s, t) && RxMatches(c, t, r) && rxQueues[..] == RxQueues(t, c.workers)
  {
    ghost var routes := Choices(rules.table, rules.selectIdx, types);
    ChoicesInRange(rules.table, rules.selectIdx, types, c.workers);
    t := DispatchIsRun(c, s, routes);
    total := r.DispatchRxPkts(rules, types, rxQueues, c.queueCap);
  }

  lemma {:induction false} ChoicesInRange(table: map<nat, seq<nat>>, selectIdx: nat, types: seq<nat>, k: nat)
    requires forall i :: 0 <= i < |types| ==> GoodRoutes(table, types[i], k)
    ensures forall i :: 0 <= i < |types| ==> Choices(table, selectIdx, types)[i] < k
  {
    if types != [] { ChoicesInRange(table, selectIdx, types[..|types| - 1], k); }
  }

  /** And so does `tx_burst`, whatever the NIC has completed. */
  method TxBurst(c: Config, ghost s: Server, r: SendRing, start: nat) returns (n: nat, ghost t: Server)
    requires r.Valid() && GoodConfig(c) && Inv(c, s) && TxMatches(c, s, r, start)
    modifies r, r.flag, r.swRing, r.wrNext
    ensures r.Valid() && Leads(c, s, t) && Aside(s, t) && start + n <= r.txQueueIdx && TxMatches(c, t, r, start + n)
  {
    ghost var tx, ret := r.txQueue[start..r.txQueueIdx], 0;
    n, ret := Burst(r, start);
    assert r.txQueue[start + n..r.txQueueIdx] == tx[n..] && r.txQueue[start..start + n] == tx[..n];
    t := TxBurstIsRun(c, s, ret, n);
  }

  // tx_flush

  /** k of the buffers in flight and in the array have completed, in order, and all of the array has been sent. */
  ghost predicate FlushedView(v: TxView, u: TxView, k: nat) {
    var all := v.sending + v.disp;
    && k <= |all| && u.disp == [] && u.sending == all[k..] && |u.flag| == |v.flag|
    && forall b :: 0 <= b < |v.flag| ==>
         u.flag[b] == if b in all[k..] then (if b in v.disp then Posted else v.flag[b])
                      else if b in all[..k] then Free else v.flag[b]
  }

  /** A buffer is on one of the send ring and the array, once. */
  lemma SendsDistinct(c: Config, s: Server)
    requires Inv(c, s)
    ensures Distinct(Has(s, Sending) + Has(s, DispTx))
  {
    var x, y := Has(s, Sending), Has(s, DispTx);
    forall i, j | 0 <= i < j < |x| + |y| ensures (x + y)[i] != (x + y)[j] {
      if j < |x| { PlacesDiffer(s.ledger, Sending, i, Sending, j); }
      else if i < |x| { PlacesDiffer(s.ledger, Sending, i, DispTx, j - |x|); }
      else { PlacesDiffer(s.ledger, DispTx, i - |x|, DispTx, j - |x|); }
    }
  }

  lemma NothingToFlush(v: TxView, u: TxView, k: nat)
    requires v.disp == [] && k <= |v.sending| && u == CompletedFirst(v, k) && Distinct(v.sending + v.disp)
    ensures FlushedView(v, u, k)
  {
    assert v.sending + v.disp == v.sending;
    forall b | 0 <= b < |v.flag| ensures u.flag[b] == if b in v.sending[..k] then Free else v.flag[b] {
      WithFlagsAt(v.flag, v.sending[..k], Free, b);
    }
    forall b | b in v.sending[k..] ensures b !in v.sending[..k] {
      var i :| k <= i < |v.sending| && v.sending[i] == b;
      assert forall j :: 0 <= j < k ==> (v.sending + v.disp)[j] == v.sending[j] && (v.sending + v.disp)[i] == b;
    }
  }

  /** A flush that begins by sending one buffer. */
  lemma SentThenFlushed(v: TxView, w: TxView, u: TxView, k: nat)
    requires v.disp != [] && w == TxView(if v.disp[0] < |v.flag| then v.flag[v.disp[0] := Posted] else v.flag,
                                         v.disp[1..], v.sending + [v.disp[0]])
    requires FlushedView(w, u, k) && Distinct(v.sending + v.disp)
    ensures FlushedView(v, u, k)
  {
    assert w.sending + w.disp == v.sending + v.disp;
    assert v.disp == [v.disp[0]] + w.disp;
    var all := v.sending + v.disp;
    assert all == all[..k] + all[k..] && all[|v.sending|] == v.disp[0];
  }

  /** A flush that begins with one completion. */
  lemma CompletedThenFlushed(v: TxView, w: TxView, u: TxView, k: nat)
    requires v.sending != [] && w == TxView(if v.sending[0] < |v.flag| then v.flag[v.sending[0] := Free] else v.flag,
                                            v.disp, v.sending[1..])
    requires k > 0 && FlushedView(w, u, k - 1) && Distinct(v.sending + v.disp)
    ensures FlushedView(v, u, k)
  {
    var x, all, rest := v.sending[0], v.sending + v.disp, w.sending + w.disp;
    assert all == [x] + rest;
    assert all[k..] == rest[k - 1..] && all[..k] == [x] + rest[..k - 1];
    assert forall i :: 0 < i < |all| ==> all[i] != all[0];
  }

  /** The first step of a flush: send if there is room, and otherwise await a completion. */
  lemma FlushFirst(c: Config, s: Server, r: Server, k: nat) returns (p: Server, j: nat)
    requires GoodConfig(c) && Inv(c, s) && Leads(c, s, r) && r.pc.Ready? && c.sendDepth > 0 && Has(r, DispTx) != []
    requires k <= |Has(r, Sending)| + |Has(r, DispTx)| <= c.sendDepth + k
    ensures Leads(c, s, p) && Aside(r, p) && j <= |Has(p, Sending)| + |Has(p, DispTx)| <= c.sendDepth + j
    ensures 2 * |Has(p, DispTx)| + |Has(p, Sending)| < 2 * |Has(r, DispTx)| + |Has(r, Sending)|
    ensures forall u :: FlushedView(TxOf(p), u, j) ==> FlushedView(TxOf(r), u, k)
  {
    LeadsKeepsInv(c, s, r);
    SendsDistinct(c, r);
    if |Has(r, Sending)| < c.sendDepth {
      j := k;
      p := SendOne(c, s, r);
      forall u | FlushedView(TxOf(p), u, k) ensures FlushedView(TxOf(r), u, k) { SentThenFlushed(TxOf(r), TxOf(p), u, k); }
    } else {
      j := k - 1;
      p := CompleteOne(c, s, r);
      forall u | FlushedView(TxOf(p), u, k - 1) ensures FlushedView(TxOf(r), u, k) { CompletedThenFlushed(TxOf(r), TxOf(p), u, k); }
    }
  }

  lemma FlushLast(c: Config, s: Server, r: Server, k: nat) returns (t: Server)
    requires GoodConfig(c) && Inv(c, s) && Leads(c, s, r) && r.pc.Ready? && Has(r, DispTx) == [] && k <= |Has(r, Sending)|
    ensures Leads(c, s, t) && Aside(r, t) && FlushedView(TxOf(r), TxOf(t), k)
  {
    LeadsKeepsInv(c, s, r);
    SendsDistinct(c, r);
    t := CompleteUpTo(c, s, r, k);
    NothingToFlush(TxOf(r), TxOf(t), k);
  }

  /** `tx_flush` is a run: whatever number k of buffers has completed when the array is empty, completions and sends in
      some order lead there. */
  lemma {:induction false} FlushIsRun(c: Config, s: Server, r: Server, k: nat) returns (t: Server)
    requires GoodConfig(c) && Inv(c, s) && Leads(c, s, r) && r.pc.Ready? && c.sendDepth > 0
    requires k <= |Has(r, Sending)| + |Has(r, DispTx)| <= c.sendDepth + k
    ensures Leads(c, s, t) && Aside(r, t) && FlushedView(TxOf(r), TxOf(t), k)
    decreases 2 * |Has(r, DispTx)| + |Has(r, Sending)|
  {
    if Has(r, DispTx) == [] {
      t := FlushLast(c, s, r, k);
    } else {
      var p, j := FlushFirst(c, s, r, k);
      t := FlushIsRun(c, s, p, j);
      AsideOn(r, p, t);
    }
  }

  lemma AsideOn(r: Server, p: Server, t: Server)
    requires Aside(r, p) && Aside(p, t)
    ensures Aside(r, t)
  {
  }

  /** And so does `tx_flush`. */
  method TxFlush(c: Config, ghost s: Server, r: SendRing) returns (total: nat, ghost t: Server)
    requires r.Valid() && GoodConfig(c) && Inv(c, s) && TxMatches(c, s, r, 0)
    modifies r, r.flag, r.swRing, r.wrNext
    ensures r.Valid() && Leads(c, s, t) && Aside(s, t) && r.txQueueIdx == 0 && TxMatches(c, t, r, 0) && total == |Has(s, DispTx)|
  {
    ghost var fly, q, past, was := r.inflight, r.txQueue[..r.txQueueIdx], r.completed, r.flag[..];
    assert r.txQueue[0..r.txQueueIdx] == q;
    SendsDistinct(c, s);
    LeadsNowhere(c, s);
    total := r.TxFlush();
    ghost var done := r.completed[|past|..];
    t := FlushIsRun(c, s, s, |done|);
    FlushAgrees(TxOf(s), TxOf(t), r.flag[..], r.inflight, done);
  }

  lemma FlushAgrees(v: TxView, u: TxView, flag: seq<BufState>, fly: seq<nat>, done: seq<nat>)
    requires FlushedView(v, u, |done|) && |flag| == |v.flag| && done + fly == v.sending + v.disp
    requires forall b :: 0 <= b < |flag| ==>
               flag[b] == if b in fly then (if b in v.disp then Posted else v.flag[b]) else if b in done then Free else v.flag[b]
    ensures u.flag == flag && u.sending == fly
  {
    assert (done + fly)[|done|..] == fly && (done + fly)[..|done|] == done;
  }

  /** The burst, with what it leaves in flight. */
  method Burst(r: SendRing, start: nat) returns (n: nat, ghost ret: nat)
    requires r.Valid() && start <= r.txQueueIdx
    modifies r, r.flag, r.swRing, r.wrNext
    ensures r.Valid() && r.txQueueIdx == old(r.txQueueIdx) && start + n <= r.txQueueIdx && ret <= |old(r.inflight)|
    ensures r.inflight == old(r.inflight)[ret..] + r.txQueue[start..start + n]
    ensures r.flag[..] == WithFlags(WithFlags(old(r.flag[..]), old(r.inflight)[..ret], Free), r.txQueue[start..start + n], Posted)
  {
    ghost var done := r.completed;
    n := r.TxBurst(start, r.txQueueIdx - start);
    ret := |r.completed| - |done|;
  }
}
