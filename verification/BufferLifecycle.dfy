/** The life of a receive-ring buffer on the server. */
module BufferLifecycle {
  // At the grain of single reads and writes: one dispatcher thread and any number of worker threads take
  // steps in any order. The worker reuses the request's buffer for the response (`ApplyNewMbuf` is false);
  // worker queues are FIFO queues of bounded capacity, which is what module Spsc proves of them.

  import opened Circular
  import opened Ledger

  /** The byte `state_` of a buffer. */
  datatype BufState = Posted | AppOwned | Free

  datatype Config = Config(
    depth: nat,         // kRQDepth
    workers: nat,
    queueCap: nat,      // kWsQueueSize - 1
    txRing: nat,        // kNumTxRingEntries, the capacity of tx_queue_
    sendDepth: nat,     // kSQDepth
    msgThreshold: nat,  // kAppRxMsgBatchSize
    reqPkts: nat,       // packets in a request
    respPkts: nat)      // packets in a response

  /** The compile-time facts: a ring is not empty, a request has a packet, and a response fits in the
      packets of its request. */
  predicate GoodConfig(c: Config) {
    c.depth > 0 && c.reqPkts > 0 && c.respPkts <= c.reqPkts
  }

  /** Where the dispatcher is. `Marking(b)` lies between the enqueue of b and the write of APP_OWNED. */
  datatype DispatcherPc = Ready | Reposting | Posting | Dispatching | Marking(b: nat)

  /** `Gathering`: buffers still to dequeue for this batch of messages. `Replying`: responses still to
      enqueue; what is left in hand after the last one is surplus. */
  datatype WorkerPc = Gathering(left: nat, msgs: nat) | Replying(left: nat)

  datatype Server = Server(
    flag: seq<BufState>,
    ledger: Ledger,
    recvHead: nat,
    ringHead: nat,
    waitForDisp: nat,
    cursor: nat,
    pc: DispatcherPc,
    worker: seq<WorkerPc>)

  datatype Step =
    | RepostNext | PostOne | PollOne
    | DispatchTo(w: nat) | MarkAppOwned | EndDispatch
    | Collect(w: nat) | Complete | Send
    | Begin(w: nat) | Take(w: nat) | Reply(w: nat) | Trim(w: nat)

  function Has(s: Server, p: Place): seq<nat> {
    Held(s.ledger, p)
  }

  /** The entry the repost loop looks at. */
  function NextEntry(c: Config, s: Server): nat
    requires c.depth > 0
  {
    (s.recvHead + |Has(s, Marked)|) % c.depth
  }

  predicate Shape(c: Config, s: Server) {
    && c.depth > 0 && |s.flag| == c.depth && |s.ledger.where| == c.depth && |s.worker| == c.workers
    && (s.pc.Marking? ==> s.pc.b < c.depth)
  }

  predicate Enabled(c: Config, s: Server, step: Step) {
    && Shape(c, s)
    && match step
       case RepostNext => (s.pc.Ready? || s.pc.Reposting?) && s.flag[NextEntry(c, s)].Free?
       case PostOne => (s.pc.Posting? || (s.pc.Reposting? && !s.flag[NextEntry(c, s)].Free?)) && Has(s, Marked) != []
       case PollOne => s.pc.Ready? && Has(s, NicRecv) != []
       case DispatchTo(w) =>
         && (s.pc.Ready? || s.pc.Dispatching?) && s.cursor < s.waitForDisp && w < c.workers
         && Has(s, Waiting) != []
       case MarkAppOwned => s.pc.Marking?
       case EndDispatch => s.pc.Dispatching? && s.cursor == s.waitForDisp
       case Collect(w) => s.pc.Ready? && w < c.workers && Has(s, WorkerTx(w)) != [] && |Has(s, DispTx)| < c.txRing
       case Complete => s.pc.Ready? && Has(s, Sending) != []
       case Send => s.pc.Ready? && Has(s, DispTx) != [] && |Has(s, Sending)| < c.sendDepth
       case Begin(w) =>
         && w < c.workers && s.worker[w] == Replying(0) && Has(s, WorkerHand(w)) == [] && c.reqPkts > 0
         && |Has(s, WorkerRx(w))| / c.reqPkts >= c.msgThreshold
       case Take(w) => w < c.workers && s.worker[w].Gathering? && s.worker[w].left > 0
       case Reply(w) =>
         w < c.workers && s.worker[w].Replying? && s.worker[w].left > 0 && Has(s, WorkerHand(w)) != []
       case Trim(w) => w < c.workers && s.worker[w] == Replying(0) && Has(s, WorkerHand(w)) != []
  }

  /** A step moves at most one buffer. */
  datatype Motion = Still | Goes(from: Place, x: nat, to: Place)

  function FirstGoes(s: Server, from: Place, to: Place): Motion {
    if Has(s, from) == [] then Still else Goes(from, Has(s, from)[0], to)
  }

  function MotionOf(c: Config, s: Server, step: Step): Motion
    requires Enabled(c, s, step)
  {
    match step
    case RepostNext => Goes(Unheld, NextEntry(c, s), Marked)
    case PostOne => FirstGoes(s, Marked, NicRecv)
    case PollOne => FirstGoes(s, NicRecv, Waiting)
    case DispatchTo(w) =>
      FirstGoes(s, Waiting, if |Has(s, WorkerRx(w))| < c.queueCap then WorkerRx(w) else Unheld)
    case MarkAppOwned =>
      // Overwriting a FREE that a worker has written in the meantime loses the buffer.
      if s.flag[s.pc.b].Free? then Goes(Unheld, s.pc.b, Lost) else Still
    case EndDispatch => Still
    case Collect(w) => FirstGoes(s, WorkerTx(w), DispTx)
    case Complete => FirstGoes(s, Sending, Unheld)
    case Send => FirstGoes(s, DispTx, Sending)
    case Begin(w) => Still
    case Take(w) => FirstGoes(s, WorkerRx(w), WorkerHand(w))
    case Reply(w) => FirstGoes(s, WorkerHand(w), if |Has(s, WorkerTx(w))| < c.queueCap then WorkerTx(w) else Unheld)
    case Trim(w) => FirstGoes(s, WorkerHand(w), Unheld)
  }

  /** The flag of a buffer that has just arrived at a place: dropping, trimming and completing write FREE,
      reposting and sending write POSTED, a queue operation writes nothing. */
  function FlagOnArrival(f: BufState, to: Place): BufState {
    match to
    case Unheld => Free
    case Marked => Posted
    case Sending => Posted
    case _ => f
  }

  function LedgerAfter(c: Config, s: Server, step: Step): Ledger
    requires Enabled(c, s, step)
  {
    match MotionOf(c, s, step)
    case Still => s.ledger
    case Goes(from, x, to) => Transfer(s.ledger, from, x, to)
  }

  function FlagsAfter(c: Config, s: Server, step: Step): seq<BufState>
    requires Enabled(c, s, step)
  {
    if step.MarkAppOwned? then s.flag[s.pc.b := AppOwned] else
    match MotionOf(c, s, step)
    case Still => s.flag
    case Goes(from, x, to) => if x < |s.flag| then s.flag[x := FlagOnArrival(s.flag[x], to)] else s.flag
  }

  function PcAfter(c: Config, s: Server, step: Step): DispatcherPc
    requires Enabled(c, s, step)
  {
    match step
    case RepostNext => Reposting
    case PostOne => if |Has(s, Marked)| == 1 then Ready else Posting
    case DispatchTo(w) => if |Has(s, WorkerRx(w))| < c.queueCap then Marking(Has(s, Waiting)[0]) else Dispatching
    case MarkAppOwned => Dispatching
    case EndDispatch => Ready
    case _ => s.pc
  }

  /** Once its messages are gathered, the handler starts to reply. */
  function Gather(c: Config, left: nat, msgs: nat): WorkerPc {
    if left == 0 then Replying(msgs * c.respPkts) else Gathering(left, msgs)
  }

  function WorkersAfter(c: Config, s: Server, step: Step): seq<WorkerPc>
    requires Enabled(c, s, step)
  {
    match step
    case Begin(w) =>
      var msgs := |Has(s, WorkerRx(w))| / c.reqPkts;
      s.worker[w := Gather(c, msgs * c.reqPkts, msgs)]
    case Take(w) =>
      if Has(s, WorkerRx(w)) == [] then s.worker  // a null dequeue; TakeNeverFails shows it cannot happen
      else s.worker[w := Gather(c, s.worker[w].left - 1, s.worker[w].msgs)]
    case Reply(w) => s.worker[w := Replying(s.worker[w].left - 1)]
    case _ => s.worker
  }

  function Apply(c: Config, s: Server, step: Step): Server
    requires Enabled(c, s, step)
  {
    Server(
      flag := FlagsAfter(c, s, step),
      ledger := LedgerAfter(c, s, step),
      recvHead := if step.PostOne? then (s.recvHead + 1) % c.depth else s.recvHead,
      ringHead := if step.EndDispatch? then (s.ringHead + s.waitForDisp) % c.depth else s.ringHead,
      waitForDisp := if step.PollOne? then s.waitForDisp + 1 else if step.EndDispatch? then 0 else s.waitForDisp,
      cursor := if step.DispatchTo? then s.cursor + 1 else if step.EndDispatch? then 0 else s.cursor,
      pc := PcAfter(c, s, step),
      worker := WorkersAfter(c, s, step))
  }

  /** Steps of a worker; all others but the NIC's are the dispatcher's. */
  predicate IsWorker(step: Step) {
    step.Begin? || step.Take? || step.Reply? || step.Trim?
  }

  predicate Runs(c: Config, s: Server, steps: seq<Step>)
    decreases |steps|
  {
    steps == [] || (Enabled(c, s, steps[0]) && Runs(c, Apply(c, s, steps[0]), steps[1..]))
  }

  function Exec(c: Config, s: Server, steps: seq<Step>): Server
    requires Runs(c, s, steps)
    decreases |steps|
  {
    if steps == [] then s else Exec(c, Apply(c, s, steps[0]), steps[1..])
  }

  /** After initialisation every ring buffer is posted, and all indices are zero. */
  function Init(c: Config): Server
    requires c.depth > 0
  {
    Server(seq(c.depth, _ => Posted),
           Ledger(map[NicRecv := Arc(0, c.depth, c.depth)], seq(c.depth, _ => NicRecv)),
           0, 0, 0, 0, Ready, seq(c.workers, _ => Replying(0)))
  }

  /** The flag a buffer must have at a place; `marking` says that the dispatcher is between the enqueue
      of this buffer and the write of APP_OWNED. */
  predicate FlagFits(f: BufState, p: Place, marking: bool) {
    match p
    case Unheld => f == Free
    case WorkerRx(_) => f == if marking then Posted else AppOwned
    case WorkerHand(_) => f == if marking then Posted else AppOwned
    case WorkerTx(_) => f == if marking then Posted else AppOwned
    case Lost => f == AppOwned && !marking
    case DispTx => f == AppOwned && !marking
    case _ => f == Posted && !marking
  }

  predicate Flags(s: Server) {
    && |s.flag| == |s.ledger.where|
    && forall b :: 0 <= b < |s.flag| ==> FlagFits(s.flag[b], s.ledger.where[b], s.pc == Marking(b))
  }

  /** The circular interval from `ring_head_`: waiting, posted and marked buffers, up to `recv_head_`. */
  predicate Geometry(c: Config, s: Server) {
    var w, p, m := |Has(s, Waiting)|, |Has(s, NicRecv)|, |Has(s, Marked)|;
    && c.depth > 0 && s.cursor <= s.waitForDisp && w == s.waitForDisp - s.cursor
    && Has(s, Waiting) + Has(s, NicRecv) + Has(s, Marked) == Arc(s.ringHead + s.cursor, w + p + m, c.depth)
    && s.recvHead == (s.ringHead + s.waitForDisp + p) % c.depth
    && (s.pc.Dispatching? || s.pc.Marking? || s.cursor == 0)
    && (s.pc.Reposting? || s.pc.Posting? <==> m > 0)
  }

  predicate DeskFits(c: Config, pc: WorkerPc, rx: nat, hand: nat) {
    match pc
    case Gathering(left, msgs) => 0 < left <= rx && hand + left == msgs * c.reqPkts
    case Replying(left) => left <= hand
  }

  /** What each worker has in hand is what its batch needs. */
  predicate Desks(c: Config, s: Server) {
    && |s.worker| == c.workers
    && forall w :: 0 <= w < c.workers ==>
         DeskFits(c, s.worker[w], |Has(s, WorkerRx(w))|, |Has(s, WorkerHand(w))|)
  }

  predicate Capacities(c: Config, s: Server) {
    && |Has(s, DispTx)| <= c.txRing && |Has(s, Sending)| <= c.sendDepth
    && forall w :: 0 <= w < c.workers ==> |Has(s, WorkerRx(w))| <= c.queueCap && |Has(s, WorkerTx(w))| <= c.queueCap
  }

  ghost predicate Inv(c: Config, s: Server) {
    Shape(c, s) && Consistent(s.ledger) && Flags(s) && Geometry(c, s) && Desks(c, s) && Capacities(c, s)
  }

  lemma InitHeld(c: Config, p: Place)
    requires c.depth > 0
    ensures Held(Init(c).ledger, p) == if p == NicRecv then Arc(0, c.depth, c.depth) else []
  {
  }

  lemma InitLedger(c: Config)
    requires c.depth > 0
    ensures Consistent(Init(c).ledger)
  {
    var l := Init(c).ledger;
    forall p ensures Held(l, p) == if p == NicRecv then Arc(0, c.depth, c.depth) else [] { InitHeld(c, p); }
    ArcDistinct(0, c.depth, c.depth);
    forall b | 0 <= b < c.depth ensures b in Held(l, NicRecv) {
      var i := FullArcCovers(0, b, c.depth);
      assert Held(l, NicRecv)[i] == b;
    }
  }

  lemma InitInv(c: Config)
    requires c.depth > 0
    ensures Inv(c, Init(c))
  {
    InitLedger(c);
    forall p ensures Has(Init(c), p) == if p == NicRecv then Arc(0, c.depth, c.depth) else [] { InitHeld(c, p); }
    RemainderSmall(c.depth, c.depth);
  }

  /** The place of a holder's first buffer is that holder. */
  lemma FirstIsLocated(l: Ledger, p: Place)
    requires Located(l) && Held(l, p) != []
    ensures Held(l, p)[0] < |l.where| && l.where[Held(l, p)[0]] == p
  {
  }

  /** A step that moves a buffer takes it from where it is. */
  lemma MotionStartsAtPlace(c: Config, s: Server, step: Step)
    requires Enabled(c, s, step) && Located(s.ledger) && Flags(s)
    ensures match MotionOf(c, s, step)
            case Still => true
            case Goes(from, x, to) =>
              x < |s.flag| && s.ledger.where[x] == from && from != to
              && (IsHolder(from) ==> Has(s, from) != [] && x == Has(s, from)[0])
  {
    var m := MotionOf(c, s, step);
    if m.Goes? && IsHolder(m.from) { FirstIsLocated(s.ledger, m.from); }
  }

  lemma StepTransfers(c: Config, s: Server, step: Step)
    requires Enabled(c, s, step) && Located(s.ledger) && Flags(s) && MotionOf(c, s, step).Goes?
    ensures var m := MotionOf(c, s, step);
            Transfers(s.ledger, LedgerAfter(c, s, step), m.from, m.x, m.to) && s.ledger.where[m.x] == m.from
  {
    var m := MotionOf(c, s, step);
    MotionStartsAtPlace(c, s, step);
    TransferEffect(s.ledger, m.from, m.x, m.to);
  }

  lemma StepKeepsLedger(c: Config, s: Server, step: Step)
    requires Enabled(c, s, step) && Consistent(s.ledger) && Flags(s)
    ensures Consistent(LedgerAfter(c, s, step))
  {
    var m := MotionOf(c, s, step);
    if m.Goes? {
      StepTransfers(c, s, step);
      TransferKeepsConsistent(s.ledger, LedgerAfter(c, s, step), m.from, m.x, m.to);
    }
  }

  lemma OneBufferKeepsFlags(s: Server, t: Server, b: nat)
    requires Flags(s) && |t.flag| == |s.flag| && |t.ledger.where| == |s.ledger.where|
    requires forall x :: 0 <= x < |s.flag| && x != b ==>
      t.flag[x] == s.flag[x] && t.ledger.where[x] == s.ledger.where[x] && (t.pc == Marking(x) <==> s.pc == Marking(x))
    requires b < |t.flag| ==> FlagFits(t.flag[b], t.ledger.where[b], t.pc == Marking(b))
    ensures Flags(t)
  {
  }

  lemma MarkingKeepsFlags(c: Config, s: Server)
    requires Enabled(c, s, MarkAppOwned) && Flags(s)
    ensures Flags(Apply(c, s, MarkAppOwned))
  {
    OneBufferKeepsFlags(s, Apply(c, s, MarkAppOwned), s.pc.b);
  }

  lemma TransferKeepsFlags(s: Server, t: Server, from: Place, x: nat, to: Place)
    requires Flags(s) && Transfers(s.ledger, t.ledger, from, x, to) && s.ledger.where[x] == from
    requires |t.flag| == |s.flag| && t.flag == s.flag[x := FlagOnArrival(s.flag[x], to)]
    requires forall y :: y != x ==> (t.pc == Marking(y) <==> s.pc == Marking(y))
    requires FlagFits(t.flag[x], to, t.pc == Marking(x))
    ensures Flags(t)
  {
    OneBufferKeepsFlags(s, t, x);
  }

  lemma MovingKeepsFlags(c: Config, s: Server, step: Step)
    requires Enabled(c, s, step) && Located(s.ledger) && Flags(s) && !step.MarkAppOwned? && MotionOf(c, s, step).Goes?
    ensures Flags(Apply(c, s, step))
  {
    var m := MotionOf(c, s, step);
    StepTransfers(c, s, step);
    ArrivalFits(c, s, step);
    TransferKeepsFlags(s, Apply(c, s, step), m.from, m.x, m.to);
  }

  lemma StepKeepsFlags(c: Config, s: Server, step: Step)
    requires Enabled(c, s, step) && Located(s.ledger) && Flags(s)
    ensures Flags(Apply(c, s, step))
  {
    var m := MotionOf(c, s, step);
    if step.MarkAppOwned? {
      MarkingKeepsFlags(c, s);
    } else if m.Goes? {
      MovingKeepsFlags(c, s, step);
    } else {
      OneBufferKeepsFlags(s, Apply(c, s, step), c.depth);
    }
  }

  lemma ArrivalFits(c: Config, s: Server, step: Step)
    requires Enabled(c, s, step) && !step.MarkAppOwned? && MotionOf(c, s, step).Goes?
    requires var m := MotionOf(c, s, step);
             m.x < |s.flag| && FlagFits(s.flag[m.x], m.from, s.pc == Marking(m.x))
    ensures var m := MotionOf(c, s, step);
            FlagFits(FlagOnArrival(s.flag[m.x], m.to), m.to, PcAfter(c, s, step) == Marking(m.x))
  {
  }

  lemma WindowKeepsGeometry(c: Config, s: Server, t: Server)
    requires Geometry(c, s)
    requires Has(t, Waiting) == Has(s, Waiting) && Has(t, NicRecv) == Has(s, NicRecv) && Has(t, Marked) == Has(s, Marked)
    requires t.recvHead == s.recvHead && t.ringHead == s.ringHead && t.waitForDisp == s.waitForDisp && t.cursor == s.cursor
    requires t.pc == s.pc || (s.pc.Marking? && t.pc.Dispatching?)
    ensures Geometry(c, t)
  {
  }

  lemma RepostKeepsGeometry(c: Config, s: Server)
    requires Enabled(c, s, RepostNext) && Geometry(c, s)
    requires Transfers(s.ledger, LedgerAfter(c, s, RepostNext), Unheld, NextEntry(c, s), Marked)
    ensures Geometry(c, Apply(c, s, RepostNext))
  {
    var t := Apply(c, s, RepostNext);
    NextEntryExtends(c, s);
    assert Has(t, Waiting) == Has(s, Waiting) && Has(t, NicRecv) == Has(s, NicRecv);
    assert Has(t, Waiting) + Has(t, NicRecv) + Has(t, Marked)
        == Has(s, Waiting) + Has(s, NicRecv) + Has(s, Marked) + [NextEntry(c, s)];
  }

  /** The entry that the repost loop looks at is the one after the window. */
  lemma NextEntryExtends(c: Config, s: Server)
    requires Geometry(c, s)
    ensures var n := |Has(s, Waiting)| + |Has(s, NicRecv)| + |Has(s, Marked)|;
            Arc(s.ringHead + s.cursor, n + 1, c.depth) == Arc(s.ringHead + s.cursor, n, c.depth) + [NextEntry(c, s)]
  {
    var w, p, m := |Has(s, Waiting)|, |Has(s, NicRecv)|, |Has(s, Marked)|;
    EntryPast(s.ringHead + s.waitForDisp + p, m, c.depth, s.recvHead, NextEntry(c, s));
    ArcNext(s.ringHead + s.cursor, w + p + m, c.depth, s.ringHead + s.waitForDisp + p + m, NextEntry(c, s));
  }

  lemma EntryPast(a: nat, m: nat, d: nat, head: nat, entry: nat)
    requires d > 0 && head == a % d && entry == (head + m) % d
    ensures entry == (a + m) % d
  {
    RemainderAdd(a, m, d);
  }

  lemma ArcNext(start: nat, n: nat, d: nat, end: nat, entry: nat)
    requires d > 0 && end == start + n && entry == end % d
    ensures Arc(start, n + 1, d) == Arc(start, n, d) + [entry]
  {
  }

  lemma PostKeepsGeometry(c: Config, s: Server)
    requires Enabled(c, s, PostOne) && Geometry(c, s)
    requires Transfers(s.ledger, LedgerAfter(c, s, PostOne), Marked, Has(s, Marked)[0], NicRecv)
    ensures Geometry(c, Apply(c, s, PostOne))
  {
    RemainderAdd(s.ringHead + s.waitForDisp + |Has(s, NicRecv)|, 1, c.depth);
    var t := Apply(c, s, PostOne);
    assert Has(t, Waiting) == Has(s, Waiting);
    assert Has(t, Waiting) + Has(t, NicRecv) + Has(t, Marked)
        == Has(s, Waiting) + Has(s, NicRecv) + Has(s, Marked);
  }

  lemma PollKeepsGeometry(c: Config, s: Server)
    requires Enabled(c, s, PollOne) && Geometry(c, s)
    requires Transfers(s.ledger, LedgerAfter(c, s, PollOne), NicRecv, Has(s, NicRecv)[0], Waiting)
    ensures Geometry(c, Apply(c, s, PollOne))
  {
    var t := Apply(c, s, PollOne);
    assert Has(t, Marked) == Has(s, Marked);
    assert Has(t, Waiting) + Has(t, NicRecv) == Has(s, Waiting) + Has(s, NicRecv);
  }

  lemma DispatchKeepsGeometry(c: Config, s: Server, w: nat)
    requires Enabled(c, s, DispatchTo(w)) && Geometry(c, s)
    requires Transfers(s.ledger, LedgerAfter(c, s, DispatchTo(w)), Waiting, Has(s, Waiting)[0], MotionOf(c, s, DispatchTo(w)).to)
    ensures Geometry(c, Apply(c, s, DispatchTo(w)))
  {
    var t := Apply(c, s, DispatchTo(w));
    assert Has(t, NicRecv) == Has(s, NicRecv) && Has(t, Marked) == Has(s, Marked);
    var n := |Has(s, Waiting)| + |Has(s, NicRecv)| + |Has(s, Marked)|;
    ArcRest(s.ringHead + s.cursor, n, c.depth);
    WithoutFirst(Has(s, Waiting), Has(s, NicRecv), Has(s, Marked));
  }

  lemma ArcRest(start: nat, n: nat, d: nat)
    requires d > 0 && n > 0
    ensures Arc(start, n, d)[1..] == Arc(start + 1, n - 1, d)
  {
    ArcFrom(start, 1, n, d);
    ArcReduced(start + 1, n - 1, d);
  }

  lemma WithoutFirst(x: seq<nat>, y: seq<nat>, z: seq<nat>)
    requires x != []
    ensures x[1..] + y + z == (x + y + z)[1..]
  {
  }

  lemma EndDispatchKeepsGeometry(c: Config, s: Server)
    requires Enabled(c, s, EndDispatch) && Geometry(c, s)
    ensures Geometry(c, Apply(c, s, EndDispatch))
  {
    RemainderAdd(s.ringHead + s.waitForDisp, |Has(s, NicRecv)|, c.depth);
    ArcReduced(s.ringHead + s.waitForDisp, |Has(s, NicRecv)|, c.depth);
    assert Has(s, Waiting) == [] && Has(s, Marked) == [];
  }

  lemma StepKeepsGeometry(c: Config, s: Server, step: Step)
    requires Enabled(c, s, step) && Located(s.ledger) && Flags(s) && Geometry(c, s)
    ensures Geometry(c, Apply(c, s, step))
  {
    var m := MotionOf(c, s, step);
    if m.Goes? { StepTransfers(c, s, step); }
    if step.RepostNext? { RepostKeepsGeometry(c, s); }
    else if step.PostOne? { PostKeepsGeometry(c, s); }
    else if step.PollOne? { PollKeepsGeometry(c, s); }
    else if step.DispatchTo? { DispatchKeepsGeometry(c, s, step.w); }
    else if step.EndDispatch? { EndDispatchKeepsGeometry(c, s); }
    else { WindowKeepsGeometry(c, s, Apply(c, s, step)); }
  }

  lemma BeginKeepsDesks(c: Config, s: Server, w: nat)
    requires GoodConfig(c) && Enabled(c, s, Begin(w)) && Desks(c, s)
    ensures Desks(c, Apply(c, s, Begin(w)))
  {
    WholeMessages(|Has(s, WorkerRx(w))|, c.reqPkts);
    Proportion(|Has(s, WorkerRx(w))| / c.reqPkts, c.respPkts, c.reqPkts);
  }

  lemma TakeKeepsDesks(c: Config, s: Server, w: nat)
    requires GoodConfig(c) && Enabled(c, s, Take(w)) && Desks(c, s) && Has(s, WorkerRx(w)) != []
    requires Transfers(s.ledger, LedgerAfter(c, s, Take(w)), WorkerRx(w), Has(s, WorkerRx(w))[0], WorkerHand(w))
    ensures Desks(c, Apply(c, s, Take(w)))
  {
    TakenDesks(c, s, Apply(c, s, Take(w)), w, Has(s, WorkerRx(w))[0]);
  }

  lemma TakenDesks(c: Config, s: Server, t: Server, w: nat, x: nat)
    requires GoodConfig(c) && Desks(c, s) && w < c.workers && s.worker[w].Gathering? && s.worker[w].left > 0
    requires Transfers(s.ledger, t.ledger, WorkerRx(w), x, WorkerHand(w))
    requires t.worker == s.worker[w := Gather(c, s.worker[w].left - 1, s.worker[w].msgs)]
    ensures Desks(c, t)
  {
    Proportion(s.worker[w].msgs, c.respPkts, c.reqPkts);
    assert DeskFits(c, s.worker[w], |Has(s, WorkerRx(w))|, |Has(s, WorkerHand(w))|);
  }

  lemma HandKeepsDesks(c: Config, s: Server, step: Step, to: Place)
    requires Enabled(c, s, step) && (step.Reply? || step.Trim?) && Desks(c, s)
    requires var hand := WorkerHand(step.w);
             Transfers(s.ledger, LedgerAfter(c, s, step), hand, Has(s, hand)[0], to) && !to.WorkerRx? && !to.WorkerHand?
    ensures Desks(c, Apply(c, s, step))
  {
    HandedDesks(c, s, Apply(c, s, step), step.w, Has(s, WorkerHand(step.w))[0], to);
  }

  lemma HandedDesks(c: Config, s: Server, t: Server, w: nat, x: nat, to: Place)
    requires Desks(c, s) && w < c.workers && s.worker[w].Replying? && !to.WorkerRx? && !to.WorkerHand?
    requires Transfers(s.ledger, t.ledger, WorkerHand(w), x, to)
    requires t.worker == s.worker[w := Replying(if s.worker[w].left > 0 then s.worker[w].left - 1 else 0)]
    ensures Desks(c, t)
  {
    assert DeskFits(c, s.worker[w], |Has(s, WorkerRx(w))|, |Has(s, WorkerHand(w))|);
  }

  lemma DispatcherKeepsDesks(c: Config, s: Server, t: Server)
    requires Desks(c, s) && t.worker == s.worker
    requires forall w :: 0 <= w < c.workers ==>
      |Has(t, WorkerRx(w))| >= |Has(s, WorkerRx(w))| && Has(t, WorkerHand(w)) == Has(s, WorkerHand(w))
    ensures Desks(c, t)
  {
    forall w | 0 <= w < c.workers
      ensures DeskFits(c, t.worker[w], |Has(t, WorkerRx(w))|, |Has(t, WorkerHand(w))|)
    {
      assert DeskFits(c, s.worker[w], |Has(s, WorkerRx(w))|, |Has(s, WorkerHand(w))|);
    }
  }

  lemma TransferKeepsDesks(c: Config, s: Server, t: Server, from: Place, x: nat, to: Place)
    requires Desks(c, s) && t.worker == s.worker && Transfers(s.ledger, t.ledger, from, x, to)
    requires !from.WorkerRx? && !from.WorkerHand? && !to.WorkerHand?
    ensures Desks(c, t)
  {
    DispatcherKeepsDesks(c, s, t);
  }

  lemma StepKeepsDesks(c: Config, s: Server, step: Step)
    requires GoodConfig(c) && Enabled(c, s, step) && Located(s.ledger) && Flags(s) && Desks(c, s)
    ensures Desks(c, Apply(c, s, step))
  {
    var m := MotionOf(c, s, step);
    if m.Goes? { StepTransfers(c, s, step); }
    if step.Begin? { BeginKeepsDesks(c, s, step.w); }
    else if step.Take? && m.Goes? { TakeKeepsDesks(c, s, step.w); }
    else if step.Reply? || step.Trim? { HandKeepsDesks(c, s, step, m.to); }
    else if m.Goes? { TransferKeepsDesks(c, s, Apply(c, s, step), m.from, m.x, m.to); }
    else { DispatcherKeepsDesks(c, s, Apply(c, s, step)); }
  }

  lemma WholeMessages(size: nat, a: nat)
    requires a > 0
    ensures (size / a) * a <= size
  {
  }

  lemma Proportion(m: nat, b: nat, a: nat)
    requires b <= a
    ensures m * b <= m * a
  {
  }

  lemma TransferKeepsCapacities(c: Config, s: Server, t: Server, from: Place, x: nat, to: Place)
    requires Capacities(c, s) && Transfers(s.ledger, t.ledger, from, x, to)
    requires to.WorkerRx? || to.WorkerTx? ==> |Has(s, to)| < c.queueCap
    requires to.DispTx? ==> |Has(s, to)| < c.txRing
    requires to.Sending? ==> |Has(s, to)| < c.sendDepth
    ensures Capacities(c, t)
  {
  }

  lemma StepKeepsCapacities(c: Config, s: Server, step: Step)
    requires Enabled(c, s, step) && Located(s.ledger) && Flags(s) && Capacities(c, s)
    ensures Capacities(c, Apply(c, s, step))
  {
    var m := MotionOf(c, s, step);
    if m.Goes? {
      StepTransfers(c, s, step);
      TransferKeepsCapacities(c, s, Apply(c, s, step), m.from, m.x, m.to);
    } else {
      assert LedgerAfter(c, s, step) == s.ledger;
    }
  }

  lemma StepKeepsShape(c: Config, s: Server, step: Step)
    requires Enabled(c, s, step) && Located(s.ledger)
    ensures Shape(c, Apply(c, s, step))
  {
    if step.DispatchTo? { FirstIsLocated(s.ledger, Waiting); }
  }

  lemma StepKeepsInv(c: Config, s: Server, step: Step)
    requires GoodConfig(c) && Enabled(c, s, step) && Inv(c, s)
    ensures Inv(c, Apply(c, s, step))
  {
    StepKeepsShape(c, s, step);
    StepKeepsLedger(c, s, step);
    StepKeepsFlags(c, s, step);
    StepKeepsGeometry(c, s, step);
    StepKeepsDesks(c, s, step);
    StepKeepsCapacities(c, s, step);
  }
}
