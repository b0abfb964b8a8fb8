/** A worker's batch is a sequence of the server's steps. */
module WorkerSteps {
  // `app_handler` of a server (`src/workspace.h:186-241`, `src/ws_impl/msg_handlers.cc:172-224`) at the grain of
  // BufferLifecycle's steps: first run without interruption, then with the other threads' steps in between.

  import opened MathUtils
  import opened Ledger
  import opened BufferLifecycle
  import opened BufferTheorems
  import opened SendRing

  /** Worker w alone can take the server from s to t. */
  ghost predicate Works(c: Config, s: Server, t: Server, w: nat) {
    exists steps :: Runs(c, s, steps) && t == Exec(c, s, steps) && forall st :: st in steps ==> IsWorker(st) && st.w == w
  }

  lemma WorksOn(c: Config, s: Server, t: Server, step: Step)
    requires IsWorker(step) && Works(c, s, t, step.w) && Enabled(c, t, step)
    ensures Works(c, s, Apply(c, t, step), step.w)
  {
    var w := step.w;
    var steps :| Runs(c, s, steps) && t == Exec(c, s, steps) && forall st :: st in steps ==> IsWorker(st) && st.w == w;
    OneMoreStep(c, s, steps, step);
    OnlyBy(steps, step);
  }

  lemma OnlyBy(steps: seq<Step>, step: Step)
    requires IsWorker(step) && forall st :: st in steps ==> IsWorker(st) && st.w == step.w
    ensures forall st :: st in steps + [step] ==> IsWorker(st) && st.w == step.w
  {
  }

  lemma WorksKeepsInv(c: Config, s: Server, t: Server, w: nat)
    requires GoodConfig(c) && Inv(c, s) && Works(c, s, t, w)
    ensures Inv(c, t)
  {
    var steps :| Runs(c, s, steps) && t == Exec(c, s, steps) && forall st :: st in steps ==> IsWorker(st) && st.w == w;
    RunKeepsInv(c, s, steps);
  }

  /** A worker never has a choice of steps. */
  lemma OneStepAtATime(c: Config, s: Server, x: Step, y: Step)
    requires Enabled(c, s, x) && Enabled(c, s, y) && IsWorker(x) && IsWorker(y) && x.w == y.w
    ensures x == y
  {
  }

  /** What worker w's steps touch: the flags, its queues and hand, and its place in the batch. */
  datatype Desk = Desk(flag: seq<BufState>, rx: seq<nat>, hand: seq<nat>, tx: seq<nat>, pc: WorkerPc)

  function DeskOf(s: Server, w: nat): Desk
    requires w < |s.worker|
  {
    Desk(s.flag, Has(s, WorkerRx(w)), Has(s, WorkerHand(w)), Has(s, WorkerTx(w)), s.worker[w])
  }

  predicate OnDesk(p: Place, w: nat) { p == WorkerRx(w) || p == WorkerHand(w) || p == WorkerTx(w) }

  /** The dispatcher, the NIC and the other workers are as they were. */
  ghost predicate Undisturbed(s: Server, t: Server, w: nat) {
    && t.recvHead == s.recvHead && t.ringHead == s.ringHead && t.waitForDisp == s.waitForDisp && t.cursor == s.cursor
    && t.pc == s.pc && |t.worker| == |s.worker| && (forall v :: 0 <= v < |s.worker| && v != w ==> t.worker[v] == s.worker[v])
    && forall p: Place :: !OnDesk(p, w) ==> Has(t, p) == Has(s, p)
  }

  // The steps one by one

  /** Moving a buffer from or to the desk disturbs nobody else. */
  lemma OnlyDesk(s: Server, t: Server, w: nat, from: Place, x: nat, to: Place)
    requires Transfers(s.ledger, t.ledger, from, x, to) && OnDesk(from, w) && (OnDesk(to, w) || to == Unheld)
    ensures forall p: Place :: !OnDesk(p, w) ==> Has(t, p) == Has(s, p)
  {
  }

  lemma WorkerOnly(c: Config, t: Server, step: Step)
    requires Enabled(c, t, step) && IsWorker(step)
    ensures var u, w := Apply(c, t, step), step.w;
            && u.recvHead == t.recvHead && u.ringHead == t.ringHead && u.waitForDisp == t.waitForDisp && u.cursor == t.cursor
            && u.pc == t.pc && |u.worker| == |t.worker| && forall v :: 0 <= v < |t.worker| && v != w ==> u.worker[v] == t.worker[v]
  {
  }

  lemma BeginStep(c: Config, t: Server, w: nat, m: nat, pkts: nat, resps: nat)
    requires Enabled(c, t, Begin(w)) && m == |Has(t, WorkerRx(w))| / c.reqPkts
    requires pkts == c.reqPkts * m && resps == c.respPkts * m
    ensures var u := Apply(c, t, Begin(w));
            && Undisturbed(t, u, w)
            && DeskOf(u, w) == DeskOf(t, w).(pc := if pkts == 0 then Replying(resps) else Gathering(pkts, m))
  {
    assert m * c.reqPkts == pkts && m * c.respPkts == resps;
  }

  lemma MovingStep(c: Config, t: Server, step: Step)
    requires Located(t.ledger) && Flags(t) && Enabled(c, t, step) && IsWorker(step)
    requires MotionOf(c, t, step).Goes? && OnDesk(MotionOf(c, t, step).from, step.w)
    requires OnDesk(MotionOf(c, t, step).to, step.w) || MotionOf(c, t, step).to == Unheld
    ensures var u, m := Apply(c, t, step), MotionOf(c, t, step);
            && Undisturbed(t, u, step.w)
            && m.x < |t.flag| && u.flag == t.flag[m.x := FlagOnArrival(t.flag[m.x], m.to)]
            && Transfers(t.ledger, u.ledger, m.from, m.x, m.to)
  {
    var m := MotionOf(c, t, step);
    StepMoves(c, t, step);
    WorkerOnly(c, t, step);
    OnlyDesk(t, Apply(c, t, step), step.w, m.from, m.x, m.to);
  }

  lemma TookOne(s: Server, t: Server, w: nat, x: nat)
    requires Transfers(s.ledger, t.ledger, WorkerRx(w), x, WorkerHand(w))
    ensures Has(t, WorkerRx(w)) == Has(s, WorkerRx(w))[1..] && Has(t, WorkerHand(w)) == Has(s, WorkerHand(w)) + [x]
    ensures Has(t, WorkerTx(w)) == Has(s, WorkerTx(w))
  {
  }

  lemma HandedOne(s: Server, t: Server, w: nat, x: nat, to: Place)
    requires Transfers(s.ledger, t.ledger, WorkerHand(w), x, to) && (to == WorkerTx(w) || to == Unheld)
    ensures Has(t, WorkerRx(w)) == Has(s, WorkerRx(w)) && Has(t, WorkerHand(w)) == Has(s, WorkerHand(w))[1..]
    ensures Has(t, WorkerTx(w)) == Has(s, WorkerTx(w)) + if to == WorkerTx(w) then [x] else []
  {
  }

  lemma TakeStep(c: Config, t: Server, w: nat, m: nat, resps: nat)
    requires Located(t.ledger) && Flags(t) && Enabled(c, t, Take(w)) && Has(t, WorkerRx(w)) != []
    requires t.worker[w].msgs == m && resps == c.respPkts * m
    ensures var u, d := Apply(c, t, Take(w)), DeskOf(t, w);
            && Undisturbed(t, u, w)
            && DeskOf(u, w) == Desk(d.flag, d.rx[1..], d.hand + [d.rx[0]], d.tx,
                                    if d.pc.left == 1 then Replying(resps) else Gathering(d.pc.left - 1, m))
  {
    var x := Has(t, WorkerRx(w))[0];
    assert MotionOf(c, t, Take(w)) == Goes(WorkerRx(w), x, WorkerHand(w));
    MovingStep(c, t, Take(w));
    TookOne(t, Apply(c, t, Take(w)), w, x);
    assert m * c.respPkts == resps;
  }

  lemma ReplyStep(c: Config, t: Server, w: nat)
    requires Located(t.ledger) && Flags(t) && Enabled(c, t, Reply(w))
    ensures var u, d := Apply(c, t, Reply(w)), DeskOf(t, w);
            var x := d.hand[0];
            && x < |d.flag| && Undisturbed(t, u, w)
            && DeskOf(u, w) == if |d.tx| < c.queueCap
                               then Desk(d.flag, d.rx, d.hand[1..], d.tx + [x], Replying(d.pc.left - 1))
                               else Desk(d.flag[x := Free], d.rx, d.hand[1..], d.tx, Replying(d.pc.left - 1))
  {
    var d, u := DeskOf(t, w), Apply(c, t, Reply(w));
    var x, to := d.hand[0], if |d.tx| < c.queueCap then WorkerTx(w) else Unheld;
    assert MotionOf(c, t, Reply(w)) == Goes(WorkerHand(w), x, to) && u.worker[w] == Replying(d.pc.left - 1);
    MovingStep(c, t, Reply(w));
    HandedOne(t, u, w, x, to);
    FlagOf(d.flag, x, to);
  }

  lemma FlagOf(flag: seq<BufState>, x: nat, to: Place)
    requires x < |flag| && (to.WorkerTx? || to.WorkerHand? || to == Unheld)
    ensures flag[x := FlagOnArrival(flag[x], to)] == if to == Unheld then flag[x := Free] else flag
  {
  }

  lemma TrimStep(c: Config, t: Server, w: nat)
    requires Located(t.ledger) && Flags(t) && Enabled(c, t, Trim(w))
    ensures var u, d := Apply(c, t, Trim(w)), DeskOf(t, w);
            var x := d.hand[0];
            && x < |d.flag| && Undisturbed(t, u, w)
            && DeskOf(u, w) == Desk(d.flag[x := Free], d.rx, d.hand[1..], d.tx, Replying(0))
  {
    assert MotionOf(c, t, Trim(w)) == Goes(WorkerHand(w), Has(t, WorkerHand(w))[0], Unheld);
    MovingStep(c, t, Trim(w));
    HandedOne(t, Apply(c, t, Trim(w)), w, Has(t, WorkerHand(w))[0], Unheld);
  }

  // The dequeues

  /** i packets of the batch are in hand. */
  function Taken(d: Desk, i: nat, pkts: nat, m: nat, resps: nat): Desk
    requires i <= pkts <= |d.rx|
  {
    Desk(d.flag, d.rx[i..], d.rx[..i], d.tx, if i == pkts then Replying(resps) else Gathering(pkts - i, m))
  }

  /** The first packet of the queue is taken; after the last of the batch the worker starts to reply. */
  function TakeOne(d: Desk, m: nat, resps: nat): Desk
    requires d.rx != [] && d.pc.Gathering? && d.pc.left > 0
  {
    Desk(d.flag, d.rx[1..], d.hand + [d.rx[0]], d.tx, if d.pc.left == 1 then Replying(resps) else Gathering(d.pc.left - 1, m))
  }

  lemma TakenNext(d: Desk, i: nat, pkts: nat, m: nat, resps: nat)
    requires i < pkts <= |d.rx|
    ensures var e := Taken(d, i, pkts, m, resps);
            e.rx != [] && e.pc == Gathering(pkts - i, m) && TakeOne(e, m, resps) == Taken(d, i + 1, pkts, m, resps)
  {
  }

  lemma TakeFirst(c: Config, s: Server, w: nat, m: nat, pkts: nat, resps: nat)
    requires Enabled(c, s, Begin(w)) && m == |Has(s, WorkerRx(w))| / c.reqPkts
    requires pkts == c.reqPkts * m && resps == c.respPkts * m && pkts <= |Has(s, WorkerRx(w))|
    ensures var t := Apply(c, s, Begin(w));
            Works(c, s, t, w) && Undisturbed(s, t, w) && DeskOf(t, w) == Taken(DeskOf(s, w), 0, pkts, m, resps)
  {
    assert Runs(c, s, []) && s == Exec(c, s, []);
    BeginStep(c, s, w, m, pkts, resps);
    WorksOn(c, s, s, Begin(w));
  }

  lemma TakeNext(c: Config, s: Server, t: Server, w: nat, m: nat, resps: nat) returns (u: Server)
    requires GoodConfig(c) && Inv(c, s) && Works(c, s, t, w) && w < |t.worker| == c.workers && Has(t, WorkerRx(w)) != []
    requires t.worker[w].Gathering? && t.worker[w].left > 0 && t.worker[w].msgs == m && resps == c.respPkts * m
    ensures Works(c, s, u, w) && Undisturbed(t, u, w) && DeskOf(u, w) == TakeOne(DeskOf(t, w), m, resps)
  {
    WorksKeepsInv(c, s, t, w);
    TakeStep(c, t, w, m, resps);
    WorksOn(c, s, t, Take(w));
    u := Apply(c, t, Take(w));
  }

  lemma {:induction false} TakeMany(c: Config, s: Server, w: nat, m: nat, pkts: nat, resps: nat, i: nat) returns (t: Server)
    requires GoodConfig(c) && Inv(c, s) && Enabled(c, s, Begin(w)) && m == |Has(s, WorkerRx(w))| / c.reqPkts
    requires pkts == c.reqPkts * m && resps == c.respPkts * m && i <= pkts <= |Has(s, WorkerRx(w))|
    ensures Works(c, s, t, w) && Undisturbed(s, t, w)
    ensures DeskOf(t, w) == Taken(DeskOf(s, w), i, pkts, m, resps)
  {
    if i == 0 {
      TakeFirst(c, s, w, m, pkts, resps);
      t := Apply(c, s, Begin(w));
    } else {
      t := TakeMany(c, s, w, m, pkts, resps, i - 1);
      t := TakeMore(c, s, t, w, m, pkts, resps, i - 1);
    }
  }

  lemma TakeMore(c: Config, s: Server, t: Server, w: nat, m: nat, pkts: nat, resps: nat, i: nat) returns (u: Server)
    requires GoodConfig(c) && Inv(c, s) && Works(c, s, t, w) && Undisturbed(s, t, w) && w < |s.worker| == c.workers
    requires resps == c.respPkts * m && i < pkts <= |Has(s, WorkerRx(w))| && DeskOf(t, w) == Taken(DeskOf(s, w), i, pkts, m, resps)
    ensures Works(c, s, u, w) && Undisturbed(s, u, w) && DeskOf(u, w) == Taken(DeskOf(s, w), i + 1, pkts, m, resps)
  {
    TakenNext(DeskOf(s, w), i, pkts, m, resps);
    u := TakeNext(c, s, t, w, m, resps);
    UndisturbedOn(s, t, u, w);
  }

  // The responses and the surplus

  /** How many of the first i buffers of a batch have gone to a tx queue with so much room. */
  function Sent(i: nat, resps: nat, room: nat): (k: nat)
    ensures k <= i
  {
    if i <= resps && i <= room then i else if resps <= room then resps else room
  }

  /** The first i buffers in hand have been sent or freed. */
  function Handed(d: Desk, i: nat, resps: nat, room: nat): Desk
    requires i <= |d.hand|
  {
    var k := Sent(i, resps, room);
    Desk(WithFlags(d.flag, d.hand[k..i], Free), d.rx, d.hand[i..], d.tx + d.hand[..k],
         Replying(if i < resps then resps - i else 0))
  }

  lemma SentNext(d: Desk, i: nat, resps: nat, room: nat)
    requires i < |d.hand| && i < resps && i < room
    ensures var e := Handed(d, i, resps, room);
            Handed(d, i + 1, resps, room) == Desk(e.flag, e.rx, e.hand[1..], e.tx + [e.hand[0]], Replying(e.pc.left - 1))
  {
    assert d.hand[i..i] == d.hand[i + 1..i + 1] == [];
    assert d.tx + d.hand[..i + 1] == (d.tx + d.hand[..i]) + [d.hand[i]];
  }

  lemma FreedNext(d: Desk, i: nat, resps: nat, room: nat)
    requires i < |d.hand| && (i >= resps || i >= room) && d.hand[i] < |d.flag|
    ensures var e := Handed(d, i, resps, room);
            Handed(d, i + 1, resps, room) == Desk(e.flag[e.hand[0] := Free], e.rx, e.hand[1..], e.tx,
                                                  Replying(if i < resps then e.pc.left - 1 else 0))
  {
    var k := Sent(i, resps, room);
    assert d.hand[k..i + 1][..i - k] == d.hand[k..i];
  }

  /** The first buffer in hand is sent if it carries a response and there is room, and freed otherwise. */
  function HandOne(d: Desk, owed: bool, cap: nat): Desk
    requires d.hand != [] && d.pc.Replying? && (owed ==> d.pc.left > 0)
  {
    var x, left := d.hand[0], if owed then d.pc.left - 1 else 0;
    if owed && |d.tx| < cap then Desk(d.flag, d.rx, d.hand[1..], d.tx + [x], Replying(left))
    else Desk(if x < |d.flag| then d.flag[x := Free] else d.flag, d.rx, d.hand[1..], d.tx, Replying(left))
  }

  /** One buffer further. */
  lemma HandNext(c: Config, s: Server, t: Server, w: nat, i: nat, resps: nat) returns (u: Server)
    requires GoodConfig(c) && Inv(c, s) && Works(c, s, t, w) && w < |t.worker| == c.workers && Has(t, WorkerHand(w)) != []
    requires t.worker[w] == Replying(if i < resps then resps - i else 0)
    ensures Works(c, s, u, w) && Undisturbed(t, u, w)
    ensures DeskOf(u, w) == HandOne(DeskOf(t, w), i < resps, c.queueCap)
  {
    WorksKeepsInv(c, s, t, w);
    if i < resps {
      ReplyStep(c, t, w);
      WorksOn(c, s, t, Reply(w));
      u := Apply(c, t, Reply(w));
    } else {
      TrimStep(c, t, w);
      WorksOn(c, s, t, Trim(w));
      u := Apply(c, t, Trim(w));
    }
  }

  /** The buffers in hand of a worker that starts to reply. */
  predicate AtReplies(c: Config, r: Server, w: nat, resps: nat) {
    w < |r.worker| == c.workers && r.worker[w] == Replying(resps) && |Has(r, WorkerTx(w))| <= c.queueCap
    && forall i :: 0 <= i < |Has(r, WorkerHand(w))| ==> Has(r, WorkerHand(w))[i] < |r.flag|
  }

  lemma HandedView(d: Desk, e: Desk, i: nat, resps: nat, room: nat, cap: nat)
    requires i < |d.hand| && d.hand[i] < |d.flag| && |d.tx| + room == cap && e == Handed(d, i, resps, room)
    ensures HandOne(e, i < resps, cap) == Handed(d, i + 1, resps, room)
  {
    if i < resps && i < room { SentNext(d, i, resps, room); } else { FreedNext(d, i, resps, room); }
  }

  lemma UndisturbedOn(r: Server, t: Server, u: Server, w: nat)
    requires Undisturbed(r, t, w) && Undisturbed(t, u, w)
    ensures Undisturbed(r, u, w)
  {
  }

  lemma {:induction false} HandMany(c: Config, s: Server, r: Server, w: nat, resps: nat, i: nat) returns (t: Server)
    requires GoodConfig(c) && Inv(c, s) && Works(c, s, r, w) && AtReplies(c, r, w, resps)
    requires resps <= |Has(r, WorkerHand(w))| && i <= |Has(r, WorkerHand(w))|
    ensures Works(c, s, t, w) && Undisturbed(r, t, w)
    ensures DeskOf(t, w) == Handed(DeskOf(r, w), i, resps, c.queueCap - |Has(r, WorkerTx(w))|)
  {
    if i == 0 {
      t := r;
      HandedNone(DeskOf(r, w), resps, c.queueCap - |Has(r, WorkerTx(w))|);
    } else {
      t := HandMany(c, s, r, w, resps, i - 1);
      t := HandMore(c, s, r, t, w, resps, i - 1);
    }
  }

  lemma HandedPlace(r: Desk, t: Desk, i: nat, resps: nat, room: nat)
    requires i < |r.hand| && t == Handed(r, i, resps, room)
    ensures t.hand != [] && t.pc == Replying(if i < resps then resps - i else 0)
  {
  }

  lemma HandMore(c: Config, s: Server, r: Server, t: Server, w: nat, resps: nat, i: nat) returns (u: Server)
    requires GoodConfig(c) && Inv(c, s) && Works(c, s, t, w) && AtReplies(c, r, w, resps) && Undisturbed(r, t, w)
    requires i < |Has(r, WorkerHand(w))| && |t.worker| == c.workers
    requires DeskOf(t, w) == Handed(DeskOf(r, w), i, resps, c.queueCap - |Has(r, WorkerTx(w))|)
    ensures Works(c, s, u, w) && Undisturbed(r, u, w)
    ensures DeskOf(u, w) == Handed(DeskOf(r, w), i + 1, resps, c.queueCap - |Has(r, WorkerTx(w))|)
  {
    var d, e, room := DeskOf(r, w), DeskOf(t, w), c.queueCap - |Has(r, WorkerTx(w))|;
    HandedPlace(d, e, i, resps, room);
    u := HandNext(c, s, t, w, i, resps);
    HandedView(d, e, i, resps, room, c.queueCap);
    UndisturbedOn(r, t, u, w);
  }

  lemma HandedNone(d: Desk, resps: nat, room: nat)
    requires d.pc == Replying(resps)
    ensures Handed(d, 0, resps, room) == d
  {
  }

  /** The desk after a whole batch of pkts packets owing resps responses, with so much room in the tx queue: the first
      buffers are answers, the others are FREE, and the worker is idle. */
  ghost predicate BatchDone(d: Desk, e: Desk, pkts: nat, resps: nat, room: nat)
    requires pkts <= |d.rx|
  {
    var k := if resps <= room then resps else room;
    && k <= pkts && e.rx == d.rx[pkts..] && e.tx == d.tx + d.rx[..k] && e.hand == [] && e.pc == Replying(0)
    && |e.flag| == |d.flag|
    && forall b :: 0 <= b < |d.flag| ==> e.flag[b] == if b in d.rx[k..pkts] then Free else d.flag[b]
  }

  lemma HandedAll(d: Desk, r: Desk, e: Desk, m: nat, pkts: nat, resps: nat, room: nat)
    requires resps <= pkts <= |d.rx| && d.hand == [] && r == Taken(d, pkts, pkts, m, resps)
    requires e == Handed(r, pkts, resps, room)
    ensures BatchDone(d, e, pkts, resps, room)
  {
    var k := Sent(pkts, resps, room);
    assert d.rx[..pkts][k..pkts] == d.rx[k..pkts] && d.rx[..pkts][..k] == d.rx[..k];
    forall b | 0 <= b < |d.flag| ensures e.flag[b] == if b in d.rx[k..pkts] then Free else d.flag[b] {
      WithFlagsAt(d.flag, d.rx[k..pkts], Free, b);
    }
  }

  lemma TakeBatch(c: Config, s: Server, w: nat, m: nat, pkts: nat, resps: nat) returns (r: Server)
    requires GoodConfig(c) && Inv(c, s) && Enabled(c, s, Begin(w)) && m == |Has(s, WorkerRx(w))| / c.reqPkts
    requires pkts == c.reqPkts * m && resps == c.respPkts * m && pkts <= |Has(s, WorkerRx(w))|
    ensures Works(c, s, r, w) && Undisturbed(s, r, w) && AtReplies(c, r, w, resps) && |Has(r, WorkerHand(w))| == pkts
    ensures DeskOf(r, w) == Taken(DeskOf(s, w), pkts, pkts, m, resps) && Has(r, WorkerTx(w)) == Has(s, WorkerTx(w))
  {
    r := TakeMany(c, s, w, m, pkts, resps, pkts);
    WorksKeepsInv(c, s, r, w);
    StartsReplies(c, s, r, w, m, pkts, resps);
  }

  /** An idle worker can begin exactly when the whole messages at hand reach its threshold. */
  lemma BeginsIff(c: Config, s: Server, w: nat, m: nat, pkts: nat)
    requires Shape(c, s) && c.reqPkts > 0 && w < c.workers && s.worker[w] == Replying(0) && Has(s, WorkerHand(w)) == []
    requires pkts == c.reqPkts * m && pkts <= |Has(s, WorkerRx(w))| < pkts + c.reqPkts
    ensures m == |Has(s, WorkerRx(w))| / c.reqPkts && (Enabled(c, s, Begin(w)) <==> m >= c.msgThreshold)
  {
    RemainderUnique(|Has(s, WorkerRx(w))|, c.reqPkts, m, |Has(s, WorkerRx(w))| - pkts);
  }

  lemma CanBegin(c: Config, s: Server, w: nat, m: nat, pkts: nat, resps: nat)
    requires GoodConfig(c) && Shape(c, s) && w < c.workers && s.worker[w] == Replying(0) && Has(s, WorkerHand(w)) == []
    requires pkts == c.reqPkts * m && resps == c.respPkts * m
    requires pkts <= |Has(s, WorkerRx(w))| < pkts + c.reqPkts && m >= c.msgThreshold
    ensures Enabled(c, s, Begin(w)) && m == |Has(s, WorkerRx(w))| / c.reqPkts && resps <= pkts
  {
    BeginsIff(c, s, w, m, pkts);
    Proportion(m, c.respPkts, c.reqPkts);
  }

  /** One batch is a run of the worker's steps. An idle worker that finds m whole messages, as many as its threshold or
      more, ends idle with the responses to all of them in its tx queue as far as there is room, and every other buffer
      of the batch FREE. */
  lemma BatchIsRun(c: Config, s: Server, w: nat, m: nat, pkts: nat, resps: nat, room: nat) returns (t: Server)
    requires GoodConfig(c) && Inv(c, s) && w < c.workers && s.worker[w] == Replying(0) && Has(s, WorkerHand(w)) == []
    requires pkts == c.reqPkts * m && resps == c.respPkts * m && |Has(s, WorkerTx(w))| + room == c.queueCap
    requires pkts <= |Has(s, WorkerRx(w))| < pkts + c.reqPkts && m >= c.msgThreshold
    ensures Works(c, s, t, w) && Undisturbed(s, t, w) && BatchDone(DeskOf(s, w), DeskOf(t, w), pkts, resps, room)
  {
    CanBegin(c, s, w, m, pkts, resps);
    var r := TakeBatch(c, s, w, m, pkts, resps);
    t := HandMany(c, s, r, w, resps, pkts);
    UndisturbedOn(s, r, t, w);
    HandedAll(DeskOf(s, w), DeskOf(r, w), DeskOf(t, w), m, pkts, resps, room);
  }

  lemma StartsReplies(c: Config, s: Server, r: Server, w: nat, m: nat, pkts: nat, resps: nat)
    requires Inv(c, r) && Undisturbed(s, r, w) && w < |s.worker| && pkts <= |Has(s, WorkerRx(w))|
    requires DeskOf(r, w) == Taken(DeskOf(s, w), pkts, pkts, m, resps)
    ensures AtReplies(c, r, w, resps) && |Has(r, WorkerHand(w))| == pkts
  {
    assert Located(r.ledger);
  }

  // The same with all threads at work

  /** What a worker still has to do for its batch: dequeues, responses and trims. */
  datatype Due = Due(takes: nat, replies: int, trims: int)

  function DueOf(c: Config, pc: WorkerPc, hand: nat): Due {
    match pc
    case Gathering(left, msgs) => Due(left, c.respPkts * msgs, c.reqPkts * msgs - c.respPkts * msgs)
    case Replying(left) => Due(0, left, hand - left)
  }

  function DueAt(c: Config, s: Server, w: nat): Due
    requires w < |s.worker|
  {
    DueOf(c, s.worker[w], |Has(s, WorkerHand(w))|)
  }

  function One(x: Step, y: Step): nat { if x == y then 1 else 0 }

  /** Each of the worker's steps takes one from what is due; nobody else's does. */
  predicate Settles(w: nat, step: Step, d: Due, e: Due) {
    d.takes == e.takes + One(step, Take(w)) && d.replies == e.replies + One(step, Reply(w)) && d.trims == e.trims + One(step, Trim(w))
  }

  lemma HandUntouched(c: Config, s: Server, step: Step, w: nat)
    requires Enabled(c, s, step) && w < |s.worker| && !(IsWorker(step) && step.w == w)
    ensures WorkersAfter(c, s, step)[w] == s.worker[w]
    ensures var m := MotionOf(c, s, step); m.Goes? ==> m.from != WorkerHand(w) && m.to != WorkerHand(w)
  {
  }

  lemma OtherSettles(c: Config, s: Server, step: Step, w: nat)
    requires Located(s.ledger) && Flags(s) && Enabled(c, s, step) && w < |s.worker| && !(IsWorker(step) && step.w == w)
    ensures DueAt(c, Apply(c, s, step), w) == DueAt(c, s, w)
  {
    HandUntouched(c, s, step, w);
    if MotionOf(c, s, step).Goes? { StepTransfers(c, s, step); }
  }

  lemma TakeSettles(c: Config, s: Server, w: nat)
    requires Located(s.ledger) && Flags(s) && Enabled(c, s, Take(w))
    requires DeskFits(c, s.worker[w], |Has(s, WorkerRx(w))|, |Has(s, WorkerHand(w))|)
    ensures Settles(w, Take(w), DueAt(c, s, w), DueAt(c, Apply(c, s, Take(w)), w))
  {
    var left, msgs, x, u := s.worker[w].left, s.worker[w].msgs, Has(s, WorkerRx(w))[0], Apply(c, s, Take(w));
    assert MotionOf(c, s, Take(w)) == Goes(WorkerRx(w), x, WorkerHand(w));
    StepTransfers(c, s, Take(w));
    TookOne(s, u, w, x);
    assert msgs * c.respPkts == c.respPkts * msgs;
    TakeIsDue(c, left, msgs, |Has(s, WorkerHand(w))|, u.worker[w]);
  }

  lemma TakeIsDue(c: Config, left: nat, msgs: nat, hand: nat, pc: WorkerPc)
    requires left > 0 && hand + left == msgs * c.reqPkts
    requires pc == if left == 1 then Replying(c.respPkts * msgs) else Gathering(left - 1, msgs)
    ensures var d, e := DueOf(c, Gathering(left, msgs), hand), DueOf(c, pc, hand + 1);
            d.takes == e.takes + 1 && d.replies == e.replies && d.trims == e.trims
  {
  }

  lemma HandSettles(c: Config, s: Server, step: Step)
    requires Located(s.ledger) && Flags(s) && Enabled(c, s, step) && (step.Reply? || step.Trim?)
    ensures Settles(step.w, step, DueAt(c, s, step.w), DueAt(c, Apply(c, s, step), step.w))
  {
    var w, u := step.w, Apply(c, s, step);
    var m := MotionOf(c, s, step);
    assert m.from == WorkerHand(w) && m.x == Has(s, WorkerHand(w))[0];
    StepTransfers(c, s, step);
    HandedOne(s, u, w, m.x, m.to);
  }

  lemma StepSettles(c: Config, s: Server, step: Step, w: nat)
    requires GoodConfig(c) && Inv(c, s) && Enabled(c, s, step) && w < c.workers && step != Begin(w)
    ensures Settles(w, step, DueAt(c, s, w), DueAt(c, Apply(c, s, step), w))
  {
    if step == Take(w) { TakeSettles(c, s, w); }
    else if step == Reply(w) || step == Trim(w) { HandSettles(c, s, step); }
    else { OtherSettles(c, s, step, w); }
  }

  predicate SettlesAll(w: nat, n: multiset<Step>, d: Due, e: Due) {
    d.takes == e.takes + n[Take(w)] && d.replies == e.replies + n[Reply(w)] && d.trims == e.trims + n[Trim(w)]
  }

  lemma SettlesOn(w: nat, steps: seq<Step>, d: Due, e: Due, f: Due)
    requires steps != [] && Settles(w, steps[0], d, e) && SettlesAll(w, multiset(steps[1..]), e, f)
    ensures SettlesAll(w, multiset(steps), d, f)
  {
    assert steps == [steps[0]] + steps[1..];
    assert multiset(steps) == multiset{steps[0]} + multiset(steps[1..]);
  }

  lemma {:induction false} RunSettles(c: Config, s: Server, steps: seq<Step>, w: nat)
    requires GoodConfig(c) && Inv(c, s) && Runs(c, s, steps) && w < c.workers && Begin(w) !in steps
    ensures |Exec(c, s, steps).worker| == |s.worker| == c.workers
    ensures SettlesAll(w, multiset(steps), DueAt(c, s, w), DueAt(c, Exec(c, s, steps), w))
    decreases |steps|
  {
    if steps != [] {
      var u := Apply(c, s, steps[0]);
      StepKeepsInv(c, s, steps[0]);
      StepSettles(c, s, steps[0], w);
      RunSettles(c, u, steps[1..], w);
      SettlesOn(w, steps, DueAt(c, s, w), DueAt(c, u, w), DueAt(c, Exec(c, s, steps), w));
    }
  }

  predicate AtEnd(s: Server, w: nat) { w < |s.worker| && s.worker[w] == Replying(0) && Has(s, WorkerHand(w)) == [] }

  /** Whatever all other threads do in between: from the start of a batch of m whole messages to its end, the worker
      dequeues exactly their packets, sends exactly their responses, and trims exactly the buffers left over. */
  lemma EveryBatchIsAnswered(c: Config, s: Server, steps: seq<Step>, w: nat, m: nat)
    requires GoodConfig(c) && Reachable(c, s) && w < c.workers && Enabled(c, s, Begin(w))
    requires c.reqPkts * m <= |Has(s, WorkerRx(w))| < c.reqPkts * m + c.reqPkts
    requires Runs(c, Apply(c, s, Begin(w)), steps) && Begin(w) !in steps
    requires AtEnd(Exec(c, Apply(c, s, Begin(w)), steps), w)
    ensures multiset(steps)[Take(w)] == c.reqPkts * m
    ensures multiset(steps)[Reply(w)] == c.respPkts * m
    ensures multiset(steps)[Trim(w)] == c.reqPkts * m - c.respPkts * m
  {
    ReachableInv(c, s);
    StepKeepsInv(c, s, Begin(w));
    BatchIsDue(c, s, w, m);
    var u := Apply(c, s, Begin(w));
    RunSettles(c, u, steps, w);
    assert DueAt(c, Exec(c, u, steps), w) == Due(0, 0, 0);
  }

  lemma BatchIsDue(c: Config, s: Server, w: nat, m: nat)
    requires GoodConfig(c) && Enabled(c, s, Begin(w))
    requires c.reqPkts * m <= |Has(s, WorkerRx(w))| < c.reqPkts * m + c.reqPkts
    ensures DueAt(c, Apply(c, s, Begin(w)), w) == Due(c.reqPkts * m, c.respPkts * m, c.reqPkts * m - c.respPkts * m)
  {
    var pkts, resps := c.reqPkts * m, c.respPkts * m;
    RemainderUnique(|Has(s, WorkerRx(w))|, c.reqPkts, m, |Has(s, WorkerRx(w))| - pkts);
    BeginStep(c, s, w, m, pkts, resps);
    var u := Apply(c, s, Begin(w));
    assert DeskOf(u, w).pc == u.worker[w] && Has(u, WorkerHand(w)) == DeskOf(u, w).hand == [];
    Proportion(m, c.respPkts, c.reqPkts);
    BeginIsDue(c, u.worker[w], m, pkts, resps);
  }

  lemma BeginIsDue(c: Config, pc: WorkerPc, m: nat, pkts: nat, resps: nat)
    requires pkts == c.reqPkts * m && resps == c.respPkts * m
    requires pc == if pkts == 0 then Replying(resps) else Gathering(pkts, m)
    requires resps <= pkts
    ensures DueOf(c, pc, 0) == Due(pkts, resps, pkts - resps)
  {
  }
}
