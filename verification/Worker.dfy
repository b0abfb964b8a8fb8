/** The worker phases on real queues. */
module Worker {
  // `src/workspace.h`, `src/ws_impl/msg_handlers.cc`: `apply_mbufs` and `generate_pkts` on a client,
  // `app_handler` with the client's and the server's message handler. A packet buffer is named by a number;
  // releasing one (`de_alloc`) appends it to a log. The peer thread's steps on the queues are the subject of
  // module Spsc; here the worker has them to itself for one phase.

  import opened MathUtils
  import opened LockFreeQueue
  import FlowControl
  import RT = RuleTable

  /** How many of the offered buffers a queue takes. */
  function Taken(held: nat, offered: nat, capacity: nat): (k: nat)
    ensures k <= offered
  {
    FlowControl.Taken(held, offered, capacity)
  }

  /** What a queue holding `held` entries keeps of the offered buffers, and what it turns away. */
  function Kept(held: nat, capacity: nat, offered: seq<nat>): seq<nat> {
    if offered == [] then [] else
      var rest := Kept(held, capacity, offered[..|offered| - 1]);
      if held + |rest| < capacity then rest + [offered[|offered| - 1]] else rest
  }

  function TurnedAway(held: nat, capacity: nat, offered: seq<nat>): seq<nat> {
    if offered == [] then [] else
      var rest := TurnedAway(held, capacity, offered[..|offered| - 1]);
      if held + |Kept(held, capacity, offered[..|offered| - 1])| < capacity then rest
      else rest + [offered[|offered| - 1]]
  }

  /** They are a prefix and the rest. */
  lemma {:induction false} KeptIsPrefix(held: nat, capacity: nat, offered: seq<nat>)
    ensures var k := Taken(held, |offered|, capacity);
            Kept(held, capacity, offered) == offered[..k] && TurnedAway(held, capacity, offered) == offered[k..]
  {
    if offered != [] {
      var n := |offered| - 1;
      KeptIsPrefix(held, capacity, offered[..n]);
      OneMoreKept(offered, n, Taken(held, n, capacity));
    }
  }

  lemma OneMoreKept(offered: seq<nat>, n: nat, k: nat)
    requires |offered| == n + 1 && k <= n
    ensures offered[..n][..k] == offered[..k] && offered[..n][k..] + [offered[n]] == offered[k..]
    ensures k == n ==> offered[..k] + [offered[n]] == offered[..n + 1] && offered[n + 1..] == offered[..n][k..]
  {
  }

  lemma OneMoreOffered(before: seq<nat>, free: seq<nat>, capacity: nat, mbufs: seq<nat>, i: nat)
    requires i < |mbufs|
    ensures var held, gone := before + Kept(|before|, capacity, mbufs[..i]), free + TurnedAway(|before|, capacity, mbufs[..i]);
            && before + Kept(|before|, capacity, mbufs[..i + 1]) == (if |held| < capacity then held + [mbufs[i]] else held)
            && free + TurnedAway(|before|, capacity, mbufs[..i + 1]) == (if |held| < capacity then gone else gone + [mbufs[i]])
  {
    assert mbufs[..i + 1][..i] == mbufs[..i];
  }

  /** The room of a queue decides: everything offered is taken, or the queue is full. */
  lemma TakenIs(held: nat, offered: nat, capacity: nat)
    requires held <= capacity
    ensures var k := Taken(held, offered, capacity);
            if held + offered <= capacity then k == offered else held + k == capacity
  {
  }

  /** The packets of the whole messages: those of one message more would not fit. */
  lemma WholeMessagesOnly(packets: nat, per: nat, fewer: nat, m: nat)
    requires per >= 1 && fewer <= per && m == packets / per
    ensures fewer * m <= per * m <= packets < per * m + per
  {
    FlowControl.WholeMessages(packets, per, m);
    MulMonotone(fewer, per, m);
  }

  class Worker {
    const rxQueue: LockFreeQueue<nat>
    const txQueue: LockFreeQueue<nat>
    const rules: RT.RuleTable
    const workload: nat
    const requestPkts: nat  // kAppRequestPktsNum
    const responsePkts: nat // kAppReponsePktsNum
    const txBatch: nat      // kAppTxMsgBatchSize
    const rxBatch: nat      // kAppRxMsgBatchSize
    var inflyFlag: bool
    ghost var released: seq<nat>

    ghost predicate Valid()
      reads this, rxQueue, txQueue
    {
      && rxQueue.Valid() && txQueue.Valid() && rxQueue != txQueue && rxQueue.queue != txQueue.queue
      && requestPkts >= 1 && responsePkts >= 1
    }

    constructor (rxQueue: LockFreeQueue<nat>, txQueue: LockFreeQueue<nat>, rules: RT.RuleTable, workload: nat,
                 requestPkts: nat, responsePkts: nat, txBatch: nat, rxBatch: nat)
      requires rxQueue.Valid() && txQueue.Valid() && rxQueue != txQueue && rxQueue.queue != txQueue.queue
      requires requestPkts >= 1 && responsePkts >= 1
      ensures Valid() && released == [] && this.rxQueue == rxQueue && this.txQueue == txQueue && this.rules == rules
    {
      this.rxQueue, this.txQueue, this.rules, this.workload := rxQueue, txQueue, rules, workload;
      this.requestPkts, this.responsePkts, this.txBatch, this.rxBatch := requestPkts, responsePkts, txBatch, rxBatch;
      inflyFlag, released := false, [];
    }

    /** `apply_mbufs`: no packets are generated without budget for the whole batch. */
    method ApplyMbufs()
      modifies this`inflyFlag, rules`inflyBudget
      ensures var budget := if workload in old(rules.inflyBudget) then old(rules.inflyBudget)[workload] else 0;
              && (inflyFlag <==> budget >= txBatch)
              && rules.inflyBudget == old(rules.inflyBudget)[workload := budget - if inflyFlag then txBatch else 0]
    {
      inflyFlag := rules.ApplyInflyBudget(workload, txBatch);
    }

    /** One `enqueue` on the tx queue; a full queue means `de_alloc`. */
    method OfferOne(mbuf: nat) returns (ok: bool)
      requires Valid()
      modifies this`released, txQueue`tail, txQueue.queue
      ensures Valid() && rxQueue.Contents() == old(rxQueue.Contents())
      ensures ok == (|old(txQueue.Contents())| < txQueue.queue.Length - 1)
      ensures txQueue.Contents() == if ok then old(txQueue.Contents()) + [mbuf] else old(txQueue.Contents())
      ensures released == if ok then old(released) else old(released) + [mbuf]
    {
      ok := txQueue.Enqueue(mbuf);
      if !ok { released := released + [mbuf]; }
    }

    /** Offer the buffers to the tx queue one by one, releasing those that find it full. */
    method EnqueueOrDrop(mbufs: seq<nat>) returns (drops: nat)
      requires Valid()
      modifies this`released, txQueue`tail, txQueue.queue
      ensures Valid() && rxQueue.Contents() == old(rxQueue.Contents())
      ensures var k := Taken(|old(txQueue.Contents())|, |mbufs|, txQueue.queue.Length - 1);
              && txQueue.Contents() == old(txQueue.Contents()) + mbufs[..k]
              && released == old(released) + mbufs[k..] && drops == |mbufs| - k
    {
      drops := 0;
      ghost var before, free, capacity := txQueue.Contents(), released, txQueue.queue.Length - 1;
      for i := 0 to |mbufs|
        invariant Valid() && rxQueue.Contents() == old(rxQueue.Contents())
        invariant txQueue.Contents() == before + Kept(|before|, capacity, mbufs[..i])
        invariant released == free + TurnedAway(|before|, capacity, mbufs[..i])
        invariant |free| + drops == |released|
      {
        OneMoreOffered(before, free, capacity, mbufs, i);
        var ok := OfferOne(mbufs[i]);
        if !ok { drops := drops + 1; }
      }
      assert mbufs[..|mbufs|] == mbufs;
      KeptIsPrefix(|before|, capacity, mbufs);
    }

    /** `generate_pkts` with the buffers that `apply_mbufs` obtained. */
    method GeneratePkts(txMbufs: seq<nat>) returns (drops: nat)
      requires Valid() && |txMbufs| == requestPkts * txBatch
      modifies this`released, txQueue`tail, txQueue.queue
      ensures Valid() && rxQueue.Contents() == old(rxQueue.Contents())
      ensures !inflyFlag ==> drops == 0 && txQueue.Contents() == old(txQueue.Contents()) && released == old(released)
      ensures inflyFlag ==>
                var k := Taken(|old(txQueue.Contents())|, |txMbufs|, txQueue.queue.Length - 1);
                && txQueue.Contents() == old(txQueue.Contents()) + txMbufs[..k]
                && released == old(released) + txMbufs[k..] && drops == |txMbufs| - k
    {
      drops := 0;
      if inflyFlag {
        drops := EnqueueOrDrop(txMbufs);
      }
    }

    /** The batch dequeues of `app_handler` after its one size read: every one of them finds a buffer. */
    method DequeueBatch(n: nat) returns (msg: seq<nat>)
      requires Valid() && n <= |rxQueue.Contents()|
      modifies rxQueue`head
      ensures Valid() && txQueue.Contents() == old(txQueue.Contents())
      ensures msg == old(rxQueue.Contents())[..n] && rxQueue.Contents() == old(rxQueue.Contents())[n..]
    {
      msg := [];
      ghost var rx, tx := rxQueue.Contents(), txQueue.Contents();
      for i := 0 to n
        invariant Valid() && txQueue.Contents() == tx && msg == rx[..i] && rxQueue.Contents() == rx[i..]
      {
        var ok, pkt := rxQueue.Dequeue();
        assert ok; // "Get invalid mbuf!"
        msg := msg + [pkt];
      }
    }

    /** The end of `msg_handler_server`: the first buffers of the batch carry the responses, the others are
        released. */
    method Respond(msg: seq<nat>, responses: nat)
      requires Valid() && responses <= |msg|
      modifies this`released, txQueue`tail, txQueue.queue
      ensures Valid() && rxQueue.Contents() == old(rxQueue.Contents())
      ensures var k := Taken(|old(txQueue.Contents())|, responses, txQueue.queue.Length - 1);
              && txQueue.Contents() == old(txQueue.Contents()) + msg[..k] && released == old(released) + msg[k..]
    {
      var drops := EnqueueOrDrop(msg[..responses]);
      ghost var k := Taken(|old(txQueue.Contents())|, responses, txQueue.queue.Length - 1);
      released := released + msg[responses..];
      assert msg[..responses][..k] == msg[..k];
      assert msg[..responses][k..] + msg[responses..] == msg[k..];
    }

    /** A batch on a server: dequeue its packets and respond with the first of them. */
    method Serve(pkts: nat, resps: nat)
      requires Valid() && resps <= pkts <= |rxQueue.Contents()|
      modifies this`released, rxQueue`head, txQueue`tail, txQueue.queue
      ensures Valid() && rxQueue.Contents() == old(rxQueue.Contents())[pkts..]
      ensures var k := Taken(|old(txQueue.Contents())|, resps, txQueue.queue.Length - 1);
              && txQueue.Contents() == old(txQueue.Contents()) + old(rxQueue.Contents())[..k]
              && released == old(released) + old(rxQueue.Contents())[k..pkts]
    {
      var msg := DequeueBatch(pkts);
      Respond(msg, resps);
      ghost var k := Taken(|old(txQueue.Contents())|, resps, txQueue.queue.Length - 1);
      assert msg[..k] == old(rxQueue.Contents())[..k];
    }

    /** The whole messages at hand, their packets and those of as many answers. */
    method CountMessages(size: nat, per: nat, answer: nat) returns (msgNum: nat, pkts: nat, resps: nat)
      requires per >= 1 && answer <= per
      ensures pkts == per * msgNum && resps == answer * msgNum && resps <= pkts <= size < pkts + per
    {
      msgNum := size / per;
      WholeMessagesOnly(size, per, answer, msgNum);
      pkts, resps := per * msgNum, answer * msgNum;
    }

    /** `app_handler` on a server: nothing below the batch threshold; otherwise every whole message is
        answered with the first buffers of the request batch, and the others are released. Responses need no
        more packets than requests. */
    method AppHandlerServer() returns (msgNum: nat, ghost pkts: nat, ghost resps: nat)
      requires Valid() && responsePkts <= requestPkts
      modifies this`released, rxQueue`head, txQueue`tail, txQueue.queue
      ensures Valid() && pkts == requestPkts * msgNum && resps == responsePkts * msgNum
      ensures resps <= pkts <= |old(rxQueue.Contents())| < pkts + requestPkts
      ensures msgNum < rxBatch ==>
                && rxQueue.Contents() == old(rxQueue.Contents()) && txQueue.Contents() == old(txQueue.Contents())
                && released == old(released)
      ensures msgNum >= rxBatch ==>
                && rxQueue.Contents() == old(rxQueue.Contents())[pkts..]
                && var room := txQueue.queue.Length - 1 - |old(txQueue.Contents())|;
                var k := if resps <= room then resps else room;
                && txQueue.Contents() == old(txQueue.Contents()) + old(rxQueue.Contents())[..k]
                && released == old(released) + old(rxQueue.Contents())[k..pkts]
    {
      var rxSize := rxQueue.GetSize();
      var pktNum, respNum;
      msgNum, pktNum, respNum := CountMessages(rxSize, requestPkts, responsePkts);
      pkts, resps := pktNum, respNum;
      if msgNum < rxBatch { return; }
      TakenIs(|txQueue.Contents()|, respNum, txQueue.queue.Length - 1);
      Serve(pktNum, respNum);
    }

    /** `app_handler` on a client: every whole response message returns one unit of budget. */
    method AppHandlerClient() returns (msgNum: nat, ghost pkts: nat)
      requires Valid()
      modifies this`released, rxQueue`head, rules`inflyBudget
      ensures Valid() && pkts == responsePkts * msgNum && pkts <= |old(rxQueue.Contents())| < pkts + responsePkts
      ensures msgNum < rxBatch ==> rxQueue.Contents() == old(rxQueue.Contents()) && released == old(released)
      ensures msgNum >= rxBatch ==>
                && rxQueue.Contents() == old(rxQueue.Contents())[pkts..]
                && released == old(released) + old(rxQueue.Contents())[..pkts]
      ensures var budget := if workload in old(rules.inflyBudget) then old(rules.inflyBudget)[workload] else 0;
              rules.inflyBudget
              == if msgNum >= rxBatch then old(rules.inflyBudget)[workload := budget + msgNum] else old(rules.inflyBudget)
    {
      var rxSize := rxQueue.GetSize();
      var pktNum, same;
      msgNum, pktNum, same := CountMessages(rxSize, responsePkts, responsePkts);
      pkts := pktNum;
      if msgNum < rxBatch { return; }
      var msg := DequeueBatch(pktNum);
      rules.ReturnInflyBudget(workload, msgNum);
      released := released + msg;
    }
  }
}
