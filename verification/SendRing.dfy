/** The RoCE send ring. */
module SendRing {
  // `tx_burst` and `tx_flush` with their circular list of work requests
  // (`src/dispatcher_impl/roce/roce_dispatcher_dataplane.cc`). The NIC is an oracle that completes work requests in
  // posting order and keeps completing.

  import opened MathUtils
  import opened Circular
  import opened BufferLifecycle

  /** The flags after one value has been written to each of some buffers. */
  function WithFlags(flags: seq<BufState>, bs: seq<nat>, v: BufState): (r: seq<BufState>)
    ensures |r| == |flags|
    decreases |bs|
  {
    if bs == [] then flags else
      var b := bs[|bs| - 1];
      var r := WithFlags(flags, bs[..|bs| - 1], v);
      if b < |r| then r[b := v] else r
  }

  lemma {:induction false} WithFlagsAt(flags: seq<BufState>, bs: seq<nat>, v: BufState, b: nat)
    requires b < |flags|
    ensures WithFlags(flags, bs, v)[b] == if b in bs then v else flags[b]
    decreases |bs|
  {
    if bs != [] {
      WithFlagsAt(flags, bs[..|bs| - 1], v, b);
      assert bs == bs[..|bs| - 1] + [bs[|bs| - 1]];
    }
  }

  lemma WithFlagsNext(flags: seq<BufState>, bs: seq<nat>, i: nat, v: BufState)
    requires i < |bs| && bs[i] < |flags|
    ensures WithFlags(flags, bs[..i + 1], v) == WithFlags(flags, bs[..i], v)[bs[i] := v]
  {
    assert bs[..i + 1][..i] == bs[..i];
  }

  /** The ring slot `offset` steps after `head`. */
  function Slot(head: nat, offset: nat, depth: nat): (s: nat)
    requires depth > 0
    ensures s < depth
  {
    (head + offset) % depth
  }

  lemma SlotNext(head: nat, offset: nat, depth: nat)
    requires depth > 0
    ensures (Slot(head, offset, depth) + 1) % depth == Slot(head, offset + 1, depth)
  {
    RemainderAdd(head + offset, 1, depth);
  }

  lemma SlotShift(head: nat, k: nat, offset: nat, depth: nat)
    requires depth > 0
    ensures Slot(Slot(head, k, depth), offset, depth) == Slot(head, k + offset, depth)
  {
    RemainderAdd(head + k, offset, depth);
  }

  /** The ring shows the buffers `bs` on its slots from `head` on. */
  ghost predicate Shows(ring: seq<nat>, head: nat, bs: seq<nat>) {
    |ring| > 0 && forall i :: 0 <= i < |bs| ==> ring[Slot(head, i, |ring|)] == bs[i]
  }

  lemma ShowsDrop(ring: seq<nat>, head: nat, bs: seq<nat>, k: nat)
    requires Shows(ring, head, bs) && k <= |bs|
    ensures Shows(ring, Slot(head, k, |ring|), bs[k..])
  {
    forall i | 0 <= i < |bs| - k ensures ring[Slot(Slot(head, k, |ring|), i, |ring|)] == bs[k..][i] {
      SlotShift(head, k, i, |ring|);
    }
  }

  lemma ShowsMount(ring: seq<nat>, head: nat, bs: seq<nat>, b: nat)
    requires Shows(ring, head, bs) && |bs| < |ring|
    ensures Shows(ring[Slot(head, |bs|, |ring|) := b], head, bs + [b])
  {
    forall i | 0 <= i < |bs| ensures Slot(head, i, |ring|) != Slot(head, |bs|, |ring|) {
      OffsetsDistinct(head, i, |bs|, |ring|);
    }
  }

  /** What releasing the ret oldest buffers does to the slots in flight. */
  lemma Released(ring: seq<nat>, head: nat, fly: seq<nat>, done: seq<nat>, ret: nat)
    requires Shows(ring, head, fly) && ret <= |fly| <= |ring|
    ensures var d, now := |ring|, Slot(head, ret, |ring|);
            && Arc(head, |fly|, d)[ret..] == Arc(now, |fly| - ret, d)
            && Slot(head, |fly|, d) == Slot(now, |fly| - ret, d)
            && Shows(ring, now, fly[ret..])
            && done + fly == (done + fly[..ret]) + fly[ret..]
  {
    ArcFrom(head, ret, |fly|, |ring|);
    SlotShift(head, ret, |fly| - ret, |ring|);
    ShowsDrop(ring, head, fly, ret);
  }

  lemma Associative(x: seq<nat>, y: seq<nat>, z: seq<nat>)
    ensures x + y + z == x + (y + z)
  {
  }

  /** Every entry is a buffer number below max. */
  predicate InRange(x: seq<nat>, max: nat) { forall i :: 0 <= i < |x| ==> x[i] < max }

  lemma BothInRange(x: seq<nat>, y: seq<nat>, max: nat)
    requires InRange(x, max) && InRange(y, max)
    ensures InRange(x + y, max)
  {
  }

  // What a flush does to the flags

  ghost predicate Distinct(x: seq<nat>) { forall i, j :: 0 <= i < j < |x| ==> x[i] != x[j] }

  /** Of the buffers sent, those in flight are POSTED and those done are FREE; earlier ones in flight are as they were. */
  ghost predicate Flushed(was: seq<BufState>, now: seq<BufState>, sent: seq<nat>, fly: seq<nat>, done: seq<nat>) {
    && |now| == |was|
    && forall b :: 0 <= b < |was| ==>
         now[b] == if b in fly then (if b in sent then Posted else was[b]) else if b in done then Free else was[b]
  }

  lemma StillTogether(done: seq<nat>, fly: seq<nat>, tx: seq<nat>, ret: nat, all: seq<nat>)
    requires ret <= |fly| && done + fly == all
    ensures done + fly[..ret] + (fly[ret..] + tx) == all + tx
  {
  }

  lemma PrefixDistinct(x: seq<nat>, y: seq<nat>, n: nat)
    requires Distinct(x + y) && n <= |y|
    ensures Distinct(x + y[..n])
  {
    assert forall i :: 0 <= i < |x| + n ==> (x + y[..n])[i] == (x + y)[i];
  }

  lemma FlushedOn(was: seq<BufState>, now: seq<BufState>, sent: seq<nat>, fly: seq<nat>, done: seq<nat>, ret: nat, tx: seq<nat>)
    requires Flushed(was, now, sent, fly, done) && ret <= |fly| && Distinct(done + fly[..ret] + (fly[ret..] + tx))
    ensures Flushed(was, WithFlags(WithFlags(now, fly[..ret], Free), tx, Posted), sent + tx, fly[ret..] + tx, done + fly[..ret])
  {
    var freed := WithFlags(now, fly[..ret], Free);
    forall b | 0 <= b < |was|
      ensures WithFlags(freed, tx, Posted)[b]
           == if b in fly[ret..] + tx then (if b in sent + tx then Posted else was[b])
              else if b in done + fly[..ret] then Free else was[b]
    {
      WithFlagsAt(now, fly[..ret], Free, b);
      WithFlagsAt(freed, tx, Posted, b);
      OnePart(done, fly, ret, tx, b);
    }
  }

  lemma BurstGoesOn(was: seq<BufState>, now: seq<BufState>, fly0: seq<nat>, q: seq<nat>, total: nat, n: nat, fly: seq<nat>,
                    done: seq<nat>, ret: nat)
    requires total + n <= |q| && ret <= |fly| && done + fly == fly0 + q[..total]
    requires Distinct(fly0 + q) ==> Flushed(was, now, q[..total], fly, done)
    ensures var tx := q[total..total + n];
            && done + fly[..ret] + (fly[ret..] + tx) == fly0 + q[..total + n]
            && (Distinct(fly0 + q) ==>
                  Flushed(was, WithFlags(WithFlags(now, fly[..ret], Free), tx, Posted), q[..total + n], fly[ret..] + tx, done + fly[..ret]))
  {
    var tx := q[total..total + n];
    assert q[..total] + tx == q[..total + n];
    StillTogether(done, fly, tx, ret, fly0 + q[..total]);
    Associative(fly0, q[..total], tx);
    if Distinct(fly0 + q) {
      PrefixDistinct(fly0, q, total + n);
      FlushedOn(was, now, q[..total], fly, done, ret, tx);
    }
  }

  /** A buffer stands in at most one of the parts. */
  lemma OnePart(done: seq<nat>, fly: seq<nat>, ret: nat, tx: seq<nat>, b: nat)
    requires ret <= |fly| && Distinct(done + fly[..ret] + (fly[ret..] + tx))
    ensures b in fly <==> b in fly[..ret] || b in fly[ret..]
    ensures b in fly[..ret] ==> b !in done && b !in fly[ret..] && b !in tx
    ensures b in tx ==> b !in fly && b !in done
    ensures b in fly ==> b !in done
  {
    var all := done + fly[..ret] + (fly[ret..] + tx);
    assert fly == fly[..ret] + fly[ret..];
    assert forall i :: 0 <= i < |done| ==> all[i] == done[i];
    assert forall i :: 0 <= i < |fly| ==> all[|done| + i] == fly[i];
    assert forall i :: 0 <= i < |tx| ==> all[|done| + |fly| + i] == tx[i];
  }

  class SendRing {
    const depth: nat            // kSQDepth
    const flag: array<BufState> // state_ of every buffer, by buffer number
    const swRing: array<nat>    // sw_ring_
    const wrNext: array<Link>   // send_wr[i].next
    const txQueue: array<nat>   // tx_queue_
    var txQueueIdx: nat
    var sendHead: nat
    var sendTail: nat
    var freeWr: nat             // free_send_wr_num_
    var nic: seq<nat>           // slots the NIC has been handed and has not completed, oldest first
    var patience: nat           // empty polls the NIC may still answer before its next completion
    ghost var inflight: seq<nat>  // the buffers on those slots
    ghost var posted: seq<nat>    // every buffer ever posted, in order
    ghost var completed: seq<nat> // every buffer ever released, in order

    /** In flight plus free is the depth; the in-flight slots run from `send_head_` to `send_tail_`. */
    ghost predicate Indices()
      reads this
    {
      && depth > 0 && freeWr <= depth && sendHead < depth
      && |inflight| == depth - freeWr
      && sendTail == Slot(sendHead, depth - freeWr, depth)
    }

    /** Every posted buffer is completed or still in flight, in order, on the slots that show it. */
    ghost predicate Fifo()
      reads this, swRing
    {
      && swRing.Length == depth && Shows(swRing[..], sendHead, inflight)
      && posted == completed + inflight
      && InRange(inflight, flag.Length)
    }

    ghost predicate Queue()
      reads this, txQueue
    {
      && txQueue.Length == depth && swRing != txQueue && txQueueIdx <= depth
      && (forall i :: 0 <= i < txQueueIdx ==> txQueue[i] < flag.Length)
    }

    /** The work-request list is one full cycle, and the NIC has exactly the in-flight slots. */
    ghost predicate Requests()
      reads this, wrNext
    {
      depth > 0 && wrNext.Length == depth && FullCycle(wrNext[..]) && nic == Arc(sendHead, |inflight|, depth)
    }

    ghost predicate Valid()
      reads this, swRing, wrNext, txQueue
    {
      Indices() && Fifo() && Queue() && Requests()
    }

    constructor (depth: nat, flag: array<BufState>)
      requires depth > 0
      ensures Valid() && this.depth == depth && this.flag == flag && freeWr == depth && txQueueIdx == 0
      ensures posted == [] && fresh(swRing) && fresh(wrNext) && fresh(txQueue)
    {
      this.depth := depth;
      this.flag := flag;
      swRing := new nat[depth](_ => 0);
      txQueue := new nat[depth](_ => 0);
      wrNext := new Link[depth](_ => Null);
      txQueueIdx, sendHead, sendTail, freeWr := 0, 0, 0, depth;
      nic, patience, inflight, posted, completed := [], 0, [], [], [];
      new;
      for i := 0 to depth
        invariant forall k :: 0 <= k < i ==> wrNext[k] == To((k + 1) % depth)
        invariant nic == [] && inflight == [] && posted == [] && completed == []
        invariant txQueueIdx == 0 && sendHead == 0 && sendTail == 0 && freeWr == depth
      {
        RemainderSmall(i + 1, depth);
        wrNext[i] := if i < depth - 1 then To(i + 1) else To(0);
      }
      RemainderSmall(0, depth);
    }

    /** `ibv_poll_cq`: how many of the oldest work requests have completed. The answer may be empty, but not for ever
        while something is in flight; how long not is settled anew after each completion. */
    method PollCq() returns (ret: nat)
      requires freeWr <= depth
      modifies this`patience
      ensures ret <= depth - freeWr
      ensures ret == 0 && freeWr < depth ==> patience < old(patience)
    {
      ret :| 0 <= ret <= depth - freeWr;
      if ret == 0 && freeWr < depth {
        if patience == 0 { ret := 1; } else { patience := patience - 1; }
      }
      if ret > 0 { patience := *; }
    }

    /** The loop over the polled completions: the i-th oldest buffer becomes free and `send_head_`
        advances. */
    method FreeOldest(ret: nat)
      requires Indices() && Fifo() && ret <= |inflight|
      modifies this`sendHead, flag
      ensures sendHead == Slot(old(sendHead), ret, depth)
      ensures flag[..] == WithFlags(old(flag[..]), inflight[..ret], Free)
    {
      ghost var head := sendHead;
      RemainderSmall(head, depth);
      for i := 0 to ret
        invariant sendHead == Slot(head, i, depth)
        invariant flag[..] == WithFlags(old(flag[..]), inflight[..i], Free)
      {
        assert swRing[sendHead] == inflight[i];
        WithFlagsNext(old(flag[..]), inflight, i, Free);
        flag[swRing[sendHead]] := Free;
        SlotNext(head, i, depth);
        sendHead := (sendHead + 1) % depth;
      }
    }

    /** The polled completions release the oldest buffers, in the order they were posted. */
    method Release(ret: nat)
      requires Valid() && ret <= depth - freeWr
      modifies this`freeWr, this`sendHead, this`nic, this`inflight, this`completed, flag
      ensures Valid() && freeWr == old(freeWr) + ret
      ensures completed == old(completed) + old(inflight)[..ret] && inflight == old(inflight)[ret..]
      ensures flag[..] == WithFlags(old(flag[..]), old(inflight)[..ret], Free)
    {
      FreeOldest(ret);
      freeWr := freeWr + ret;
      Released(swRing[..], old(sendHead), inflight, completed, ret);
      completed, inflight := completed + inflight[..ret], inflight[ret..];
      nic := nic[ret..];
    }

    /** Mount one buffer on the slot at `send_tail_`, after the buffers `bs` the ring already shows. */
    method MountOne(m: nat, ghost bs: seq<nat>)
      requires swRing.Length == depth && |bs| < depth && freeWr > 0 && m < flag.Length
      requires sendTail == Slot(sendHead, |bs|, depth) && Shows(swRing[..], sendHead, bs)
      modifies this`sendTail, this`freeWr, flag, swRing
      ensures sendTail == Slot(sendHead, |bs| + 1, depth) && freeWr == old(freeWr) - 1
      ensures Shows(swRing[..], sendHead, bs + [m])
      ensures flag[..] == old(flag[..])[m := Posted]
    {
      flag[m] := Posted;
      ghost var ring := swRing[..];
      swRing[sendTail] := m;
      assert swRing[..] == ring[sendTail := m];
      ShowsMount(ring, sendHead, bs, m);
      SlotNext(sendHead, |bs|, depth);
      sendTail := (sendTail + 1) % depth;
      freeWr := freeWr - 1;
    }

    /** Mount buffer n of tx after the ones before it. */
    method MountNext(m: nat, ghost tx: seq<nat>, ghost n: nat, ghost was: seq<BufState>)
      requires swRing.Length == depth && n < |tx| && m == tx[n] < flag.Length && |inflight| + n < depth && freeWr > 0
      requires sendTail == Slot(sendHead, |inflight| + n, depth) && Shows(swRing[..], sendHead, inflight + tx[..n])
      requires flag[..] == WithFlags(was, tx[..n], Posted)
      modifies this`sendTail, this`freeWr, flag, swRing
      ensures sendTail == Slot(sendHead, |inflight| + (n + 1), depth) && freeWr == old(freeWr) - 1
      ensures Shows(swRing[..], sendHead, inflight + tx[..n + 1])
      ensures flag[..] == WithFlags(was, tx[..n + 1], Posted)
    {
      WithFlagsNext(was, tx, n, Posted);
      assert inflight + tx[..n] + [tx[n]] == inflight + tx[..n + 1];
      MountOne(m, inflight + tx[..n]);
    }

    /** The mounting loop: buffers of `tx_queue_` go to free slots until either runs out. */
    method Mount(start: nat, nb: nat, ghost tx: seq<nat>) returns (n: nat)
      requires Indices() && Queue() && start + nb <= txQueueIdx && tx == txQueue[start..start + nb]
      requires swRing.Length == depth && Shows(swRing[..], sendHead, inflight)
      modifies this`sendTail, this`freeWr, flag, swRing
      ensures n <= nb && freeWr == old(freeWr) - n && (n == nb || freeWr == 0)
      ensures sendTail == Slot(sendHead, |inflight| + n, depth)
      ensures Shows(swRing[..], sendHead, inflight + tx[..n])
      ensures flag[..] == WithFlags(old(flag[..]), tx[..n], Posted)
    {
      n := 0;
      assert inflight + tx[..0] == inflight;
      while freeWr > 0 && n < nb
        invariant n <= nb && freeWr == old(freeWr) - n && tx == txQueue[start..start + nb]
        invariant sendTail == Slot(sendHead, |inflight| + n, depth)
        invariant Shows(swRing[..], sendHead, inflight + tx[..n])
        invariant flag[..] == WithFlags(old(flag[..]), tx[..n], Posted)
      {
        assert txQueue[start + n] == tx[n];
        MountNext(txQueue[start + n], tx, n, old(flag[..]));
        n := n + 1;
      }
    }

    /** Cut the list after the last mounted request, hand the chain to the NIC, restore the list. */
    method PostChain(first: nat, n: nat)
      requires depth > 0 && wrNext.Length == depth && FullCycle(wrNext[..]) && first < depth && 1 <= n <= depth
      modifies this`nic, wrNext
      ensures nic == old(nic) + Arc(first, n, depth)
      ensures wrNext[..] == old(wrNext[..])
    {
      var last := (first + (n - 1)) % depth;
      var temp := wrNext[last];
      ghost var cycle := wrNext[..];
      wrNext[last] := Null; // the chain ends here for the NIC
      assert wrNext[..] == CutAfter(cycle, first, n);
      ChainVisitsExactly(cycle, first, n, depth);
      nic := nic + Follow(wrNext[..], To(first), depth);
      wrNext[last] := temp; // and is one cycle again
      assert wrNext[..] == cycle;
    }

    /** Post the chain of the buffers tx, just mounted from slot first on. */
    method PostMounted(first: nat, n: nat, ghost tx: seq<nat>)
      requires depth > 0 && swRing.Length == depth && Shows(swRing[..], sendHead, inflight + tx)
      requires sendHead < depth && freeWr + |inflight + tx| == depth && sendTail == Slot(sendHead, |inflight| + |tx|, depth)
      requires first == Slot(sendHead, |inflight|, depth) && n == |tx| > 0
      requires posted == completed + inflight && InRange(inflight + tx, flag.Length) && Queue() && Requests()
      modifies this`nic, this`inflight, this`posted, wrNext
      ensures Valid() && inflight == old(inflight) + tx && posted == old(posted) + tx
      ensures wrNext[..] == old(wrNext[..])
    {
      PostChain(first, n);
      ArcSplit(sendHead, |inflight|, |tx|, depth);
      Associative(completed, inflight, tx);
      inflight, posted := inflight + tx, posted + tx;
    }

    /** Mount as many buffers as fit, and post the chain if there are any. */
    method MountAndPost(start: nat, nb: nat) returns (n: nat)
      requires Valid() && start + nb <= txQueueIdx
      modifies this`sendTail, this`freeWr, this`nic, this`inflight, this`posted, flag, swRing, wrNext
      ensures Valid() && n <= nb && freeWr == old(freeWr) - n && (n == nb || freeWr == 0)
      ensures posted == old(posted) + txQueue[start..start + n]
      ensures inflight == old(inflight) + txQueue[start..start + n]
      ensures flag[..] == WithFlags(old(flag[..]), txQueue[start..start + n], Posted)
      ensures wrNext[..] == old(wrNext[..])
    {
      var first := sendTail;
      ghost var tx := txQueue[start..start + nb];
      n := Mount(start, nb, tx);
      assert tx[..n] == txQueue[start..start + n];
      BothInRange(inflight, tx[..n], flag.Length);
      if n > 0 {
        PostMounted(first, n, tx[..n]);
      }
    }

    /** `tx_burst`: poll completions, release them, then mount and post as many buffers as fit. */
    method TxBurst(start: nat, nb: nat) returns (n: nat)
      requires Valid() && start + nb <= txQueueIdx
      modifies this, flag, swRing, wrNext
      ensures Valid() && txQueueIdx == old(txQueueIdx)
      ensures n <= nb && (n == nb || freeWr == 0)
      ensures posted == old(posted) + txQueue[start..start + n]
      ensures var ret := |completed| - |old(completed)|;
              && 0 <= ret <= |old(inflight)|
              && completed == old(completed) + old(inflight)[..ret]
              && inflight == old(inflight)[ret..] + txQueue[start..start + n]
              && flag[..] == WithFlags(WithFlags(old(flag[..]), old(inflight)[..ret], Free),
                                       txQueue[start..start + n], Posted)
      ensures wrNext[..] == old(wrNext[..])
      ensures n == 0 && nb > 0 ==> patience < old(patience)
    {
      var ret := PollCq();
      Release(ret);
      n := MountAndPost(start, nb);
    }

    /** One burst of a flush, with what the flush has done so far to the flags was: it has sent sent and released done. */
    method FlushBurst(total: nat, ghost was: seq<BufState>, ghost fly0: seq<nat>, ghost done: seq<nat>, ghost q: seq<nat>)
      returns (n: nat, ghost now: seq<nat>)
      requires Valid() && total < txQueueIdx && q == txQueue[..txQueueIdx] && done + inflight == fly0 + q[..total]
      requires Distinct(fly0 + q) ==> Flushed(was, flag[..], q[..total], inflight, done)
      modifies this, flag, swRing, wrNext
      ensures Valid() && txQueueIdx == old(txQueueIdx) && total + n <= txQueueIdx && wrNext[..] == old(wrNext[..])
      ensures completed == old(completed) + now
      ensures done + now + inflight == fly0 + q[..total + n]
      ensures Distinct(fly0 + q) ==> Flushed(was, flag[..], q[..total + n], inflight, done + now)
      ensures n == 0 ==> patience < old(patience)
    {
      ghost var fly, before, past := inflight, flag[..], completed;
      n := TxBurst(total, txQueueIdx - total);
      ghost var ret := |completed| - |past|;
      now := fly[..ret];
      assert txQueue[total..total + n] == q[total..total + n];
      BurstGoesOn(was, before, fly0, q, total, n, fly, done, ret);
    }

    /** `tx_flush`: burst until the whole queue is posted. It ends because the NIC keeps completing. What is in flight
        afterwards is POSTED, what completed meanwhile is FREE, and no other flag changes. */
    method TxFlush() returns (total: nat)
      requires Valid()
      modifies this, flag, swRing, wrNext
      ensures Valid() && txQueueIdx == 0 && total == old(txQueueIdx)
      ensures posted == old(posted) + old(txQueue[..txQueueIdx])
      ensures old(completed) <= completed <= posted
      ensures wrNext[..] == old(wrNext[..])
      ensures completed[|old(completed)|..] + inflight == old(inflight) + old(txQueue[..txQueueIdx])
      ensures Distinct(old(inflight) + old(txQueue[..txQueueIdx])) ==>
                forall b :: 0 <= b < flag.Length ==>
                  flag[b] == if b in inflight then (if b in old(txQueue[..txQueueIdx]) then Posted else old(flag[..])[b])
                             else if b in completed[|old(completed)|..] then Free else old(flag[..])[b]
    {
      total := 0;
      ghost var was, fly0, q, past, done := flag[..], inflight, txQueue[..txQueueIdx], completed, [];
      assert done + inflight == fly0 + q[..0] && completed == past + done;
      while total < txQueueIdx
        invariant Valid() && txQueueIdx == old(txQueueIdx) && total <= txQueueIdx && q == txQueue[..txQueueIdx]
        invariant completed == past + done
        invariant done + inflight == fly0 + q[..total]
        invariant Distinct(fly0 + q) ==> Flushed(was, flag[..], q[..total], inflight, done)
        invariant wrNext[..] == old(wrNext[..])
        decreases txQueueIdx - total, patience
      {
        var n;
        ghost var now;
        n, now := FlushBurst(total, was, fly0, done, q);
        Associative(past, done, now);
        done := done + now;
        total := total + n;
      }
      assert q[..total] == q && completed[|past|..] == done;
      Associative(past, done, inflight);
      Associative(past, fly0, q);
      txQueueIdx := 0;
    }
  }
}
