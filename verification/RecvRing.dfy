/** The RoCE receive ring. */
module RecvRing {
  // `init_recvs`, `post_recvs`, `rx_burst` and `dispatch_rx_pkts`
  // (`src/dispatcher_impl/roce/roce_dispatcher_dataplane.cc`). The NIC is an oracle that fills posted buffers in
  // posting order.

  import opened MathUtils
  import opened Circular
  import opened BufferLifecycle
  import opened SendRing
  import opened RuleTable

  /** How many consecutive buffers from `start` on are FREE, once round the ring at most. */
  function FreeRun(flags: seq<BufState>, start: nat, k: nat): (n: nat)
    requires |flags| > 0 && k <= |flags|
    ensures k <= n <= |flags|
    ensures forall i :: k <= i < n ==> flags[Slot(start, i, |flags|)] == Free
    ensures n < |flags| ==> flags[Slot(start, n, |flags|)] != Free
    decreases |flags| - k
  {
    if k == |flags| || flags[Slot(start, k, |flags|)] != Free then k else FreeRun(flags, start, k + 1)
  }

  /** The buffers of an arc have a given flag. */
  ghost predicate AllHave(flags: seq<BufState>, start: nat, n: nat, v: BufState) {
    |flags| > 0 && forall i :: 0 <= i < n ==> flags[Slot(start, i, |flags|)] == v
  }

  lemma FullTurnSlot(start: nat, depth: nat)
    requires depth > 0
    ensures Slot(start, depth, depth) == Slot(start, 0, depth)
  {
    RemainderAdd(depth, start, depth);
    RemainderAdd(0, start, depth);
  }

  /** The run of FREE buffers found at the end of a posted arc cannot reach back into the arc. */
  lemma FreeRunFits(flags: seq<BufState>, ringHead: nat, w: nat)
    requires |flags| > 0 && w <= |flags| && AllHave(flags, ringHead, w, Posted)
    ensures w + FreeRun(flags, Slot(ringHead, w, |flags|), 0) <= |flags|
  {
    var d := |flags|;
    SlotShift(ringHead, w, d - w, d);
    FullTurnSlot(ringHead, d);
    assert w > 0 ==> flags[Slot(Slot(ringHead, w, d), d - w, d)] == Posted;
  }

  /** The lengths after `lens` has been written to consecutive buffers from `first` on. */
  function WithLengths(lengths: seq<nat>, first: nat, lens: seq<nat>): (r: seq<nat>)
    requires |lengths| > 0
    ensures |r| == |lengths|
    decreases |lens|
  {
    if lens == [] then lengths else
      var n := |lens| - 1;
      WithLengths(lengths, first, lens[..n])[Slot(first, n, |lengths|) := lens[n]]
  }

  /** Each of the consecutive buffers has its own length, as long as they do not go round the ring. */
  lemma {:induction false} WithLengthsAt(lengths: seq<nat>, first: nat, lens: seq<nat>, i: nat)
    requires i < |lens| <= |lengths|
    ensures WithLengths(lengths, first, lens)[Slot(first, i, |lengths|)] == lens[i]
    decreases |lens|
  {
    var n := |lens| - 1;
    if i < n {
      WithLengthsAt(lengths, first, lens[..n], i);
      OffsetsDistinct(first, i, n, |lengths|);
    }
  }

  lemma {:induction false} WithLengthsElsewhere(lengths: seq<nat>, first: nat, lens: seq<nat>, k: nat)
    requires k < |lengths| && forall i :: 0 <= i < |lens| ==> Slot(first, i, |lengths|) != k
    ensures WithLengths(lengths, first, lens)[k] == lengths[k]
    decreases |lens|
  {
    if lens != [] { WithLengthsElsewhere(lengths, first, lens[..|lens| - 1], k); }
  }

  /** Each slot has its own length, and every other length is as it was. */
  ghost predicate LengthsAt(was: seq<nat>, now: seq<nat>, slots: seq<nat>, lens: seq<nat>) {
    && |now| == |was| && |slots| == |lens|
    && (forall i :: 0 <= i < |lens| ==> slots[i] < |now| && now[slots[i]] == lens[i])
    && forall k :: 0 <= k < |was| && k !in slots ==> now[k] == was[k]
  }

  lemma FilledFrom(was: seq<nat>, first: nat, lens: seq<nat>)
    requires 0 < |was| && |lens| <= |was|
    ensures LengthsAt(was, WithLengths(was, first, lens), Arc(first, |lens|, |was|), lens)
  {
    var d, now := |was|, WithLengths(was, first, lens);
    var slots := Arc(first, |lens|, d);
    forall i | 0 <= i < |lens| ensures slots[i] < d && now[slots[i]] == lens[i] { WithLengthsAt(was, first, lens, i); }
    forall k | 0 <= k < d && k !in slots ensures now[k] == was[k] {
      forall i | 0 <= i < |lens| ensures Slot(first, i, d) != k { assert slots[i] in slots; }
      WithLengthsElsewhere(was, first, lens, k);
    }
  }

  /** What a dispatch has done to the worker queues and flags. `routes[i]` is the worker chosen for `bs[i]`. */
  datatype Delivery = Delivery(queues: seq<seq<nat>>, flags: seq<BufState>, total: nat)

  /** One packet: appended to its worker's queue and APP_OWNED, or dropped and FREE if the queue is full. */
  function DeliverOne(d: Delivery, b: nat, w: nat, cap: nat): (r: Delivery)
    ensures |r.queues| == |d.queues| && |r.flags| == |d.flags|
  {
    if w >= |d.queues| || b >= |d.flags| then d
    else if |d.queues[w]| < cap then
      Delivery(d.queues[w := d.queues[w] + [b]], d.flags[b := AppOwned], d.total + 1)
    else d.(flags := d.flags[b := Free])
  }

  function Deliver(d: Delivery, bs: seq<nat>, routes: seq<nat>, cap: nat): (r: Delivery)
    requires |bs| == |routes|
    ensures |r.queues| == |d.queues| && |r.flags| == |d.flags|
    decreases |bs|
  {
    if bs == [] then d else
      var n := |bs| - 1;
      DeliverOne(Deliver(d, bs[..n], routes[..n], cap), bs[n], routes[n], cap)
  }

  /** The workers the rule table picks for a batch of packets, one selection after the other. */
  function Choices(table: map<nat, seq<nat>>, selectIdx: nat, types: seq<nat>): (r: seq<nat>)
    ensures |r| == |types|
    decreases |types|
  {
    if types == [] then [] else
      var n := |types| - 1;
      var ids := RoutesOf(table, types[n]);
      Choices(table, selectIdx, types[..n]) + [if ids == [] then 0 else RoundRobin(ids, selectIdx + n)]
  }

  /** The packets whose chosen worker is w, in ring order. */
  function RoutedTo(bs: seq<nat>, routes: seq<nat>, w: nat): seq<nat>
    requires |bs| == |routes|
    decreases |bs|
  {
    if bs == [] then [] else
      var n := |bs| - 1;
      RoutedTo(bs[..n], routes[..n], w) + if routes[n] == w then [bs[n]] else []
  }

  function Min(a: nat, b: nat): nat { if a < b then a else b }

  /** Each worker gets the packets routed to it, in ring order, up to the room in its queue. */
  lemma {:induction false} DeliveredInOrder(d: Delivery, bs: seq<nat>, routes: seq<nat>, cap: nat, w: nat)
    requires |bs| == |routes| && w < |d.queues| && |d.queues[w]| <= cap
    requires forall i :: 0 <= i < |bs| ==> bs[i] < |d.flags|
    ensures var mine := RoutedTo(bs, routes, w);
            Deliver(d, bs, routes, cap).queues[w] == d.queues[w] + mine[..Min(|mine|, cap - |d.queues[w]|)]
    decreases |bs|
  {
    if bs != [] {
      var n := |bs| - 1;
      DeliveredInOrder(d, bs[..n], routes[..n], cap, w);
      var before, mine := RoutedTo(bs[..n], routes[..n], w), RoutedTo(bs, routes, w);
      var room := cap - |d.queues[w]|;
      if |before| < room {
        assert mine[..Min(|mine|, room)] == mine;
        assert before[..Min(|before|, room)] == before;
      } else {
        assert mine[..room] == before[..room];
      }
    }
  }

  /** A packet's buffer ends APP_OWNED in its worker's queue when those routed there before it have left room, and FREE
      otherwise. */
  lemma {:induction false} DeliveredOrFreed(d: Delivery, bs: seq<nat>, routes: seq<nat>, cap: nat, i: nat)
    requires |bs| == |routes| && i < |bs|
    requires forall j, k :: 0 <= j < k < |bs| ==> bs[j] != bs[k]
    requires forall j :: 0 <= j < |bs| ==> bs[j] < |d.flags| && routes[j] < |d.queues|
    requires |d.queues[routes[i]]| <= cap
    ensures var r, w := Deliver(d, bs, routes, cap), routes[i];
            if |d.queues[w]| + |RoutedTo(bs[..i], routes[..i], w)| < cap then r.flags[bs[i]] == AppOwned && bs[i] in r.queues[w]
            else r.flags[bs[i]] == Free
    decreases |bs|
  {
    var n := |bs| - 1;
    var before := Deliver(d, bs[..n], routes[..n], cap);
    if i < n {
      DeliveredOrFreed(d, bs[..n], routes[..n], cap, i);
      assert bs[..n][i] == bs[i] && routes[..n][i] == routes[i] && bs[i] != bs[n];
      assert bs[..n][..i] == bs[..i] && routes[..n][..i] == routes[..i];
    } else {
      DeliveredInOrder(d, bs[..n], routes[..n], cap, routes[n]);
      LastDelivered(before, bs[n], routes[n], cap);
    }
  }

  lemma LastDelivered(d: Delivery, b: nat, w: nat, cap: nat)
    requires b < |d.flags| && w < |d.queues|
    ensures var r := DeliverOne(d, b, w, cap);
            if |d.queues[w]| < cap then r.flags[b] == AppOwned && b in r.queues[w] else r.flags[b] == Free
  {
    if |d.queues[w]| < cap {
      var q := DeliverOne(d, b, w, cap).queues[w];
      assert q[|q| - 1] == b;
    }
  }

  /** The packets of a batch whose buffers are APP_OWNED. */
  function Owned(flags: seq<BufState>, bs: seq<nat>): set<nat> {
    set i | 0 <= i < |bs| && bs[i] < |flags| && flags[bs[i]] == AppOwned
  }

  lemma OwnedNext(before: seq<BufState>, after: seq<BufState>, bs: seq<nat>, n: nat)
    requires |bs| == n + 1 && |after| == |before| && bs[n] < |after|
    requires forall i :: 0 <= i < n ==> bs[i] < |before| && after[bs[i]] == before[bs[i]]
    ensures |Owned(after, bs)| == |Owned(before, bs[..n])| + if after[bs[n]] == AppOwned then 1 else 0
  {
    assert Owned(after, bs) == Owned(before, bs[..n]) + if after[bs[n]] == AppOwned then {n} else {};
  }

  /** What `dispatch_rx_pkts` returns is the number of packets handed over. */
  lemma {:induction false} TotalIsHandedOver(d: Delivery, bs: seq<nat>, routes: seq<nat>, cap: nat)
    requires |bs| == |routes| && forall j, k :: 0 <= j < k < |bs| ==> bs[j] != bs[k]
    requires forall j :: 0 <= j < |bs| ==> bs[j] < |d.flags| && routes[j] < |d.queues|
    ensures var r := Deliver(d, bs, routes, cap); r.total == d.total + |Owned(r.flags, bs)|
    decreases |bs|
  {
    if bs != [] {
      var n := |bs| - 1;
      var before := Deliver(d, bs[..n], routes[..n], cap);
      TotalIsHandedOver(d, bs[..n], routes[..n], cap);
      OwnedNext(before.flags, DeliverOne(before, bs[n], routes[n], cap).flags, bs, n);
    }
  }

  class RecvRing {
    const depth: nat             // kRQDepth
    const flag: array<BufState>  // rx_ring_[i]->state_
    const next: array<nat>       // rx_ring_[i]->next_
    const length: array<nat>     // rx_ring_[i]->length_
    const wrNext: array<Link>    // recv_wr[i].next
    var recvHead: nat
    var ringHead: nat
    var waitForDisp: nat
    var nic: seq<nat>            // the NIC's receive queue, oldest first

    ghost predicate Tables()
      reads this, next, wrNext
    {
      && depth > 0 && flag.Length == depth && next.Length == depth && length.Length == depth && wrNext.Length == depth
      && next != length && (forall i :: 0 <= i < depth ==> next[i] == (i + 1) % depth) && FullCycle(wrNext[..])
    }

    /** From `ring_head_`: the buffers waiting for dispatch, then the NIC's, up to `recv_head_`. */
    ghost predicate Indices()
      reads this
    {
      && depth > 0 && ringHead < depth && waitForDisp + |nic| <= depth
      && nic == Arc(Slot(ringHead, waitForDisp, depth), |nic|, depth)
      && recvHead == Slot(ringHead, waitForDisp + |nic|, depth)
    }

    ghost predicate Valid()
      reads this, flag, next, wrNext
    {
      Tables() && Indices() && AllHave(flag[..], ringHead, waitForDisp + |nic|, Posted)
    }

    /** `init_recvs`: link both circular lists, and post the whole ring through a list cut at its end. */
    constructor (depth: nat)
      requires depth > 0
      ensures Valid() && this.depth == depth && recvHead == 0 && ringHead == 0 && waitForDisp == 0
      ensures nic == Arc(0, depth, depth)
      ensures fresh(flag) && fresh(next) && fresh(length) && fresh(wrNext)
    {
      this.depth := depth;
      flag := new BufState[depth](_ => Free);
      next := new nat[depth](_ => 0);
      length := new nat[depth](_ => 0);
      wrNext := new Link[depth](_ => Null);
      recvHead, ringHead, waitForDisp, nic := 0, 0, 0, [];
      new;
      for i := 0 to depth
        invariant forall k :: 0 <= k < i ==> flag[k] == Posted && wrNext[k] == To((k + 1) % depth)
        invariant recvHead == 0 && ringHead == 0 && waitForDisp == 0 && nic == []
      {
        RemainderSmall(i + 1, depth);
        flag[i] := Posted;
        wrNext[i] := if i < depth - 1 then To(i + 1) else To(0);
      }
      for i := 0 to depth
        invariant forall k :: 0 <= k < i ==> next[k] == (k + 1) % depth
        invariant forall k :: 0 <= k < depth ==> flag[k] == Posted && wrNext[k] == To((k + 1) % depth)
        invariant recvHead == 0 && ringHead == 0 && waitForDisp == 0 && nic == []
      {
        RemainderSmall(i + 1, depth);
        next[i] := if i < depth - 1 then i + 1 else 0;
      }
      FullTurnSlot(0, depth);
      RemainderSmall(0, depth);
      PostRecvs(depth);
    }

    /** Cut the list after the last request, hand the chain to the NIC, restore the list. */
    method PostRecvs(n: nat)
      requires depth > 0 && wrNext.Length == depth && FullCycle(wrNext[..]) && recvHead < depth && 1 <= n <= depth
      modifies this`nic, this`recvHead, wrNext
      ensures nic == old(nic) + Arc(old(recvHead), n, depth)
      ensures wrNext[..] == old(wrNext[..]) && recvHead == Slot(old(recvHead), n, depth)
    {
      var first := recvHead;
      var last := first + (n - 1);
      RemainderSmall(last, depth);
      if last >= depth { last := last - depth; }
      PostThrough(first, last, n);
      SlotNext(first, n - 1, depth);
      recvHead := (last + 1) % depth;
    }

    /** The chain from the first to the last request, cut, posted and restored. */
    method PostThrough(first: nat, last: nat, n: nat)
      requires depth > 0 && wrNext.Length == depth && FullCycle(wrNext[..]) && first < depth && 1 <= n <= depth
      requires last == (first + n - 1) % depth
      modifies this`nic, wrNext
      ensures nic == old(nic) + Arc(first, n, depth) && wrNext[..] == old(wrNext[..])
    {
      var temp := wrNext[last];
      ghost var cycle := wrNext[..];
      wrNext[last] := Null; // the chain ends here for the NIC
      assert wrNext[..] == CutAfter(cycle, first, n);
      ChainVisitsExactly(cycle, first, n, depth);
      nic := nic + Follow(wrNext[..], To(first), depth);
      wrNext[last] := temp; // and is one cycle again
      assert wrNext[..] == cycle;
    }

    /** The repost loop: walk `next_` from `recv_head_`, marking FREE buffers POSTED, until one is not FREE. */
    method MarkFree() returns (n: nat)
      requires Tables() && recvHead < depth
      modifies flag
      ensures n == FreeRun(old(flag[..]), recvHead, 0)
      ensures flag[..] == WithFlags(old(flag[..]), Arc(recvHead, n, depth), Posted)
    {
      n := 0;
      var entry := recvHead;
      ghost var was := flag[..];
      RemainderSmall(recvHead, depth);
      while flag[entry] == Free
        invariant n <= depth && entry == Slot(recvHead, n, depth)
        invariant FreeRun(was, recvHead, n) == FreeRun(was, recvHead, 0)
        invariant flag[..] == WithFlags(was, Arc(recvHead, n, depth), Posted)
        decreases depth - n
      {
        WalkStays(was, recvHead, n);
        n := n + 1;
        flag[entry] := Posted;
        SlotNext(recvHead, n - 1, depth);
        entry := next[entry];
      }
      WalkStays(was, recvHead, n);
    }

    /** Mark the run of FREE buffers and, if there is one, post it. */
    method MarkAndPost() returns (n: nat)
      requires Tables() && recvHead < depth
      modifies this`nic, this`recvHead, flag, wrNext
      ensures n == FreeRun(old(flag[..]), old(recvHead), 0)
      ensures nic == old(nic) + Arc(old(recvHead), n, depth) && recvHead == Slot(old(recvHead), n, depth)
      ensures flag[..] == WithFlags(old(flag[..]), Arc(old(recvHead), n, depth), Posted)
      ensures wrNext[..] == old(wrNext[..])
    {
      RemainderSmall(recvHead, depth);
      n := MarkFree();
      if n > 0 { PostRecvs(n); }
    }

    /** The first half of `rx_burst`: hand the NIC every FREE buffer from `recv_head_` on. */
    method Repost() returns (n: nat)
      requires Valid()
      modifies this`nic, this`recvHead, flag, wrNext
      ensures Valid() && n == FreeRun(old(flag[..]), old(recvHead), 0)
      ensures nic == old(nic) + Arc(old(recvHead), n, depth) && recvHead == Slot(old(recvHead), n, depth)
      ensures flag[..] == WithFlags(old(flag[..]), Arc(old(recvHead), n, depth), Posted)
      ensures wrNext[..] == old(wrNext[..])
    {
      Reposted(flag[..], ringHead, waitForDisp, nic, recvHead, FreeRun(flag[..], recvHead, 0), depth);
      n := MarkAndPost();
    }

    /** The byte lengths of the completions go to the buffers after those that already wait. */
    method FillLengths(lens: seq<nat>)
      requires depth > 0 && length.Length == depth
      modifies length
      ensures length[..] == WithLengths(old(length[..]), Slot(ringHead, waitForDisp, depth), lens)
    {
      assert lens[..0] == [];
      for i := 0 to |lens|
        invariant length[..] == WithLengths(old(length[..]), Slot(ringHead, waitForDisp, depth), lens[..i])
      {
        SlotShift(ringHead, waitForDisp, i, depth);
        assert lens[..i + 1][..i] == lens[..i];
        length[(ringHead + waitForDisp + i) % depth] := lens[i];
      }
      assert lens[..|lens|] == lens;
    }

    /** The second half: the NIC has filled the oldest posted buffers; `lens` are their byte lengths. */
    method Poll(lens: seq<nat>)
      requires Valid() && |lens| <= |nic|
      modifies this`nic, this`waitForDisp, length
      ensures Valid() && waitForDisp == old(waitForDisp) + |lens| && nic == old(nic)[|lens|..]
      ensures length[..] == WithLengths(old(length[..]), Slot(ringHead, old(waitForDisp), depth), lens)
    {
      FillLengths(lens);
      SlotShift(ringHead, waitForDisp, |lens|, depth);
      ArcFrom(Slot(ringHead, waitForDisp, depth), |lens|, |nic|, depth);
      waitForDisp := waitForDisp + |lens|;
      nic := nic[|lens|..];
    }

    /** `rx_burst`. The NIC can only have filled buffers it was given. */
    method RxBurst(lens: seq<nat>) returns (ret: nat)
      requires Valid() && |lens| <= |nic| + FreeRun(flag[..], recvHead, 0)
      modifies this`nic, this`recvHead, this`waitForDisp, flag, length, wrNext
      ensures Valid() && ret == |lens| && waitForDisp == old(waitForDisp) + ret
      ensures var n := FreeRun(old(flag[..]), old(recvHead), 0);
              && nic == (old(nic) + Arc(old(recvHead), n, depth))[ret..]
              && flag[..] == WithFlags(old(flag[..]), Arc(old(recvHead), n, depth), Posted)
              && recvHead == Slot(old(recvHead), n, depth)
      ensures var slots := Arc(Slot(ringHead, old(waitForDisp), depth), |lens|, depth);
              && (forall i :: 0 <= i < |lens| ==> length[slots[i]] == lens[i])
              && forall k :: 0 <= k < depth && k !in slots ==> length[k] == old(length[..])[k]
      ensures wrNext[..] == old(wrNext[..])
    {
      var n := Repost();
      FilledFrom(length[..], Slot(ringHead, waitForDisp, depth), lens);
      Poll(lens);
      ret := |lens|;
    }

    /** Enqueue one buffer and mark it APP_OWNED, or drop it and mark it FREE. */
    method DeliverEntry(entry: nat, w: nat, rxQueues: array<seq<nat>>, cap: nat, count: nat) returns (total: nat)
      requires entry < flag.Length && w < rxQueues.Length
      modifies flag, rxQueues
      ensures Delivery(rxQueues[..], flag[..], total)
           == DeliverOne(Delivery(old(rxQueues[..]), old(flag[..]), count), entry, w, cap)
    {
      total := count;
      if |rxQueues[w]| >= cap {
        flag[entry] := Free; // drop the packet: the worker's queue is full
        return;
      }
      rxQueues[w] := rxQueues[w] + [entry];
      flag[entry] := AppOwned;
      total := total + 1;
    }

    /** One turn of the dispatch loop: the i-th waiting buffer goes to the worker that the rule table picks. */
    method DeliverChosen(rules: RuleTable, types: seq<nat>, i: nat, rxQueues: array<seq<nat>>, cap: nat, count: nat, entry: nat,
                         ghost start: Delivery, ghost bs: seq<nat>, ghost to: seq<nat>) returns (total: nat)
      requires i < |types| == |bs| && entry < flag.Length && entry == bs[i] && rules.selectIdx >= i
      requires to == Choices(rules.table, rules.selectIdx - i, types) && GoodRoutes(rules.table, types[i], rxQueues.Length)
      requires Delivery(rxQueues[..], flag[..], count) == Deliver(start, bs[..i], to[..i], cap)
      modifies flag, rules`selectIdx, rxQueues
      ensures rules.selectIdx == old(rules.selectIdx) + 1
      ensures Delivery(rxQueues[..], flag[..], total) == Deliver(start, bs[..i + 1], to[..i + 1], cap)
    {
      ChoicesAt(rules.table, rules.selectIdx - i, types, i);
      var w := rules.RrSelect(types[i]);
      DeliverNext(start, bs, to, i, cap);
      total := DeliverEntry(entry, w, rxQueues, cap, count);
    }

    /** The dispatch loop: each waiting buffer goes to the worker the rule table picks for its workload type
        (`types`, read from the packet headers), or is freed when that worker's queue is full. */
    method DeliverWaiting(rules: RuleTable, types: seq<nat>, rxQueues: array<seq<nat>>, cap: nat) returns (total: nat)
      requires Tables() && ringHead < depth && |types| == waitForDisp
      requires forall i :: 0 <= i < |types| ==> GoodRoutes(rules.table, types[i], rxQueues.Length)
      modifies flag, rules`selectIdx, rxQueues
      ensures Delivery(rxQueues[..], flag[..], total)
           == Deliver(Delivery(old(rxQueues[..]), old(flag[..]), 0), Arc(ringHead, waitForDisp, depth),
                      Choices(rules.table, old(rules.selectIdx), types), cap)
      ensures rules.selectIdx == old(rules.selectIdx) + |types|
    {
      total := 0;
      var entry := ringHead;
      ghost var start := Delivery(rxQueues[..], flag[..], 0);
      ghost var bs, to := Arc(ringHead, waitForDisp, depth), Choices(rules.table, rules.selectIdx, types);
      RemainderSmall(ringHead, depth);
      for i := 0 to waitForDisp
        invariant entry == Slot(ringHead, i, depth)
        invariant Delivery(rxQueues[..], flag[..], total) == Deliver(start, bs[..i], to[..i], cap)
        invariant rules.selectIdx == old(rules.selectIdx) + i
      {
        total := DeliverChosen(rules, types, i, rxQueues, cap, total, entry, start, bs, to);
        WalkNext(next[..], ringHead, i);
        entry := next[entry];
      }
      assert bs[..waitForDisp] == bs && to[..waitForDisp] == to;
    }

    method AdvanceRingHead()
      requires Tables() && Indices() && AllHave(flag[..], Slot(ringHead, waitForDisp, depth), |nic|, Posted)
      modifies this`ringHead, this`waitForDisp
      ensures Valid() && ringHead == Slot(old(ringHead), old(waitForDisp), depth) && waitForDisp == 0
    {
      SlotShift(ringHead, waitForDisp, |nic|, depth);
      SlotStart(Slot(ringHead, waitForDisp, depth), depth);
      ringHead := (ringHead + waitForDisp) % depth;
      waitForDisp := 0;
    }

    /** `dispatch_rx_pkts`: deliver every waiting buffer, then advance `ring_head_` past them. */
    method DispatchRxPkts(rules: RuleTable, types: seq<nat>, rxQueues: array<seq<nat>>, cap: nat) returns (total: nat)
      requires Valid() && |types| == waitForDisp
      requires forall i :: 0 <= i < |types| ==> GoodRoutes(rules.table, types[i], rxQueues.Length)
      modifies this`ringHead, this`waitForDisp, flag, rules`selectIdx, rxQueues
      ensures Valid() && ringHead == Slot(old(ringHead), old(waitForDisp), depth) && waitForDisp == 0
      ensures Delivery(rxQueues[..], flag[..], total)
           == Deliver(Delivery(old(rxQueues[..]), old(flag[..]), 0), Arc(old(ringHead), old(waitForDisp), depth),
                      Choices(rules.table, old(rules.selectIdx), types), cap)
      ensures rules.selectIdx == old(rules.selectIdx) + |types|
    {
      ghost var start := Delivery(rxQueues[..], flag[..], 0);
      ghost var to := Choices(rules.table, rules.selectIdx, types);
      total := DeliverWaiting(rules, types, rxQueues, cap);
      DeliverySparesNic(start, ringHead, waitForDisp, |nic|, to, cap);
      AdvanceRingHead();
    }
  }

  /** A workload type that can be dispatched: it has routes, and they name worker queues that exist. */
  ghost predicate GoodRoutes(table: map<nat, seq<nat>>, workload: nat, queues: nat) {
    var ids := RoutesOf(table, workload);
    ids != [] && forall k :: 0 <= k < |ids| ==> ids[k] < queues
  }

  lemma {:induction false} ChoicesAt(table: map<nat, seq<nat>>, selectIdx: int, types: seq<nat>, i: nat)
    requires selectIdx >= 0 && i < |types| && RoutesOf(table, types[i]) != []
    ensures Choices(table, selectIdx, types)[i] == RoundRobin(RoutesOf(table, types[i]), selectIdx + i)
    decreases |types|
  {
    var n := |types| - 1;
    if i < n { ChoicesAt(table, selectIdx, types[..n], i); }
  }

  /** Following `next_` steps to the next slot. */
  lemma WalkNext(next: seq<nat>, head: nat, i: nat)
    requires |next| > 0 && forall k :: 0 <= k < |next| ==> next[k] == (k + 1) % |next|
    ensures next[Slot(head, i, |next|)] == Slot(head, i + 1, |next|)
  {
    SlotNext(head, i, |next|);
  }

  lemma DeliverNext(d: Delivery, bs: seq<nat>, routes: seq<nat>, i: nat, cap: nat)
    requires |bs| == |routes| && i < |bs|
    ensures Deliver(d, bs[..i + 1], routes[..i + 1], cap) == DeliverOne(Deliver(d, bs[..i], routes[..i], cap), bs[i], routes[i], cap)
  {
    assert bs[..i + 1][..i] == bs[..i] && routes[..i + 1][..i] == routes[..i];
  }

  lemma {:induction false} DeliveryElsewhere(d: Delivery, bs: seq<nat>, routes: seq<nat>, cap: nat, b: nat)
    requires |bs| == |routes| && b < |d.flags| && b !in bs
    ensures Deliver(d, bs, routes, cap).flags[b] == d.flags[b]
    decreases |bs|
  {
    if bs != [] { DeliveryElsewhere(d, bs[..|bs| - 1], routes[..|bs| - 1], cap, b); }
  }

  /** Dispatching the waiting buffers leaves the flags of the NIC's buffers alone. */
  lemma DeliverySparesNic(d: Delivery, ringHead: nat, wait: nat, posted: nat, routes: seq<nat>, cap: nat)
    requires |routes| == wait && 0 < |d.flags| && wait + posted <= |d.flags|
    requires AllHave(d.flags, ringHead, wait + posted, Posted)
    ensures AllHave(Deliver(d, Arc(ringHead, wait, |d.flags|), routes, cap).flags, Slot(ringHead, wait, |d.flags|), posted, Posted)
  {
    var depth := |d.flags|;
    var bs := Arc(ringHead, wait, depth);
    forall i | 0 <= i < posted
      ensures Deliver(d, bs, routes, cap).flags[Slot(Slot(ringHead, wait, depth), i, depth)] == Posted
    {
      SlotShift(ringHead, wait, i, depth);
      forall k | 0 <= k < wait ensures bs[k] != Slot(ringHead, wait + i, depth) {
        OffsetsDistinct(ringHead, k, wait + i, depth);
      }
      DeliveryElsewhere(d, bs, routes, cap, Slot(ringHead, wait + i, depth));
    }
  }

  lemma SlotStart(head: nat, depth: nat)
    requires head < depth
    ensures Slot(head, 0, depth) == head
  {
    RemainderSmall(head, depth);
  }

  lemma RepostGeometry(ringHead: nat, wait: nat, nic: seq<nat>, recvHead: nat, n: nat, depth: nat)
    requires depth > 0 && nic == Arc(Slot(ringHead, wait, depth), |nic|, depth)
    requires recvHead == Slot(ringHead, wait + |nic|, depth)
    ensures nic + Arc(recvHead, n, depth) == Arc(Slot(ringHead, wait, depth), |nic| + n, depth)
    ensures Slot(recvHead, n, depth) == Slot(ringHead, wait + |nic| + n, depth)
  {
    ArcSplit(Slot(ringHead, wait, depth), |nic|, n, depth);
    SlotShift(ringHead, wait, |nic|, depth);
    SlotShift(ringHead, wait + |nic|, n, depth);
  }

  /** What posting the n FREE buffers behind the NIC's does to the indices and flags. */
  lemma Reposted(flags: seq<BufState>, ringHead: nat, wait: nat, nic: seq<nat>, recvHead: nat, n: nat, d: nat)
    requires 0 < d == |flags| && wait + |nic| <= d && nic == Arc(Slot(ringHead, wait, d), |nic|, d)
    requires recvHead == Slot(ringHead, wait + |nic|, d) && AllHave(flags, ringHead, wait + |nic|, Posted)
    requires n == FreeRun(flags, recvHead, 0)
    ensures wait + |nic| + n <= d && nic + Arc(recvHead, n, d) == Arc(Slot(ringHead, wait, d), |nic| + n, d)
    ensures Slot(recvHead, n, d) == Slot(ringHead, wait + |nic| + n, d)
    ensures AllHave(WithFlags(flags, Arc(recvHead, n, d), Posted), ringHead, wait + |nic| + n, Posted)
  {
    FreeRunFits(flags, ringHead, wait + |nic|);
    RepostGeometry(ringHead, wait, nic, recvHead, n, d);
    RepostFlags(flags, ringHead, wait + |nic|, n);
  }

  lemma RepostFlags(flags: seq<BufState>, ringHead: nat, w: nat, n: nat)
    requires |flags| > 0 && AllHave(flags, ringHead, w, Posted)
    ensures AllHave(WithFlags(flags, Arc(Slot(ringHead, w, |flags|), n, |flags|), Posted), ringHead, w + n, Posted)
  {
    var d := |flags|;
    var arc := Arc(Slot(ringHead, w, d), n, d);
    forall i | 0 <= i < w + n
      ensures WithFlags(flags, arc, Posted)[Slot(ringHead, i, d)] == Posted
    {
      WithFlagsAt(flags, arc, Posted, Slot(ringHead, i, d));
      if i >= w {
        SlotShift(ringHead, w, i - w, d);
        assert arc[i - w] == Slot(ringHead, i, d);
      }
    }
  }

  /** After n steps of the walk the entry at hand still has its old flag, or the walk is back at its start
      and finds POSTED. */
  lemma WalkStays(was: seq<BufState>, start: nat, n: nat)
    requires |was| > 0 && n <= |was|
    ensures var f := WithFlags(was, Arc(start, n, |was|), Posted)[Slot(start, n, |was|)];
            if n == |was| then f == Posted else f == was[Slot(start, n, |was|)]
  {
    var d := |was|;
    var arc, b := Arc(start, n, d), Slot(start, n, d);
    WithFlagsAt(was, arc, Posted, b);
    if n == d {
      RemainderAdd(d, start, d);
      RemainderAdd(0, start, d);
      assert arc[0] == b;
    } else {
      forall i | 0 <= i < n ensures arc[i] != b { OffsetsDistinct(start, i, n, d); }
    }
  }
}
