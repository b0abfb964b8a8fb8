/** Collecting from the workers' tx queues, round robin and in batches
    (`src/dispatcher_impl/dpdk/dpdk_dispatcher_dataplane.cc:51-77`), while the workers keep appending. */
module CollectTx {

  /** Steps of the round robin from w until it reaches i. */
  function Distance(i: nat, w: nat, n: nat): nat
    requires i < n && w < n
  {
    if i >= w then i - w else i + n - w
  }

  /** The queue visited j steps after w. */
  function Visit(w: nat, j: nat, n: nat): (i: nat)
    requires w < n
    ensures i < n
    ensures j < n ==> Distance(i, w, n) == j
  {
    if j == 0 then w else
      var p := Visit(w, j - 1, n);
      Following(p, n)
  }

  /** `(ws_queue_idx_ + 1) % size`. */
  function Following(w: nat, n: nat): (i: nat)
    requires w < n
    ensures i < n && i == if w + 1 == n then 0 else w + 1
  {
    (w + 1) % n
  }

  function Flat(chunks: seq<seq<nat>>): seq<nat> {
    if chunks == [] then [] else Flat(chunks[..|chunks| - 1]) + chunks[|chunks| - 1]
  }

  /** What has been taken from each queue, after one chunk from each queue visited in turn from w. */
  function TakenAfter(taken: seq<seq<nat>>, w: nat, chunks: seq<seq<nat>>): (t: seq<seq<nat>>)
    requires w < |taken|
    ensures |t| == |taken|
  {
    if chunks == [] then taken else
      var j := |chunks| - 1;
      var rest := TakenAfter(taken, w, chunks[..j]);
      var i := Visit(w, j, |taken|);
      rest[i := rest[i] + chunks[j]]
  }

  /** With no more visits than queues, each queue gives at most one chunk. */
  lemma {:induction false} OneChunkEach(taken: seq<seq<nat>>, w: nat, chunks: seq<seq<nat>>, i: nat)
    requires w < |taken| && i < |taken| && |chunks| <= |taken|
    ensures TakenAfter(taken, w, chunks)[i]
         == taken[i] + if Distance(i, w, |taken|) < |chunks| then chunks[Distance(i, w, |taken|)] else []
  {
    if chunks != [] {
      var j := |chunks| - 1;
      OneChunkEach(taken, w, chunks[..j], i);
      var v := Visit(w, j, |taken|);
      if i != v { SameDistance(i, v, w, |taken|); }
    }
  }

  lemma ChunkAfter(taken: seq<seq<nat>>, w: nat, chunks: seq<seq<nat>>, chunk: seq<nat>, ring: seq<nat>)
    requires w < |taken|
    ensures ring + Flat(chunks + [chunk]) == ring + Flat(chunks) + chunk
    ensures var i := Visit(w, |chunks|, |taken|);
            TakenAfter(taken, w, chunks + [chunk])
            == TakenAfter(taken, w, chunks)[i := TakenAfter(taken, w, chunks)[i] + chunk]
    ensures Visit(w, |chunks| + 1, |taken|) == Following(Visit(w, |chunks|, |taken|), |taken|)
  {
    assert (chunks + [chunk])[..|chunks|] == chunks;
  }

  lemma SameDistance(i: nat, k: nat, w: nat, n: nat)
    requires i < n && k < n && w < n && i != k
    ensures Distance(i, w, n) != Distance(k, w, n)
  {
  }

  /** A queue read to be below the threshold is skipped; any other gives what was read, or what the ring has room for. */
  predicate BatchSize(threshold: nat, seen: nat, size: nat, remain: nat) {
    size == if seen < threshold then 0 else if seen < remain then seen else remain
  }

  /** The size reads that a call has made, visiting from w the queues that held `held` before it: none saw less than
      that, and each decided its chunk, with what the chunks before had left of the room. */
  ghost predicate Told(threshold: nat, held: seq<seq<nat>>, w: nat, room: nat, chunks: seq<seq<nat>>, sizes: seq<nat>)
    requires w < |held| && |sizes| == |chunks|
    decreases |chunks|
  {
    chunks == [] ||
    var j := |chunks| - 1;
    var before := |Flat(chunks[..j])|;
    && Told(threshold, held, w, room, chunks[..j], sizes[..j]) && |held[Visit(w, j, |held|)]| <= sizes[j] && before <= room
    && BatchSize(threshold, sizes[j], |chunks[j]|, room - before)
  }

  lemma ToldNext(threshold: nat, held: seq<seq<nat>>, w: nat, room: nat, chunks: seq<seq<nat>>, sizes: seq<nat>,
                 chunk: seq<nat>, seen: nat)
    requires w < |held| && |sizes| == |chunks| && Told(threshold, held, w, room, chunks, sizes)
    requires |held[Visit(w, |chunks|, |held|)]| <= seen
    requires |Flat(chunks)| <= room && BatchSize(threshold, seen, |chunk|, room - |Flat(chunks)|)
    ensures Told(threshold, held, w, room, chunks + [chunk], sizes + [seen])
  {
    assert (chunks + [chunk])[..|chunks|] == chunks && (sizes + [seen])[..|chunks|] == sizes;
  }

  /** So a chunk is taken only from a queue read to be at or over the threshold, and is then everything read that the
      ring has room for. */
  lemma {:induction false} ToldAt(threshold: nat, held: seq<seq<nat>>, w: nat, room: nat, chunks: seq<seq<nat>>, sizes: seq<nat>,
                                  j: nat)
    requires w < |held| && |sizes| == |chunks| && Told(threshold, held, w, room, chunks, sizes) && j < |chunks|
    ensures |held[Visit(w, j, |held|)]| <= sizes[j] && |Flat(chunks[..j])| <= room
    ensures var left := room - |Flat(chunks[..j])|;
            |chunks[j]| == if sizes[j] < threshold then 0 else if sizes[j] < left then sizes[j] else left
    decreases |chunks|
  {
    var n := |chunks| - 1;
    if j < n {
      ToldAt(threshold, held, w, room, chunks[..n], sizes[..n], j);
      assert chunks[..n][..j] == chunks[..j];
    }
  }

  /** The same for a collector that reads each size twice: the second read is taken when the first fits. */
  ghost predicate ToldTwice(held: seq<seq<nat>>, w: nat, room: nat, chunks: seq<seq<nat>>, sizes: seq<(nat, nat)>)
    requires w < |held| && |sizes| == |chunks|
    decreases |chunks|
  {
    chunks == [] ||
    var j := |chunks| - 1;
    var before := |Flat(chunks[..j])|;
    && ToldTwice(held, w, room, chunks[..j], sizes[..j]) && |held[Visit(w, j, |held|)]| <= sizes[j].0 <= sizes[j].1
    && before <= room && |chunks[j]| == if sizes[j].0 > room - before then room - before else sizes[j].1
  }

  lemma ToldTwiceNext(held: seq<seq<nat>>, w: nat, room: nat, chunks: seq<seq<nat>>, sizes: seq<(nat, nat)>, chunk: seq<nat>,
                      read: (nat, nat))
    requires w < |held| && |sizes| == |chunks| && ToldTwice(held, w, room, chunks, sizes)
    requires |held[Visit(w, |chunks|, |held|)]| <= read.0 <= read.1
    requires |Flat(chunks)| <= room && |chunk| == if read.0 > room - |Flat(chunks)| then room - |Flat(chunks)| else read.1
    ensures ToldTwice(held, w, room, chunks + [chunk], sizes + [read])
  {
    assert (chunks + [chunk])[..|chunks|] == chunks && (sizes + [read])[..|chunks|] == sizes;
  }

  lemma {:induction false} ToldTwiceAt(held: seq<seq<nat>>, w: nat, room: nat, chunks: seq<seq<nat>>, sizes: seq<(nat, nat)>, j: nat)
    requires w < |held| && |sizes| == |chunks| && ToldTwice(held, w, room, chunks, sizes) && j < |chunks|
    ensures |held[Visit(w, j, |held|)]| <= sizes[j].0 <= sizes[j].1 && |Flat(chunks[..j])| <= room
    ensures var left := room - |Flat(chunks[..j])|; |chunks[j]| == if sizes[j].0 > left then left else sizes[j].1
    decreases |chunks|
  {
    var n := |chunks| - 1;
    if j < n {
      ToldTwiceAt(held, w, room, chunks[..n], sizes[..n], j);
      assert chunks[..n][..j] == chunks[..j];
    }
  }

  /** A queue not yet visited still has what it held, and what came since. */
  lemma StillHeld(p: seq<nat>, t: seq<nat>, held: seq<nat>, produced: seq<nat>, taken: seq<nat>, queue: seq<nat>)
    requires p == t + held && p <= produced && taken == t && produced == taken + queue
    ensures |held| <= |queue|
  {
  }

  /** Enough waits in a queue out of what it got, when t has been taken. */
  predicate Waiting(threshold: nat, p: seq<nat>, t: seq<nat>) {
    |p| - |t| >= threshold && |p| - |t| >= 1
  }

  /** Queue i has been served since t, or its turn is v visits nearer than it was from w. */
  predicate Nearer(t: seq<seq<nat>>, w: nat, taken: seq<seq<nat>>, now: nat, v: nat, i: nat)
    requires i < |t| == |taken| && w < |t| && now < |t|
  {
    |taken[i]| > |t[i]| || (taken[i] == t[i] && Distance(i, now, |t|) + v == Distance(i, w, |t|))
  }

  lemma OneVisitNearer(threshold: nat, p0: seq<nat>, p1: seq<nat>, t: seq<seq<nat>>, w: nat, taken: seq<seq<nat>>,
                       now: nat, v: nat, chunk: seq<nat>, seen: nat, remain: nat, i: nat)
    requires i < |t| == |taken| && w < |t| && now < |t| && v < |t| && remain > 0
    requires Waiting(threshold, p0, t[i]) && p0 <= p1
    requires Nearer(t, w, taken, now, v, i)
    requires |taken[i]| <= |p1| && (i == now ==> |p1| - |taken[i]| <= seen && BatchSize(threshold, seen, |chunk|, remain))
    ensures Nearer(t, w, taken[now := taken[now] + chunk], Following(now, |t|), v + 1, i)
  {
  }

  /** What n full queues hold. */
  function FullQueues(n: nat, capacity: nat): nat {
    if n == 0 then 0 else FullQueues(n - 1, capacity) + capacity
  }

  lemma {:induction false} FullQueuesIs(n: nat, capacity: nat)
    ensures FullQueues(n, capacity) == n * capacity
  {
    if n > 0 {
      FullQueuesIs(n - 1, capacity);
      assert n * capacity == (n - 1) * capacity + capacity;
    }
  }

  /** A batch of one queue fits if the ring holds all that there can be, or has room for what k queues can hold. */
  lemma BatchFits(size: nat, capacity: nat, supply: nat, ring: nat, idx: nat, k: nat)
    requires size <= capacity && idx + size <= supply && idx <= ring && k >= 1
    requires supply <= ring || FullQueues(k, capacity) <= ring - idx
    ensures idx + size <= ring && (supply <= ring || FullQueues(k - 1, capacity) <= ring - idx - size)
  {
  }

  /** Packets in all the queues together. */
  function Load(qs: seq<seq<nat>>): nat {
    if qs == [] then 0 else Load(qs[..|qs| - 1]) + |qs[|qs| - 1]|
  }

  lemma {:induction false} LoadUpdate(qs: seq<seq<nat>>, i: nat, q: seq<nat>)
    requires i < |qs|
    ensures Load(qs[i := q]) + |qs[i]| == Load(qs) + |q| && |qs[i]| <= Load(qs)
    decreases |qs|
  {
    var n := |qs| - 1;
    if i == n {
      assert qs[i := q][..n] == qs[..n];
    } else {
      assert qs[i := q][..n] == qs[..n][i := q];
      LoadUpdate(qs[..n], i, q);
    }
  }

  lemma {:induction false} LoadOfEmpty(qs: seq<seq<nat>>)
    requires forall i :: 0 <= i < |qs| ==> qs[i] == []
    ensures Load(qs) == 0
  {
    if qs != [] { LoadOfEmpty(qs[..|qs| - 1]); }
  }

  class Collector {
    const queues: array<seq<nat>> // contents of ws_tx_queues_
    const txQueue: array<nat>
    const threshold: nat          // kDispTxBatchSize
    const capacity: nat           // of a worker queue, kWsQueueSize - 1
    const supply: nat             // packets there can be between the workers and the flush
    var txIdx: nat
    var wsIdx: nat
    ghost var produced: seq<seq<nat>>
    ghost var taken: seq<seq<nat>>

    ghost predicate Valid()
      reads this, queues, txQueue
    {
      && wsIdx < queues.Length && txIdx <= txQueue.Length
      && |produced| == |taken| == queues.Length
      && forall i :: 0 <= i < queues.Length ==> produced[i] == taken[i] + queues[i] && |queues[i]| <= capacity
    }

    /** Queues and array together hold no more than the supply. */
    ghost predicate Supplied()
      reads this, queues
    {
      Load(queues[..]) + txIdx <= supply
    }

    /** Every queue's history only grows. */
    ghost predicate GrownFrom(p: seq<seq<nat>>)
      reads this
    {
      |p| == |produced| && forall i :: 0 <= i < |p| ==> p[i] <= produced[i]
    }

    constructor (n: nat, ring: nat, threshold: nat, capacity: nat, supply: nat)
      requires n >= 1
      ensures Valid() && Supplied() && fresh(queues) && fresh(txQueue) && queues.Length == n && txQueue.Length == ring
      ensures this.threshold == threshold && this.capacity == capacity && this.supply == supply
      ensures txIdx == 0 && wsIdx == 0
    {
      queues := new seq<nat>[n](_ => []);
      txQueue := new nat[ring](_ => 0);
      this.threshold, this.capacity, this.supply := threshold, capacity, supply;
      txIdx, wsIdx := 0, 0;
      produced, taken := seq(n, _ => []), seq(n, _ => []);
      new;
      LoadOfEmpty(queues[..]);
    }

    /** A worker appends packets if they fit into its queue and the supply. */
    method Append(i: nat, more: seq<nat>)
      requires Valid() && i < queues.Length
      modifies queues, this`produced
      ensures Valid() && GrownFrom(old(produced)) && (old(Supplied()) ==> Supplied())
    {
      if |queues[i]| + |more| <= capacity && Load(queues[..]) + txIdx + |more| <= supply {
        ghost var was := queues[..];
        LoadUpdate(was, i, was[i] + more);
        queues[i] := queues[i] + more;
        produced := produced[i := produced[i] + more];
        assert queues[..] == was[i := was[i] + more];
      }
    }

    /** The workers at any moment: any of them may append any packets that fit. */
    method Producers()
      requires Valid()
      modifies queues, this`produced
      ensures Valid() && GrownFrom(old(produced)) && (old(Supplied()) ==> Supplied())
    {
      ghost var nothing: seq<seq<nat>> := seq(queues.Length, _ => []);
      assert |nothing| == queues.Length;
      var more: seq<seq<nat>> :| |more| == queues.Length;
      for i := 0 to queues.Length
        invariant Valid() && GrownFrom(old(produced)) && (old(Supplied()) ==> Supplied())
      {
        Append(i, more[i]);
      }
    }

    method DequeueOne(i: nat)
      requires Valid() && i < queues.Length && queues[i] != [] && txIdx < txQueue.Length
      modifies queues, txQueue, this`txIdx, this`taken
      ensures old(Supplied()) ==> Supplied()
      ensures Valid() && txIdx == old(txIdx) + 1 && queues[i] == old(queues[i])[1..]
      ensures txQueue[..txIdx] == old(txQueue[..txIdx]) + [old(queues[i])[0]]
      ensures taken == old(taken)[i := old(taken[i]) + [old(queues[i])[0]]]
      ensures forall d :: 0 <= d < queues.Length && d != i ==> queues[d] == old(queues[d])
    {
      txQueue[txIdx] := queues[i][0];
      taken := taken[i := taken[i] + [queues[i][0]]];
      ghost var was := queues[..];
      LoadUpdate(was, i, queues[i][1..]);
      queues[i] := queues[i][1..];
      assert queues[..] == was[i := queues[i]];
      txIdx := txIdx + 1;
    }

    /** The batch dequeues after one size read; workers append in between. */
    method TakeFrom(i: nat, size: nat) returns (ghost chunk: seq<nat>)
      requires Valid() && i < queues.Length && size <= |queues[i]| && txIdx + size <= txQueue.Length
      modifies queues, txQueue, this`txIdx, this`taken, this`produced
      ensures Valid() && GrownFrom(old(produced)) && |chunk| == size && txIdx == old(txIdx) + size
      ensures old(Supplied()) ==> Supplied()
      ensures txQueue[..txIdx] == old(txQueue[..txIdx]) + chunk
      ensures taken == old(taken)[i := old(taken[i]) + chunk]
    {
      chunk := [];
      for k := 0 to size
        invariant Valid() && GrownFrom(old(produced)) && |chunk| == k && txIdx == old(txIdx) + k
        invariant size - k <= |queues[i]| && (old(Supplied()) ==> Supplied())
        invariant txQueue[..txIdx] == old(txQueue[..txIdx]) + chunk
        invariant taken[i] == old(taken[i]) + chunk
        invariant forall d :: 0 <= d < |taken| && d != i ==> taken[d] == old(taken[d])
      {
        ghost var q := queues[i];
        Producers();
        assert |queues[i]| >= |q|;
        chunk := chunk + [queues[i][0]];
        DequeueOne(i);
      }
    }

    /** One turn of the loop: read the size once, skip a queue below the threshold, otherwise take what fits. */
    method VisitQueue(remain: nat) returns (size: nat, ghost chunk: seq<nat>, ghost seen: nat)
      requires Valid() && remain == txQueue.Length - txIdx > 0
      modifies queues, txQueue, this`txIdx, this`wsIdx, this`taken, this`produced
      ensures Valid() && GrownFrom(old(produced)) && |chunk| == size <= remain && txIdx == old(txIdx) + size
      ensures txQueue[..txIdx] == old(txQueue[..txIdx]) + chunk
      ensures taken == old(taken)[old(wsIdx) := old(taken[wsIdx]) + chunk]
      ensures wsIdx == Following(old(wsIdx), queues.Length)
      ensures |old(queues[wsIdx])| <= seen <= capacity && BatchSize(threshold, seen, size, remain)
    {
      var i := wsIdx;
      ghost var grown := produced;
      Producers();
      assert |grown[i]| <= |produced[i]|;
      var txSize := |queues[i]|;
      seen := txSize;
      wsIdx := (wsIdx + 1) % queues.Length;
      if txSize < threshold {
        assert taken[i] + [] == taken[i];
        size, chunk := 0, [];
        return;
      }
      size := if txSize > remain then remain else txSize;
      chunk := TakeFrom(i, size);
    }

    /** A visit, with what it means for every queue that had a batch waiting before the call. */
    method CollectOne(remain: nat, ghost v: nat, ghost t: seq<seq<nat>>, ghost w: nat, ghost p: seq<seq<nat>>)
      returns (size: nat, ghost chunk: seq<nat>, ghost seen: nat)
      requires Valid() && remain == txQueue.Length - txIdx > 0 && GrownFrom(p)
      requires |t| == queues.Length && w < |t| && v < |t|
      requires forall i :: 0 <= i < |t| && Waiting(threshold, p[i], t[i]) ==> Nearer(t, w, taken, wsIdx, v, i)
      modifies queues, txQueue, this`txIdx, this`wsIdx, this`taken, this`produced
      ensures Valid() && GrownFrom(p) && |chunk| == size <= remain && txIdx == old(txIdx) + size
      ensures txQueue[..txIdx] == old(txQueue[..txIdx]) + chunk
      ensures taken == old(taken)[old(wsIdx) := old(taken[wsIdx]) + chunk]
      ensures wsIdx == Following(old(wsIdx), queues.Length)
      ensures |old(queues[wsIdx])| <= seen && BatchSize(threshold, seen, size, remain)
      ensures forall i :: 0 <= i < |t| && Waiting(threshold, p[i], t[i]) ==> Nearer(t, w, taken, wsIdx, v + 1, i)
    {
      size, chunk, seen := VisitQueue(remain);
      forall i | 0 <= i < |t| && Waiting(threshold, p[i], t[i]) ensures Nearer(t, w, taken, wsIdx, v + 1, i) {
        OneVisitNearer(threshold, p[i], old(produced)[i], t, w, old(taken), old(wsIdx), v, chunk, seen, remain, i);
      }
    }

    /** The queue whose turn it is, the |chunks|-th of the call, has not been touched by the dispatcher yet. */
    lemma NotYetVisited(w: nat, t: seq<seq<nat>>, p: seq<seq<nat>>, held: seq<seq<nat>>, chunks: seq<seq<nat>>)
      requires Valid() && GrownFrom(p) && |t| == |held| == queues.Length && w < |t| && |chunks| < |t|
      requires taken == TakenAfter(t, w, chunks) && wsIdx == Visit(w, |chunks|, |t|)
      requires forall i :: 0 <= i < |t| ==> p[i] == t[i] + held[i]
      ensures |held[wsIdx]| <= |queues[wsIdx]|
    {
      OneChunkEach(t, w, chunks, wsIdx);
      StillHeld(p[wsIdx], t[wsIdx], held[wsIdx], produced[wsIdx], taken[wsIdx], queues[wsIdx]);
    }

    /** What a call that began with the array ring and has taken chunks on these size reads has done so far. */
    ghost predicate SoFar(t: seq<seq<nat>>, w: nat, ring: seq<nat>, held: seq<seq<nat>>, chunks: seq<seq<nat>>, sizes: seq<nat>)
      reads this, txQueue
    {
      && w < |t| == |held| && |sizes| == |chunks| <= |t| && |ring| <= txQueue.Length && txIdx <= txQueue.Length
      && taken == TakenAfter(t, w, chunks) && wsIdx == Visit(w, |chunks|, |t|)
      && txQueue[..txIdx] == ring + Flat(chunks)
      && Told(threshold, held, w, txQueue.Length - |ring|, chunks, sizes)
    }

    method CollectTurn(remain: nat, ghost t: seq<seq<nat>>, ghost w: nat, ghost ring: seq<nat>, ghost p: seq<seq<nat>>,
                       ghost held: seq<seq<nat>>, ghost chunks: seq<seq<nat>>, ghost sizes: seq<nat>)
      returns (size: nat, ghost chunk: seq<nat>, ghost seen: nat)
      requires Valid() && GrownFrom(p) && SoFar(t, w, ring, held, chunks, sizes) && |t| == queues.Length
      requires |chunks| < |t| && remain == txQueue.Length - txIdx > 0
      requires forall i :: 0 <= i < |t| ==> p[i] == t[i] + held[i]
      requires forall i :: 0 <= i < |t| && Waiting(threshold, p[i], t[i]) ==> Nearer(t, w, taken, wsIdx, |chunks|, i)
      modifies queues, txQueue, this`txIdx, this`wsIdx, this`taken, this`produced
      ensures Valid() && GrownFrom(p) && SoFar(t, w, ring, held, chunks + [chunk], sizes + [seen])
      ensures size <= remain && txIdx == old(txIdx) + size
      ensures forall i :: 0 <= i < |t| && Waiting(threshold, p[i], t[i]) ==> Nearer(t, w, taken, wsIdx, |chunks| + 1, i)
    {
      NotYetVisited(w, t, p, held, chunks);
      size, chunk, seen := CollectOne(remain, |chunks|, t, w, p);
      ToldNext(threshold, held, w, txQueue.Length - |ring|, chunks, sizes, chunk, seen);
      ChunkAfter(t, w, chunks, chunk, ring);
    }

    /** `collect_tx_pkts`. The ring gains the chunks of the queues visited, in visiting order; each queue is
        visited at most once and loses exactly its chunk, a prefix of what it held; the size read decides the chunk;
        the call ends with every queue visited or the ring full; and every queue that had a batch waiting was served or
        is nearer to its turn. */
    method Collect() returns (nbCollect: nat, ghost chunks: seq<seq<nat>>, ghost sizes: seq<nat>)
      requires Valid()
      modifies queues, txQueue, this`txIdx, this`wsIdx, this`taken, this`produced
      ensures Valid() && GrownFrom(old(produced))
      ensures |chunks| <= queues.Length && (|chunks| == queues.Length || txIdx == txQueue.Length)
      ensures txQueue[..txIdx] == old(txQueue[..txIdx]) + Flat(chunks) && txIdx == old(txIdx) + nbCollect
      ensures taken == TakenAfter(old(taken), old(wsIdx), chunks)
      ensures wsIdx == Visit(old(wsIdx), |chunks|, queues.Length)
      ensures |sizes| == |chunks| && Told(threshold, old(queues[..]), old(wsIdx), txQueue.Length - old(txIdx), chunks, sizes)
      ensures forall i :: 0 <= i < queues.Length && Waiting(threshold, old(produced[i]), old(taken[i])) ==>
                            Nearer(old(taken), old(wsIdx), taken, wsIdx, |chunks|, i)
    {
      var remain := txQueue.Length - txIdx;
      nbCollect, chunks, sizes := 0, [], [];
      var nbQueue := 0;
      ghost var t, w, ring, p, held := taken, wsIdx, txQueue[..txIdx], produced, queues[..];
      while remain > 0 && nbQueue < queues.Length
        invariant Valid() && GrownFrom(p) && SoFar(t, w, ring, held, chunks, sizes)
        invariant remain == txQueue.Length - txIdx && nbQueue == |chunks| <= queues.Length == |t|
        invariant txIdx == old(txIdx) + nbCollect
        invariant forall i :: 0 <= i < |t| && Waiting(threshold, p[i], t[i]) ==> Nearer(t, w, taken, wsIdx, nbQueue, i)
        decreases queues.Length - nbQueue
      {
        var size;
        ghost var chunk, seen;
        size, chunk, seen := CollectTurn(remain, t, w, ring, p, held, chunks, sizes);
        chunks, sizes := chunks + [chunk], sizes + [seen];
        nbQueue := nbQueue + 1;
        remain := remain - size;
        nbCollect := nbCollect + size;
      }
    }

    /** The two reads of a queue's size, and the batch size they give. */
    method ReadTwice(i: nat, remain: nat) returns (size: nat, ghost read: (nat, nat))
      requires Valid() && i < queues.Length
      modifies queues, this`produced
      ensures Valid() && GrownFrom(old(produced)) && size <= |queues[i]| <= capacity
      ensures old(Supplied()) ==> Supplied() && txIdx + size <= supply
      ensures |old(queues[i])| <= read.0 <= read.1 <= capacity && size == if read.0 > remain then remain else read.1
    {
      ghost var start := produced;
      Producers();
      assert |start[i]| <= |produced[i]|;
      var first := |queues[i]|;
      ghost var grown := produced;
      Producers();
      assert |grown[i]| <= |produced[i]|;
      LoadUpdate(queues[..], i, queues[i]);
      size := RoceTxSize(first, |queues[i]|, remain);
      read := (first, |queues[i]|);
    }

    /** One turn of the RoCE collector (`src/dispatcher_impl/roce/roce_dispatcher_dataplane.cc:56-67`), which reads the
        queue's size twice while the workers append. A batch that does not fit is reported and not taken: the code
        would write past its array. */
    method VisitRoce(remain: nat) returns (size: nat, overflow: bool, ghost chunk: seq<nat>, ghost read: (nat, nat))
      requires Valid() && remain == txQueue.Length - txIdx > 0
      modifies queues, txQueue, this`txIdx, this`wsIdx, this`taken, this`produced
      ensures Valid() && GrownFrom(old(produced)) && overflow == (size > remain)
      ensures old(Supplied()) ==> Supplied() && old(txIdx) + size <= supply
      ensures |old(queues[wsIdx])| <= read.0 <= read.1 <= capacity && size == if read.0 > remain then remain else read.1
      ensures |chunk| == (if overflow then 0 else size) && txIdx == old(txIdx) + |chunk|
      ensures txQueue[..txIdx] == old(txQueue[..txIdx]) + chunk
      ensures taken == old(taken)[old(wsIdx) := old(taken[wsIdx]) + chunk]
      ensures !overflow ==> wsIdx == Following(old(wsIdx), queues.Length)
    {
      var i := wsIdx;
      size, read := ReadTwice(i, remain);
      overflow := size > remain;
      if overflow {
        chunk := [];
        assert taken[i] + [] == taken[i];
      } else {
        chunk := TakeFrom(i, size);
        wsIdx := (wsIdx + 1) % queues.Length;
      }
    }

    /** The ring holds all that there can be, or has room for all that k queues can hold. */
    ghost predicate Room(k: nat)
      reads this
    {
      txIdx <= txQueue.Length && (supply <= txQueue.Length || FullQueues(k, capacity) <= txQueue.Length - txIdx)
    }

    /** A visit that cannot overflow. */
    method VisitWithRoom(remain: nat, ghost k: nat) returns (size: nat, ghost chunk: seq<nat>, ghost read: (nat, nat))
      requires Valid() && Supplied() && remain == txQueue.Length - txIdx > 0 && k >= 1 && Room(k)
      modifies queues, txQueue, this`txIdx, this`wsIdx, this`taken, this`produced
      ensures Valid() && Supplied() && GrownFrom(old(produced)) && Room(k - 1)
      ensures |chunk| == size <= remain && txIdx == old(txIdx) + size
      ensures txQueue[..txIdx] == old(txQueue[..txIdx]) + chunk
      ensures taken == old(taken)[old(wsIdx) := old(taken[wsIdx]) + chunk]
      ensures wsIdx == Following(old(wsIdx), queues.Length)
      ensures |old(queues[wsIdx])| <= read.0 <= read.1 && size == if read.0 > remain then remain else read.1
    {
      var overflow;
      size, overflow, chunk, read := VisitRoce(remain);
      BatchFits(size, capacity, supply, txQueue.Length, old(txIdx), k);
    }

    /** What a call that began with the array ring and has taken chunks on the two size reads each has done so far. */
    ghost predicate RoceSoFar(t: seq<seq<nat>>, w: nat, ring: seq<nat>, held: seq<seq<nat>>, chunks: seq<seq<nat>>,
                              sizes: seq<(nat, nat)>)
      reads this, txQueue
    {
      && w < |t| == |held| && |sizes| == |chunks| <= |t| && |ring| <= txQueue.Length && txIdx <= txQueue.Length
      && taken == TakenAfter(t, w, chunks) && wsIdx == Visit(w, |chunks|, |t|)
      && txQueue[..txIdx] == ring + Flat(chunks)
      && ToldTwice(held, w, txQueue.Length - |ring|, chunks, sizes)
    }

    method RoceTurn(remain: nat, ghost left: nat, ghost t: seq<seq<nat>>, ghost w: nat, ghost ring: seq<nat>,
                    ghost was: seq<seq<nat>>, ghost held: seq<seq<nat>>, ghost chunks: seq<seq<nat>>, ghost sizes: seq<(nat, nat)>)
      returns (size: nat, ghost chunk: seq<nat>, ghost read: (nat, nat))
      requires Valid() && Supplied() && GrownFrom(was) && RoceSoFar(t, w, ring, held, chunks, sizes) && |t| == queues.Length
      requires |chunks| < |t| && left >= 1 && Room(left) && remain == txQueue.Length - txIdx > 0
      requires forall i :: 0 <= i < |t| ==> was[i] == t[i] + held[i]
      modifies queues, txQueue, this`txIdx, this`wsIdx, this`taken, this`produced
      ensures Valid() && Supplied() && GrownFrom(was) && RoceSoFar(t, w, ring, held, chunks + [chunk], sizes + [read])
      ensures Room(left - 1) && size <= remain && txIdx == old(txIdx) + size
    {
      NotYetVisited(w, t, was, held, chunks);
      size, chunk, read := VisitWithRoom(remain, left);
      ToldTwiceNext(held, w, txQueue.Length - |ring|, chunks, sizes, chunk, read);
      ChunkAfter(t, w, chunks, chunk, ring);
    }

    /** The RoCE collector while the workers append, when the ring holds all that there can be, or has room for all that
        the queues can hold: it never overflows, and moves a chunk of each queue, in order, as DPDK's does. */
    method CollectRoce() returns (nbCollect: nat, ghost chunks: seq<seq<nat>>, ghost sizes: seq<(nat, nat)>)
      requires Valid() && Supplied() && Room(queues.Length)
      modifies queues, txQueue, this`txIdx, this`wsIdx, this`taken, this`produced
      ensures Valid() && Supplied() && GrownFrom(old(produced)) && |chunks| <= queues.Length && txIdx == old(txIdx) + nbCollect
      ensures |chunks| == queues.Length || txIdx == txQueue.Length
      ensures txQueue[..txIdx] == old(txQueue[..txIdx]) + Flat(chunks)
      ensures taken == TakenAfter(old(taken), old(wsIdx), chunks)
      ensures wsIdx == Visit(old(wsIdx), |chunks|, queues.Length)
      ensures |sizes| == |chunks| && ToldTwice(old(queues[..]), old(wsIdx), txQueue.Length - old(txIdx), chunks, sizes)
    {
      var remain := txQueue.Length - txIdx;
      nbCollect, chunks, sizes := 0, [], [];
      var nbQueue := 0;
      ghost var t, w, ring, was, held, left := taken, wsIdx, txQueue[..txIdx], produced, queues[..], queues.Length;
      while remain > 0 && nbQueue < queues.Length
        invariant Valid() && Supplied() && GrownFrom(was) && RoceSoFar(t, w, ring, held, chunks, sizes)
        invariant remain == txQueue.Length - txIdx && nbQueue == |chunks| <= queues.Length == |t|
        invariant left == queues.Length - nbQueue && Room(left) && txIdx == old(txIdx) + nbCollect
        decreases queues.Length - nbQueue
      {
        var size;
        ghost var chunk, read;
        size, chunk, read := RoceTurn(remain, left, t, w, ring, was, held, chunks, sizes);
        chunks, sizes, left := chunks + [chunk], sizes + [read], left - 1;
        nbQueue := nbQueue + 1;
        remain := remain - size;
        nbCollect := nbCollect + size;
      }
      assert |ring| == old(txIdx) && ring == old(txQueue[..txIdx]);
    }

    /** The RoCE collector (`src/dispatcher_impl/roce/roce_dispatcher_dataplane.cc:51-71`) while the workers
        are quiet: no threshold, and both size reads agree. It leaves the ring full or every queue empty. */
    method CollectQuiet() returns (nbCollect: nat, ghost chunks: seq<seq<nat>>)
      requires Valid()
      modifies queues, txQueue, this`txIdx, this`wsIdx, this`taken
      ensures Valid() && |chunks| <= queues.Length && txIdx == old(txIdx) + nbCollect
      ensures txQueue[..txIdx] == old(txQueue[..txIdx]) + Flat(chunks)
      ensures taken == TakenAfter(old(taken), old(wsIdx), chunks)
      ensures txIdx == txQueue.Length || forall i :: 0 <= i < queues.Length ==> queues[i] == []
    {
      var remain := txQueue.Length - txIdx;
      nbCollect, chunks := 0, [];
      var nbQueue := 0;
      ghost var t, w := taken, wsIdx;
      while remain > 0 && nbQueue < queues.Length
        invariant Valid() && w < queues.Length
        invariant remain == txQueue.Length - txIdx && nbQueue == |chunks| <= queues.Length
        invariant txQueue[..txIdx] == old(txQueue[..txIdx]) + Flat(chunks) && txIdx == old(txIdx) + nbCollect
        invariant taken == TakenAfter(t, w, chunks) && wsIdx == Visit(w, nbQueue, queues.Length)
        invariant remain == 0 || AllVisitedEmpty(w, nbQueue)
        decreases queues.Length - nbQueue
      {
        var size;
        ghost var chunk;
        size, chunk := QuietOne(remain, nbQueue, w);
        ChunkAfter(t, w, chunks, chunk, old(txQueue[..txIdx]));
        chunks := chunks + [chunk];
        nbQueue := nbQueue + 1;
        remain := remain - size;
        nbCollect := nbCollect + size;
      }
    }

    method QuietOne(remain: nat, ghost v: nat, ghost w: nat) returns (size: nat, ghost chunk: seq<nat>)
      requires Valid() && remain == txQueue.Length - txIdx > 0
      requires w < queues.Length && v < queues.Length && wsIdx == Visit(w, v, queues.Length) && AllVisitedEmpty(w, v)
      modifies queues, txQueue, this`txIdx, this`wsIdx, this`taken
      ensures Valid() && |chunk| == size <= remain && txIdx == old(txIdx) + size
      ensures txQueue[..txIdx] == old(txQueue[..txIdx]) + chunk
      ensures taken == old(taken)[old(wsIdx) := old(taken[wsIdx]) + chunk]
      ensures wsIdx == Following(old(wsIdx), queues.Length)
      ensures size == remain || AllVisitedEmpty(w, v + 1)
    {
      size := RoceTxSize(|queues[wsIdx]|, |queues[wsIdx]|, remain);
      chunk := TakeQuiet(wsIdx, size);
      forall i | 0 <= i < queues.Length && Distance(i, w, queues.Length) < v + 1 && size < remain ensures queues[i] == [] {
        if i != wsIdx { SameDistance(i, wsIdx, w, queues.Length); }
      }
      wsIdx := (wsIdx + 1) % queues.Length;
    }

    ghost predicate AllVisitedEmpty(w: nat, v: nat)
      reads queues
      requires w < queues.Length
    {
      forall i :: 0 <= i < queues.Length && Distance(i, w, queues.Length) < v ==> queues[i] == []
    }

    method TakeQuiet(i: nat, size: nat) returns (ghost chunk: seq<nat>)
      requires Valid() && i < queues.Length && size <= |queues[i]| && txIdx + size <= txQueue.Length
      modifies queues, txQueue, this`txIdx, this`taken
      ensures Valid() && |chunk| == size && txIdx == old(txIdx) + size
      ensures txQueue[..txIdx] == old(txQueue[..txIdx]) + chunk
      ensures taken == old(taken)[i := old(taken[i]) + chunk]
      ensures |queues[i]| == |old(queues[i])| - size
      ensures forall d :: 0 <= d < queues.Length && d != i ==> queues[d] == old(queues[d])
    {
      chunk := [];
      for k := 0 to size
        invariant Valid() && |chunk| == k && txIdx == old(txIdx) + k
        invariant |queues[i]| == |old(queues[i])| - k
        invariant forall d :: 0 <= d < queues.Length && d != i ==> queues[d] == old(queues[d])
        invariant txQueue[..txIdx] == old(txQueue[..txIdx]) + chunk
        invariant taken[i] == old(taken[i]) + chunk
        invariant forall d :: 0 <= d < |taken| && d != i ==> taken[d] == old(taken[d])
      {
        chunk := chunk + [queues[i][0]];
        DequeueOne(i);
      }
    }

    /** `tx_flush` (`dpdk_dispatcher_dataplane.cc:229-244`): the NIC takes any number of packets per burst;
        all are sent, in order, once. `patience` bounds the bursts in which the NIC takes nothing. */
    method TxFlush(patience: nat) returns (sent: seq<nat>)
      requires Valid()
      modifies this`txIdx
      ensures Valid() && sent == old(txQueue[..txIdx]) && txIdx == 0
    {
      sent := [];
      var total, idle := 0, patience;
      while total < txIdx
        invariant total <= txIdx && sent == txQueue[..total]
        decreases txIdx - total, idle
      {
        var nbTx: nat :| nbTx <= txIdx - total && (idle == 0 ==> nbTx > 0);
        sent := sent + txQueue[total..total + nbTx];
        total := total + nbTx;
        if nbTx == 0 { idle := idle - 1; }
      }
      txIdx := 0;
    }

    /** Between calls: some of the ring is sent, and the workers go on. */
    method MakeRoom()
      requires Valid() && txQueue.Length > 0
      modifies queues, this`txIdx, this`produced
      ensures Valid() && GrownFrom(old(produced)) && txIdx < txQueue.Length
    {
      Producers();
      var left: nat :| left < txQueue.Length;
      if left < txIdx { txIdx := left; }
    }

    /** A queue with a batch waiting is served within as many calls as there are queues, whatever the other
        workers append, as long as each call finds room in the ring. */
    method ServeWithin(i: nat)
      requires Valid() && txQueue.Length > 0 && i < queues.Length && Waiting(threshold, produced[i], taken[i])
      modifies queues, txQueue, this`txIdx, this`wsIdx, this`taken, this`produced
      ensures Valid() && |taken[i]| > |old(taken[i])|
    {
      ghost var t, w, n := taken[i], wsIdx, queues.Length;
      for calls := 0 to queues.Length
        invariant Valid() && old(produced[i]) <= produced[i]
        invariant |taken[i]| > |t| || (taken[i] == t && Distance(i, wsIdx, n) + calls <= Distance(i, w, n))
      {
        MakeRoom();
        ghost var before, from := taken, wsIdx;
        ghost var nbCollect, chunks, sizes := Collect();
        OneChunkEach(before, from, chunks, i);
      }
    }
  }

  // The RoCE collector (`src/dispatcher_impl/roce/roce_dispatcher_dataplane.cc:58-59`)

  /** Its batch size reads the queue's size twice, and the worker can append in between. */
  function RoceTxSize(first: nat, second: nat, remain: nat): nat {
    if first > remain then remain else second
  }

  /** One visit step by step: the queue, the dispatcher's array, and how far the visit has come. */
  datatype Visiting = Visiting(queue: seq<nat>, ring: seq<nat>, phase: Phase)
  datatype Phase = Start | Seen(first: nat) | Taking(left: nat)
  datatype VisitStep = Append(x: nat) | ReadFirst | ReadSecond | Dequeue

  predicate VisitCan(capacity: nat, v: Visiting, step: VisitStep) {
    match step
    case Append(_) => |v.queue| < capacity
    case ReadFirst => v.phase.Start?
    case ReadSecond => v.phase.Seen?
    case Dequeue => v.phase.Taking? && v.phase.left > 0 && v.queue != []
  }

  function VisitDo(depth: nat, v: Visiting, step: VisitStep): Visiting
    requires step.ReadSecond? ==> v.phase.Seen?
    requires step.Dequeue? ==> v.phase.Taking? && v.phase.left > 0 && v.queue != []
  {
    match step
    case Append(x) => Visiting(v.queue + [x], v.ring, v.phase)
    case ReadFirst => Visiting(v.queue, v.ring, Seen(|v.queue|))
    case ReadSecond =>
      var remain := if |v.ring| <= depth then depth - |v.ring| else 0;
      Visiting(v.queue, v.ring, Taking(RoceTxSize(v.phase.first, |v.queue|, remain)))
    case Dequeue => Visiting(v.queue[1..], v.ring + [v.queue[0]], Taking(v.phase.left - 1))
  }

  /** The states that a visit can pass through, the worker appending at any moment. */
  predicate VisitReaches(capacity: nat, depth: nat, v: Visiting, steps: seq<VisitStep>, w: Visiting)
    decreases |steps|
  {
    if steps == [] then v == w else
      VisitCan(capacity, v, steps[0]) && VisitReaches(capacity, depth, VisitDo(depth, v, steps[0]), steps[1..], w)
  }

  /** What the visit has still to take fits, when the queue can never hold more than the rest of the ring, or held
      more from the start. */
  predicate VisitFits(capacity: nat, depth: nat, v: Visiting) {
    && |v.queue| <= capacity && |v.ring| <= depth
    && match v.phase
       case Start => |v.queue| > depth - |v.ring| || capacity <= depth - |v.ring|
       case Seen(first) => first > depth - |v.ring| || capacity <= depth - |v.ring|
       case Taking(left) => |v.ring| + left <= depth
  }

  lemma {:induction false} VisitStaysIn(capacity: nat, depth: nat, v: Visiting, steps: seq<VisitStep>, w: Visiting)
    requires VisitFits(capacity, depth, v) && VisitReaches(capacity, depth, v, steps, w)
    ensures |w.ring| <= depth
    decreases |steps|
  {
    if steps != [] { VisitStaysIn(capacity, depth, VisitDo(depth, v, steps[0]), steps[1..], w); }
  }

  lemma {:induction false} AppendMore(capacity: nat, depth: nat, v: Visiting, n: nat) returns (steps: seq<VisitStep>, w: Visiting)
    requires |v.queue| + n <= capacity
    ensures VisitReaches(capacity, depth, v, steps, w)
    ensures |w.queue| == |v.queue| + n && w.ring == v.ring && w.phase == v.phase
    decreases n
  {
    steps, w := [], v;
    if n > 0 {
      var rest;
      rest, w := AppendMore(capacity, depth, VisitDo(depth, v, Append(0)), n - 1);
      steps := [Append(0)] + rest;
    }
  }

  lemma {:induction false} TakeAll(capacity: nat, depth: nat, v: Visiting) returns (steps: seq<VisitStep>, w: Visiting)
    requires v.phase.Taking? && v.phase.left <= |v.queue|
    ensures VisitReaches(capacity, depth, v, steps, w) && |w.ring| == |v.ring| + v.phase.left
    decreases |v.queue|
  {
    steps, w := [], v;
    if v.phase.left > 0 {
      var rest;
      rest, w := TakeAll(capacity, depth, VisitDo(depth, v, Dequeue));
      steps := [Dequeue] + rest;
    }
  }

  lemma {:induction false} ReachesThrough(capacity: nat, depth: nat, u: Visiting, x: seq<VisitStep>, v: Visiting,
                                          y: seq<VisitStep>, w: Visiting)
    requires VisitReaches(capacity, depth, u, x, v) && VisitReaches(capacity, depth, v, y, w)
    ensures VisitReaches(capacity, depth, u, x + y, w)
    decreases |x|
  {
    if x == [] {
      assert x + y == y;
    } else {
      ReachesThrough(capacity, depth, VisitDo(depth, u, x[0]), x[1..], v, y, w);
      assert (x + y)[1..] == x[1..] + y;
    }
  }

  /** A worker that fills its queue between the two reads makes the dispatcher write past its array. */
  lemma VisitOverflows(capacity: nat, depth: nat, v: Visiting) returns (steps: seq<VisitStep>, w: Visiting)
    requires v.phase.Start? && |v.ring| < depth && |v.queue| <= depth - |v.ring| < capacity
    ensures VisitReaches(capacity, depth, v, steps, w) && |w.ring| > depth
  {
    var seen := VisitDo(depth, v, ReadFirst);
    var fill, full := AppendMore(capacity, depth, seen, depth - |v.ring| + 1 - |v.queue|);
    var read := VisitDo(depth, full, ReadSecond);
    var take, end := TakeAll(capacity, depth, read);
    ReachesThrough(capacity, depth, seen, fill, full, [ReadSecond] + take, end);
    steps, w := [ReadFirst] + (fill + ([ReadSecond] + take)), end;
  }

  /** Under every schedule of the worker the visit stays within the ring. */
  ghost predicate AlwaysFits(capacity: nat, depth: nat, v: Visiting) {
    forall steps, w :: VisitReaches(capacity, depth, v, steps, w) ==> |w.ring| <= depth
  }

  /** A RoCE visit that finds room stays within the ring under every schedule of the worker exactly when the queue
      already holds more than the rest of the ring or can never do so. */
  lemma RoceVisitFitsIff(capacity: nat, depth: nat, v: Visiting)
    requires v.phase.Start? && |v.ring| < depth && |v.queue| <= capacity
    ensures AlwaysFits(capacity, depth, v) <==> (|v.queue| > depth - |v.ring| || capacity <= depth - |v.ring|)
  {
    if |v.queue| > depth - |v.ring| || capacity <= depth - |v.ring| {
      forall steps, w | VisitReaches(capacity, depth, v, steps, w) ensures |w.ring| <= depth {
        VisitStaysIn(capacity, depth, v, steps, w);
      }
    } else {
      var steps, w := VisitOverflows(capacity, depth, v);
      assert VisitReaches(capacity, depth, v, steps, w);
    }
  }

  /** Whatever the queue holds, visits are safe exactly when the queue's capacity is at most the rest of the ring. */
  lemma RoceVisitsFitIff(capacity: nat, depth: nat, ring: seq<nat>)
    requires |ring| < depth
    ensures (forall q: seq<nat> | |q| <= capacity :: AlwaysFits(capacity, depth, Visiting(q, ring, Start)))
            <==> capacity <= depth - |ring|
  {
    forall q: seq<nat> | |q| <= capacity
      ensures AlwaysFits(capacity, depth, Visiting(q, ring, Start)) <==> (|q| > depth - |ring| || capacity <= depth - |ring|)
    {
      RoceVisitFitsIff(capacity, depth, Visiting(q, ring, Start));
    }
    var none: seq<nat> := [];
    assert AlwaysFits(capacity, depth, Visiting(none, ring, Start)) <==> capacity <= depth - |ring|;
  }

  /** With the sizes in the source (`src/common.h:165`, `src/dispatcher.h:43`) the first visit of a fresh collector,
      nothing queued and nothing collected, can overflow. */
  lemma FreshCollectorOverflows() returns (steps: seq<VisitStep>, w: Visiting)
    ensures VisitReaches(4095, 2048, Visiting([], [], Start), steps, w) && |w.ring| > 2048
  {
    steps, w := VisitOverflows(4095, 2048, Visiting([], [], Start));
  }
}
