/** Dispatching received packets on DPDK. */
module DpdkDispatch {
  // `src/dispatcher_impl/dpdk/dpdk_dispatcher_dataplane.cc:147-183`: ARP packets are answered in place, the others go to
  // worker queues until one is full, and what is left is freed, starting at the number of packets dispatched.

  import opened Counting

  predicate IsTrue(b: bool) { b }

  /** The loop over the first n packets: the places dispatched, and whether a full queue ended it. fits tells
      whether the enqueue of a packet would succeed. */
  function Walk(arp: seq<bool>, fits: seq<bool>, n: nat): (seq<nat>, bool)
    requires n <= |arp| == |fits|
  {
    if n == 0 then ([], false) else
      var (d, stopped) := Walk(arp, fits, n - 1);
      if stopped || arp[n - 1] then (d, stopped)
      else if fits[n - 1] then (d + [n - 1], false)
      else (d, true)
  }

  /** A dispatched packet's place is its rank plus the ARP packets before it. */
  lemma {:induction false} WalkPlaces(arp: seq<bool>, fits: seq<bool>, n: nat)
    requires n <= |arp| == |fits|
    ensures var (d, stopped) := Walk(arp, fits, n);
            && (forall k :: 0 <= k < |d| ==> d[k] < n && d[k] == k + Count(arp[..d[k]], IsTrue))
            && (forall k :: 0 <= k < |d| - 1 ==> d[k] < d[|d| - 1])
            && (!stopped ==> |d| + Count(arp[..n], IsTrue) == n)
  {
    if n > 0 {
      WalkPlaces(arp, fits, n - 1);
      OneMoreArp(arp, n - 1);
    }
  }

  lemma OneMoreArp(arp: seq<bool>, n: nat)
    requires n < |arp|
    ensures Count(arp[..n + 1], IsTrue) == Count(arp[..n], IsTrue) + if arp[n] then 1 else 0
  {
    assert arp[..n + 1][..n] == arp[..n];
  }

  /** The method: which packets it hands to workers and which it frees. */
  method DispatchRxPkts(arp: seq<bool>, fits: seq<bool>) returns (dispatched: seq<nat>, freed: seq<nat>)
    requires |arp| == |fits|
    ensures dispatched == Walk(arp, fits, |arp|).0
    ensures |dispatched| == HandedCount(arp, fits) && forall i :: 0 <= i < |arp| ==> (i in dispatched <==> Handed(arp, fits, i))
    ensures |freed| == |arp| - |dispatched| && forall k :: 0 <= k < |freed| ==> freed[k] == |dispatched| + k
  {
    dispatched, freed := [], [];
    var total, i := 0, 0;
    var full := false;
    WalkPlaces(arp, fits, |arp|);
    forall k | 0 <= k < |arp| ensures k in Walk(arp, fits, |arp|).0 <==> Handed(arp, fits, k) {
      WalkIsHanded(arp, fits, |arp|, k);
    }
    while i < |arp| && !full
      invariant i <= |arp| && total == |dispatched| <= i
      invariant (dispatched, full) == Walk(arp, fits, i)
      decreases |arp| - i, !full
    {
      if !arp[i] {
        if fits[i] {
          dispatched := dispatched + [i];
          total := total + 1;
        } else {
          full := true;
        }
      }
      i := i + 1;
    }
    if full { StaysStopped(arp, fits, i, |arp|); }
    for j := total to |arp|
      invariant |freed| == j - total && forall k :: 0 <= k < |freed| ==> freed[k] == total + k
    {
      freed := freed + [j];
    }
  }

  lemma {:induction false} StaysStopped(arp: seq<bool>, fits: seq<bool>, i: nat, n: nat)
    requires i <= n <= |arp| == |fits| && Walk(arp, fits, i).1
    ensures Walk(arp, fits, n) == Walk(arp, fits, i)
    decreases n
  {
    if i < n { StaysStopped(arp, fits, i, n - 1); }
  }

  /** Packet i goes to a worker: it is no ARP packet, and no queue was full up to and including it. */
  predicate Handed(arp: seq<bool>, fits: seq<bool>, i: nat)
    requires i < |arp| == |fits|
  {
    !arp[i] && forall k :: 0 <= k <= i ==> arp[k] || fits[k]
  }

  lemma {:induction false} WalkIsHanded(arp: seq<bool>, fits: seq<bool>, n: nat, i: nat)
    requires n <= |arp| == |fits| && i < |arp|
    ensures i in Walk(arp, fits, n).0 <==> i < n && Handed(arp, fits, i)
    ensures !Walk(arp, fits, n).1 <==> forall k :: 0 <= k < n ==> arp[k] || fits[k]
  {
    if n > 0 { WalkIsHanded(arp, fits, n - 1, i); }
  }

  /** The number of packets handed to workers, from which on the code frees. */
  function HandedCount(arp: seq<bool>, fits: seq<bool>): nat
    requires |arp| == |fits|
  {
    |Walk(arp, fits, |arp|).0|
  }

  lemma LastHanded(arp: seq<bool>, fits: seq<bool>, i: nat)
    requires i < |arp| == |fits| && Handed(arp, fits, i)
    ensures var d := Walk(arp, fits, |arp|).0; d != [] && i <= d[|d| - 1] < |arp|
  {
    WalkIsHanded(arp, fits, |arp|, i);
    WalkPlaces(arp, fits, |arp|);
  }

  /** Some packet is both handed to a worker and freed exactly when some packet handed to a worker has an ARP packet
      before it. */
  lemma SomePacketTwiceIff(arp: seq<bool>, fits: seq<bool>)
    requires |arp| == |fits|
    ensures (exists i :: 0 <= i < |arp| && Handed(arp, fits, i) && i >= HandedCount(arp, fits))
            <==> (exists j, i :: 0 <= j < i < |arp| && arp[j] && Handed(arp, fits, i))
  {
    var d := Walk(arp, fits, |arp|).0;
    WalkPlaces(arp, fits, |arp|);
    if i :| 0 <= i < |arp| && Handed(arp, fits, i) && i >= |d| {
      WalkIsHanded(arp, fits, |arp|, i);
      CountIsNone(arp[..i], IsTrue);
      var j :| 0 <= j < i && arp[..i][j];
      assert arp[j] && Handed(arp, fits, i);
    }
    if j, i :| 0 <= j < i < |arp| && arp[j] && Handed(arp, fits, i) {
      LastHanded(arp, fits, i);
      var last := d[|d| - 1];
      WalkIsHanded(arp, fits, |arp|, last);
      CountIsNone(arp[..last], IsTrue);
      assert arp[..last][j];
      assert Handed(arp, fits, last) && last >= HandedCount(arp, fits);
    }
  }

  /** The packets that are neither handed over nor freed are the ARP packets before the place where freeing starts. */
  lemma LeakedIffEarlyArp(arp: seq<bool>, fits: seq<bool>, i: nat)
    requires i < |arp| == |fits|
    ensures !Handed(arp, fits, i) && i < HandedCount(arp, fits) <==> arp[i] && i < HandedCount(arp, fits)
  {
    var d := Walk(arp, fits, |arp|).0;
    WalkPlaces(arp, fits, |arp|);
    if i < |d| {
      var last := d[|d| - 1];
      WalkIsHanded(arp, fits, |arp|, last);
    }
  }

  /** Some packet is leaked exactly when some packet handed to a worker has an ARP packet before it. */
  lemma SomePacketLeakedIff(arp: seq<bool>, fits: seq<bool>)
    requires |arp| == |fits|
    ensures (exists i :: 0 <= i < |arp| && !Handed(arp, fits, i) && i < HandedCount(arp, fits))
            <==> (exists j, i :: 0 <= j < i < |arp| && arp[j] && Handed(arp, fits, i))
  {
    var d := Walk(arp, fits, |arp|).0;
    WalkPlaces(arp, fits, |arp|);
    if l :| 0 <= l < |arp| && !Handed(arp, fits, l) && l < |d| {
      var last := d[|d| - 1];
      LeakedIffEarlyArp(arp, fits, l);
      WalkIsHanded(arp, fits, |arp|, last);
      assert l < last && arp[l] && Handed(arp, fits, last);
    }
    if j, i :| 0 <= j < i < |arp| && arp[j] && Handed(arp, fits, i) {
      FirstArpLeaks(arp, fits, j, i);
    }
  }

  lemma {:induction false} WalkGrows(arp: seq<bool>, fits: seq<bool>, m: nat, n: nat)
    requires m <= n <= |arp| == |fits|
    ensures Walk(arp, fits, m).0 <= Walk(arp, fits, n).0
  {
    if m < n { WalkGrows(arp, fits, m, n - 1); }
  }

  lemma {:induction false} FirstArp(arp: seq<bool>, j: nat) returns (l: nat)
    requires j < |arp| && arp[j]
    ensures l <= j && arp[l] && forall k :: 0 <= k < l ==> !arp[k]
  {
    l := j;
    if k :| 0 <= k < j && arp[k] { l := FirstArp(arp, k); }
  }

  /** The first ARP packet stands before the place where freeing starts, if a later packet is handed over: all the
      packets before it are handed over too. */
  lemma FirstArpLeaks(arp: seq<bool>, fits: seq<bool>, j: nat, i: nat)
    requires j < i < |arp| == |fits| && arp[j] && Handed(arp, fits, i)
    ensures exists l :: 0 <= l < |arp| && !Handed(arp, fits, l) && l < HandedCount(arp, fits)
  {
    var l := FirstArp(arp, j);
    WalkPlaces(arp, fits, l);
    WalkIsHanded(arp, fits, l, i);
    WalkIsHanded(arp, fits, |arp|, i);
    WalkGrows(arp, fits, l, |arp|);
    CountIsNone(arp[..l], IsTrue);
    var before, d := Walk(arp, fits, l).0, Walk(arp, fits, |arp|).0;
    assert |before| == l;
    assert d != before && d[..l] == before;
    assert !Handed(arp, fits, l);
  }

  /** An ARP packet and then another one: the second is handed to a worker and freed, the first is leaked. */
  lemma ArpFirst()
    ensures var arp, fits := [true, false], [true, true];
            Handed(arp, fits, 1) && 1 >= HandedCount(arp, fits) && !Handed(arp, fits, 0) && 0 < HandedCount(arp, fits)
  {
    var arp, fits := [true, false], [true, true];
    assert Walk(arp, fits, 0) == ([], false);
    assert Walk(arp, fits, 1) == ([], false);
    assert [] + [1] == [1];
  }

  /** Without ARP packets a prefix is dispatched and exactly the rest is freed. */
  lemma WithoutArp(arp: seq<bool>, fits: seq<bool>)
    requires |arp| == |fits| && forall j :: 0 <= j < |arp| ==> !arp[j]
    ensures var d := Walk(arp, fits, |arp|).0;
            |d| <= |arp| && (forall k :: 0 <= k < |d| ==> d[k] == k)
            && (|d| < |arp| ==> !fits[|d|]) && forall k :: 0 <= k < |d| ==> fits[k]
  {
    WithoutArpUpTo(arp, fits, |arp|);
  }

  lemma {:induction false} WithoutArpUpTo(arp: seq<bool>, fits: seq<bool>, n: nat)
    requires n <= |arp| == |fits| && forall j :: 0 <= j < |arp| ==> !arp[j]
    ensures var (d, stopped) := Walk(arp, fits, n);
            |d| <= n && (forall k :: 0 <= k < |d| ==> d[k] == k && fits[k])
            && (if stopped then |d| < n && !fits[|d|] else |d| == n)
  {
    if n > 0 { WithoutArpUpTo(arp, fits, n - 1); }
  }
}
