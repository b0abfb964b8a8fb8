/** The order of the packets in a receive ring and in the workers' queues. */
module RingOrder {
  // The dispatcher deals packets out in turn, so worker w is given the packets that are w modulo the number of
  // workers. Buffers are reposted in ring order, so a buffer that is held back holds back all the later ones.

  import opened MathUtils
  import opened RingFlow

  /** Packet n of worker w out of k workers. */
  function Nth(w: nat, n: nat, k: nat): nat { w + n * k }

  lemma NthTurn(w: nat, n: nat, k: nat)
    requires w < k
    ensures Nth(w, n, k) % k == w && Nth(w, n, k) / k == n
  {
    RemainderUnique(Nth(w, n, k), k, n, w);
  }

  /** Two packets of one worker are at least a turn apart. */
  lemma TurnsApart(x: nat, y: nat, k: nat)
    requires k >= 1 && x < y && x % k == y % k
    ensures x + k <= y
  {
    var p, q := x / k, y / k;
    assert x == p * k + x % k && y == q * k + y % k;
    if q <= p { MulMonotone(q, p, k); }
    MulMonotone(p + 1, q, k);
    assert (p + 1) * k == p * k + k;
  }

  // What every run keeps

  predicate InWindow(r: Ring, depth: nat) {
    r.reposted <= r.dispatched <= r.delivered <= r.reposted + depth
  }

  /** A queue of packets of worker w, none before lo and none from hi on, each at least a turn after the one before. */
  predicate Spaced(q: seq<nat>, w: nat, k: nat, lo: nat, hi: nat)
    requires k >= 1
  {
    && (forall i :: 0 <= i < |q| ==> lo <= q[i] < hi && q[i] % k == w)
    && (forall i :: 0 < i < |q| ==> q[i - 1] + k <= q[i])
  }

  predicate RingSpaced(r: Ring) {
    forall w :: 0 <= w < |r.rx| ==> Spaced(r.rx[w], w, |r.rx|, r.reposted, r.dispatched)
  }

  function Share(depth: nat, k: nat): nat
    requires k >= 1
  {
    (depth + k - 1) / k
  }

  lemma ShareIsLeast(n: nat, depth: nat, k: nat)
    requires k >= 1
    ensures Share(depth, k) <= n <==> depth <= n * k
  {
    var x := depth + k - 1;
    var q := x / k;
    assert x == q * k + x % k;
    if q <= n { MulMonotone(q, n, k); }
    if n < q { MulMonotone(n + 1, q, k); assert (n + 1) * k == n * k + k; }
  }

  lemma {:induction false} SpacedFrom(q: seq<nat>, w: nat, k: nat, lo: nat, hi: nat, i: nat)
    requires k >= 1 && Spaced(q, w, k, lo, hi) && i < |q|
    ensures lo + i * k <= q[i]
  {
    if i > 0 {
      SpacedFrom(q, w, k, lo, hi, i - 1);
      assert i * k == (i - 1) * k + k;
    }
  }

  /** A worker's queue never holds more than its share of the ring. */
  lemma QueueWithinShare(r: Ring, depth: nat, w: nat)
    requires w < |r.rx| && InWindow(r, depth) && RingSpaced(r)
    ensures |r.rx[w]| <= Share(depth, |r.rx|)
  {
    var q, k := r.rx[w], |r.rx|;
    if q != [] {
      SpacedFrom(q, w, k, r.reposted, r.dispatched, |q| - 1);
      if Share(depth, k) <= |q| - 1 { ShareIsLeast(|q| - 1, depth, k); }
    }
  }

  lemma DealKeepsSpaced(r: Ring, capacity: nat)
    requires |r.rx| > 0 && RingSpaced(r) && r.reposted <= r.dispatched
    ensures RingSpaced(Deal(r, capacity))
  {
    var k, x := |r.rx|, r.dispatched;
    var w, r' := x % k, Deal(r, capacity);
    forall v | 0 <= v < k ensures Spaced(r'.rx[v], v, k, r'.reposted, r'.dispatched) {
      if v == w && |r.rx[w]| < capacity {
        var q := r.rx[w];
        if q != [] { TurnsApart(q[|q| - 1], x, k); }
      }
    }
  }

  lemma HandleKeepsSpaced(r: Ring, w: nat, n: nat, per: nat)
    requires w < |r.rx| == |r.handled| && per * n <= |r.rx[w]| && RingSpaced(r)
    ensures RingSpaced(Handle(r, w, n, per))
  {
    var k, r' := |r.rx|, Handle(r, w, n, per);
    forall v | 0 <= v < k ensures Spaced(r'.rx[v], v, k, r'.reposted, r'.dispatched) {
      SpacedTail(r.rx[w], w, k, r.reposted, r.dispatched, per * n);
    }
  }

  lemma SpacedTail(q: seq<nat>, w: nat, k: nat, lo: nat, hi: nat, n: nat)
    requires k >= 1 && Spaced(q, w, k, lo, hi) && n <= |q|
    ensures Spaced(q[n..], w, k, lo, hi)
  {
    var t := q[n..];
    forall i | 0 < i < |t| ensures t[i - 1] + k <= t[i] {
      assert t[i - 1] == q[n + i - 1] && t[i] == q[n + i];
    }
  }

  lemma RepostKeepsSpaced(r: Ring)
    requires RingSpaced(r) && !Queued(r.rx, r.reposted)
    ensures RingSpaced(Repost(r))
  {
    forall w | 0 <= w < |r.rx| ensures Spaced(r.rx[w], w, |r.rx|, r.reposted + 1, r.dispatched) {
      assert r.reposted !in r.rx[w];
    }
  }

  // What every run keeps that has dropped nothing

  /** The packets of worker w from number base on, up to but not including the first one from d on. */
  predicate Dealt(q: seq<nat>, w: nat, base: nat, k: nat, d: nat) {
    && (forall i :: 0 <= i < |q| ==> q[i] == Nth(w, base + i, k))
    && d <= Nth(w, base + |q|, k) < d + k
  }

  /** Each queue holds exactly the packets that its worker has been given and has not handled. */
  predicate RingDealt(r: Ring, per: nat) {
    |r.rx| == |r.handled| && forall w :: 0 <= w < |r.rx| ==> Dealt(r.rx[w], w, per * r.handled[w], |r.rx|, r.dispatched)
  }

  lemma DealtNext(q: seq<nat>, w: nat, base: nat, k: nat, d: nat)
    requires w < k && Dealt(q, w, base, k, d)
    ensures if d % k == w then Dealt(q + [d], w, base, k, d + 1) else Dealt(q, w, base, k, d + 1)
  {
    var y := Nth(w, base + |q|, k);
    NthTurn(w, base + |q|, k);
    if d % k == w {
      if d < y { TurnsApart(d, y, k); }
      assert (base + |q| + 1) * k == (base + |q|) * k + k;
    }
  }

  lemma DealKeepsDealt(r: Ring, per: nat, capacity: nat)
    requires |r.rx| > 0 && RingDealt(r, per) && |r.rx[r.dispatched % |r.rx|]| < capacity
    ensures RingDealt(Deal(r, capacity), per)
  {
    var r' := Deal(r, capacity);
    forall w | 0 <= w < |r.rx| ensures Dealt(r'.rx[w], w, per * r'.handled[w], |r.rx|, r'.dispatched) {
      DealtNext(r.rx[w], w, per * r.handled[w], |r.rx|, r.dispatched);
    }
  }

  lemma HandleKeepsDealt(r: Ring, w: nat, n: nat, per: nat)
    requires w < |r.rx| == |r.handled| && per * n <= |r.rx[w]| && RingDealt(r, per)
    ensures RingDealt(Handle(r, w, n, per), per)
  {
    var h := r.handled[w];
    assert per * (h + n) == per * h + per * n;
    DealtTail(r.rx[w], w, per * h, |r.rx|, r.dispatched, per * n);
  }

  lemma DealtTail(q: seq<nat>, w: nat, base: nat, k: nat, d: nat, n: nat)
    requires Dealt(q, w, base, k, d) && n <= |q|
    ensures Dealt(q[n..], w, base + n, k, d)
  {
  }

  lemma TurnsSince(n: nat, got: nat, k: nat, depth: nat)
    requires k >= 1 && n * k + depth <= got * k
    ensures n + Share(depth, k) <= got
  {
    assert (got + 1) * k == got * k + k;
    if got < n { MulMonotone(got + 1, n, k); }
    assert got * k == n * k + (got - n) * k;
    ShareIsLeast(got - n, depth, k);
  }

  /** When the ring is full and everything has been dealt out, every worker has been given its share of packets
      since the oldest one, which holds the ring up. */
  lemma GivenSince(r: Ring, per: nat, depth: nat, w: nat, n: nat)
    requires w < |r.rx| && RingDealt(r, per) && r.dispatched == r.reposted + depth
    requires r.reposted == Nth(w, n, |r.rx|)
    ensures n + Share(depth, |r.rx|) <= per * r.handled[w] + |r.rx[w]|
  {
    var got := per * r.handled[w] + |r.rx[w]|;
    assert Dealt(r.rx[w], w, per * r.handled[w], |r.rx|, r.dispatched);
    assert Nth(w, got, |r.rx|) == w + got * |r.rx|;
    TurnsSince(n, got, |r.rx|, depth);
  }
}
