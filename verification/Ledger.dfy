/** Where every receive-ring buffer currently is. A buffer is named by its index in the ring. */
module Ledger {

  /** The holders of a buffer on the server, in the order a packet travels through them, and the two
      conditions in which nobody holds it: free for reposting, and lost. */
  datatype Place =
    | Unheld           // state_ is FREE: the repost loop may take it
    | Lost             // APP_OWNED, but no queue or thread refers to it any more
    | Marked           // marked POSTED by rx_burst, not yet handed to the NIC
    | NicRecv          // in the NIC's receive queue
    | Waiting          // filled by the NIC, waiting for dispatch
    | WorkerRx(w: nat)
    | WorkerHand(w: nat)
    | WorkerTx(w: nat)
    | DispTx           // the dispatcher's tx_queue_
    | Sending          // an in-flight slot of sw_ring_

  predicate IsHolder(p: Place) {
    !p.Unheld? && !p.Lost?
  }

  /** `box` has the buffers of each holder, in order. `where` is a history variable: the place of
      each buffer; `Consistent` ties the two together. */
  datatype Ledger = Ledger(box: map<Place, seq<nat>>, where: seq<Place>)

  function Held(l: Ledger, p: Place): seq<nat> {
    if p in l.box then l.box[p] else []
  }

  /** The buffer x goes from one place to another: it leaves the head of a holder's queue and joins the
      tail of the other's. Places that are no holders have no queue. */
  function Transfer(l: Ledger, from: Place, x: nat, to: Place): Ledger {
    var taken := if IsHolder(from) && Held(l, from) != [] then l.box[from := Held(l, from)[1..]] else l.box;
    var given := if IsHolder(to) then taken[to := (if to in taken then taken[to] else []) + [x]] else taken;
    Ledger(given, if x < |l.where| then l.where[x := to] else l.where)
  }

  /** What a transfer does, as a relation between two ledgers. */
  ghost predicate Transfers(l: Ledger, m: Ledger, from: Place, x: nat, to: Place) {
    && from != to && x < |l.where| && m.where == l.where[x := to]
    && (if IsHolder(from) then Held(l, from) == [x] + Held(m, from) else Held(m, from) == Held(l, from))
    && (if IsHolder(to) then Held(m, to) == Held(l, to) + [x] else Held(m, to) == Held(l, to))
    && (forall q :: q != from && q != to ==> Held(m, q) == Held(l, q))
  }

  lemma TransferEffect(l: Ledger, from: Place, x: nat, to: Place)
    requires x < |l.where| && from != to
    requires IsHolder(from) ==> Held(l, from) != [] && x == Held(l, from)[0]
    ensures Transfers(l, Transfer(l, from, x, to), from, x, to)
  {
  }

  /** A held buffer is a ring buffer, and its holder is its place. */
  ghost predicate Located(l: Ledger) {
    forall p, i :: 0 <= i < |Held(l, p)| ==> Held(l, p)[i] < |l.where| && l.where[Held(l, p)[i]] == p
  }

  ghost predicate NoRepeats(l: Ledger) {
    forall p, i, j :: 0 <= i < j < |Held(l, p)| ==> Held(l, p)[i] != Held(l, p)[j]
  }

  /** A buffer whose place is a holder is held there. */
  ghost predicate Findable(l: Ledger) {
    forall b :: 0 <= b < |l.where| && IsHolder(l.where[b]) ==> b in Held(l, l.where[b])
  }

  ghost predicate Consistent(l: Ledger) {
    Held(l, Unheld) == [] && Held(l, Lost) == [] && Located(l) && NoRepeats(l) && Findable(l)
  }

  lemma TransferKeepsLocated(l: Ledger, m: Ledger, from: Place, x: nat, to: Place)
    requires Transfers(l, m, from, x, to) && l.where[x] == from && Held(l, Unheld) == [] && Held(l, Lost) == []
    requires Located(l) && NoRepeats(l)
    ensures Located(m)
  {
    forall p, i | 0 <= i < |Held(m, p)|
      ensures Held(m, p)[i] < |m.where| && m.where[Held(m, p)[i]] == p
    {
      if p == from {
        assert Held(m, p)[i] == Held(l, p)[i + 1] && Held(l, p)[0] == x;
      } else if p != to || i < |Held(l, to)| {
        assert Held(m, p)[i] == Held(l, p)[i];
      }
    }
  }

  lemma TransferKeepsNoRepeats(l: Ledger, m: Ledger, from: Place, x: nat, to: Place)
    requires Transfers(l, m, from, x, to) && l.where[x] == from && Held(l, Unheld) == [] && Held(l, Lost) == []
    requires Located(l) && NoRepeats(l)
    ensures NoRepeats(m)
  {
    forall p, i, j | 0 <= i < j < |Held(m, p)|
      ensures Held(m, p)[i] != Held(m, p)[j]
    {
      if p == from {
        assert Held(m, p)[i] == Held(l, p)[i + 1] && Held(m, p)[j] == Held(l, p)[j + 1];
      } else {
        assert Held(m, p)[i] == Held(l, p)[i];
        if p != to || j < |Held(l, to)| { assert Held(m, p)[j] == Held(l, p)[j]; }
      }
    }
  }

  lemma TransferKeepsFindable(l: Ledger, m: Ledger, from: Place, x: nat, to: Place)
    requires Transfers(l, m, from, x, to) && Findable(l)
    ensures Findable(m)
  {
    forall b | 0 <= b < |m.where| && IsHolder(m.where[b])
      ensures b in Held(m, m.where[b])
    {
      if b == x {
        assert Held(m, to)[|Held(l, to)|] == x;
      } else {
        assert b in Held(l, l.where[b]);
      }
    }
  }

  lemma TransferKeepsConsistent(l: Ledger, m: Ledger, from: Place, x: nat, to: Place)
    requires Transfers(l, m, from, x, to) && l.where[x] == from && Consistent(l)
    ensures Consistent(m)
  {
    TransferKeepsLocated(l, m, from, x, to);
    TransferKeepsNoRepeats(l, m, from, x, to);
    TransferKeepsFindable(l, m, from, x, to);
  }

  // How many buffers there can be

  lemma {:induction false} DistinctFits(x: seq<nat>, d: nat)
    requires forall i :: 0 <= i < |x| ==> x[i] < d
    requires forall i, j :: 0 <= i < j < |x| ==> x[i] != x[j]
    ensures |x| <= d
    decreases d
  {
    if x == [] {
    } else if i :| 0 <= i < |x| && x[i] == d - 1 {
      var y := x[..i] + x[i + 1..];
      assert forall k :: 0 <= k < |y| ==> y[k] == x[if k < i then k else k + 1];
      DistinctFits(y, d - 1);
    } else {
      assert x[0] < d - 1;
      DistinctFits(x, d - 1);
    }
  }

  lemma PlacesDiffer(l: Ledger, p: Place, i: nat, q: Place, j: nat)
    requires Located(l) && NoRepeats(l) && i < |Held(l, p)| && j < |Held(l, q)| && (p != q || i < j)
    ensures Held(l, p)[i] != Held(l, q)[j]
  {
  }

  /** Two holders together have no more buffers than the ring. */
  lemma HoldersFit(l: Ledger, p: Place, q: Place)
    requires Located(l) && NoRepeats(l) && p != q
    ensures |Held(l, p)| + |Held(l, q)| <= |l.where|
  {
    var x, y := Held(l, p), Held(l, q);
    var n := |x|;
    forall i | 0 <= i < n + |y| ensures (x + y)[i] < |l.where| {
      if i < n { assert (x + y)[i] == x[i]; } else { assert (x + y)[i] == y[i - n]; }
    }
    forall i, j | 0 <= i < j < n + |y| ensures (x + y)[i] != (x + y)[j] {
      if j < n { PlacesDiffer(l, p, i, p, j); }
      else if i < n { PlacesDiffer(l, p, i, q, j - n); }
      else { PlacesDiffer(l, q, i - n, q, j - n); }
    }
    DistinctFits(x + y, |l.where|);
  }
}
