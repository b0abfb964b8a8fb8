/** When a dispatcher's array can overflow in a whole system. */
module CollectBounds {
  // The RoCE collector reads a queue's size twice (`src/dispatcher_impl/roce/roce_dispatcher_dataplane.cc:58-59`). On a
  // server the receive ring bounds what its workers can append, on a client the in-flight budget does.

  import opened MathUtils
  import opened Ledger
  import opened BufferLifecycle
  import opened BufferTheorems
  import opened CollectTx
  import Flow = FlowControl

  // Servers

  /** The tx queues of the first k workers. */
  function TxQueues(l: Ledger, k: nat): seq<seq<nat>> {
    seq(k, w requires 0 <= w < k => Held(l, WorkerTx(w)))
  }

  /** One after the other. */
  function AllTx(l: Ledger, k: nat): seq<nat> {
    if k == 0 then [] else AllTx(l, k - 1) + Held(l, WorkerTx(k - 1))
  }

  lemma {:induction false} LoadIsAll(l: Ledger, k: nat)
    ensures Load(TxQueues(l, k)) == |AllTx(l, k)|
  {
    if k > 0 {
      LoadIsAll(l, k - 1);
      assert TxQueues(l, k)[..k - 1] == TxQueues(l, k - 1);
    }
  }

  lemma {:induction false} AllTxPlaces(l: Ledger, k: nat)
    requires Located(l) && NoRepeats(l)
    ensures forall i :: 0 <= i < |AllTx(l, k)| ==>
              var x := AllTx(l, k)[i]; x < |l.where| && l.where[x].WorkerTx? && l.where[x].w < k
    ensures forall i, j :: 0 <= i < j < |AllTx(l, k)| ==> AllTx(l, k)[i] != AllTx(l, k)[j]
  {
    if k > 0 {
      AllTxPlaces(l, k - 1);
      var before, last := AllTx(l, k - 1), Held(l, WorkerTx(k - 1));
      var n := |before|;
      assert forall i :: n <= i < |AllTx(l, k)| ==> AllTx(l, k)[i] == last[i - n];
      assert forall i :: 0 <= i < n ==> AllTx(l, k)[i] == before[i];
    }
  }

  lemma TxAndArrayFit(l: Ledger, k: nat)
    requires Located(l) && NoRepeats(l)
    ensures |AllTx(l, k)| + |Held(l, DispTx)| <= |l.where|
  {
    AllTxPlaces(l, k);
    var a, d := AllTx(l, k), Held(l, DispTx);
    var x, n := a + d, |a|;
    assert forall i :: n <= i < |x| ==> x[i] == d[i - n];
    assert forall i :: 0 <= i < n ==> x[i] == a[i];
    DistinctFits(x, |l.where|);
  }

  /** On a server the workers' tx queues and the dispatcher's array together never hold more than the receive ring. */
  lemma ServerSupply(c: Config, s: Server)
    requires GoodConfig(c) && Reachable(c, s)
    ensures Load(TxQueues(s.ledger, c.workers)) + |Has(s, DispTx)| <= c.depth
  {
    ReachableInv(c, s);
    LoadIsAll(s.ledger, c.workers);
    TxAndArrayFit(s.ledger, c.workers);
  }

  /** So with an array as large as the receive ring, as in the source, a batch never overflows it, whatever the first
      read was. */
  lemma ServerBatchFits(c: Config, s: Server, w: nat, first: nat)
    requires GoodConfig(c) && Reachable(c, s) && w < c.workers && c.depth <= c.txRing
    ensures |Has(s, DispTx)| <= c.txRing
    ensures |Has(s, DispTx)| + RoceTxSize(first, |Has(s, WorkerTx(w))|, c.txRing - |Has(s, DispTx)|) <= c.txRing
  {
    ServerSupply(c, s);
    var qs := TxQueues(s.ledger, c.workers);
    LoadUpdate(qs, w, qs[w]);
  }

  // Clients

  /** On a client the tx queues and all arrays together never hold more than the budget stands for. */
  lemma ClientSupply(c: Flow.Config, steps: seq<Flow.Step>)
    requires Flow.GoodConfig(c) && Flow.Loose(c, Flow.Initial(c), steps)
    ensures var p := Flow.Exec(c, Flow.Initial(c), steps).req;
            Flow.Total(p.tx) + p.disp <= c.a * Flow.AllMessages(c)
  {
    var s := Flow.Exec(c, Flow.Initial(c), steps);
    Flow.RunConserves(c, steps);
    Flow.WorthBoundsRequests(c.a, c.b, Flow.Messages(s), Flow.Accounted(s.req), Flow.Accounted(s.resp), Flow.AllMessages(c));
    Flow.ProductMonotone(c.a, 0, Flow.Messages(s));
  }

  /** A worker that appends everything between the two reads of a visit to its empty queue does not overflow. */
  predicate BatchFitsIn(p: Flow.Path, w: nat, ring: nat)
    requires w < |p.tx|
  {
    p.disp <= ring ==> p.disp + RoceTxSize(0, p.tx[w], ring - p.disp) <= ring
  }

  lemma ClientBatchFits(c: Flow.Config, steps: seq<Flow.Step>, w: nat)
    requires Flow.GoodConfig(c) && Flow.Loose(c, Flow.Initial(c), steps) && w < c.clients
    requires c.a * Flow.AllMessages(c) <= c.req.ring
    ensures BatchFitsIn(Flow.Exec(c, Flow.Initial(c), steps).req, w, c.req.ring)
  {
    ClientSupply(c, steps);
    Flow.PartOfTotal(Flow.Exec(c, Flow.Initial(c), steps).req.tx, w);
  }

  /** The state of a client whose only worker has sent m batches and whose dispatcher has not collected yet. */
  predicate Sent(c: Flow.Config, s: Flow.State, m: nat)
    requires Flow.GoodConfig(c) && Flow.Shape(c, s) && c.clients == 1
  {
    && s.held[0] == 0 && s.budget[0] == c.budget - m * c.batch && s.req.disp == 0
    && s.req.tx[0] == if c.a * (m * c.batch) <= c.capacity then c.a * (m * c.batch) else c.capacity
  }

  lemma OneBatchMore(c: Flow.Config, s: Flow.State, m: nat)
    requires Flow.GoodConfig(c) && Flow.Shape(c, s) && c.clients == 1 && Sent(c, s, m) && (m + 1) * c.batch <= c.budget
    ensures Flow.Enabled(c, s, Flow.Apply(0)) && Flow.Enabled(c, Flow.Do(c, s, Flow.Apply(0)), Flow.Generate(0))
    ensures Sent(c, Flow.Do(c, Flow.Do(c, s, Flow.Apply(0)), Flow.Generate(0)), m + 1)
  {
    assert (m + 1) * c.batch == m * c.batch + c.batch;
    assert c.a * (m * c.batch + c.batch) == c.a * (m * c.batch) + c.a * c.batch;
  }

  lemma OneStepMore(c: Flow.Config, steps: seq<Flow.Step>, x: Flow.Step)
    requires Flow.GoodConfig(c) && Flow.Runs(c, Flow.Initial(c), steps)
    requires Flow.Enabled(c, Flow.Exec(c, Flow.Initial(c), steps), x)
    ensures Flow.Runs(c, Flow.Initial(c), steps + [x])
    ensures Flow.Exec(c, Flow.Initial(c), steps + [x]) == Flow.Do(c, Flow.Exec(c, Flow.Initial(c), steps), x)
  {
    var more := steps + [x];
    assert more[..|more| - 1] == steps && more[|more| - 1] == x;
  }

  lemma {:induction false} SendBatches(c: Flow.Config, m: nat) returns (steps: seq<Flow.Step>)
    requires Flow.GoodConfig(c) && c.clients == 1 && m * c.batch <= c.budget
    ensures Flow.Runs(c, Flow.Initial(c), steps) && Sent(c, Flow.Exec(c, Flow.Initial(c), steps), m)
  {
    steps := [];
    if m > 0 {
      assert m * c.batch == (m - 1) * c.batch + c.batch;
      steps := SendBatches(c, m - 1);
      OneBatchMore(c, Flow.Exec(c, Flow.Initial(c), steps), m - 1);
      OneStepMore(c, steps, Flow.Apply(0));
      OneStepMore(c, steps + [Flow.Apply(0)], Flow.Generate(0));
      steps := steps + [Flow.Apply(0)] + [Flow.Generate(0)];
    }
  }

  /** With one worker whose batch divides its budget, and a queue larger than the array, as in the source, some run
      overflows the array exactly when the budget stands for more packets than the array holds. */
  lemma ClientCanOverflowIff(c: Flow.Config)
    requires Flow.GoodConfig(c) && c.clients == 1 && c.budget % c.batch == 0 && c.capacity > c.req.ring
    ensures (exists steps :: Flow.Runs(c, Flow.Initial(c), steps)
                             && !BatchFitsIn(Flow.Exec(c, Flow.Initial(c), steps).req, 0, c.req.ring))
            <==> c.a * c.budget > c.req.ring
  {
    assert Flow.AllMessages(c) == c.budget;
    if c.a * c.budget > c.req.ring {
      var m := c.budget / c.batch;
      assert m * c.batch == c.budget;
      var steps := SendBatches(c, m);
      assert !BatchFitsIn(Flow.Exec(c, Flow.Initial(c), steps).req, 0, c.req.ring);
    } else {
      forall steps | Flow.Runs(c, Flow.Initial(c), steps)
        ensures BatchFitsIn(Flow.Exec(c, Flow.Initial(c), steps).req, 0, c.req.ring)
      {
        ClientBatchFits(c, steps, 0);
      }
    }
  }

  /** As shipped (budget 1024, one packet per message) a client's array cannot overflow; with the nine packets of a file
      write it can. */
  lemma ShippedClientFits(serverBatch: nat, clientBatch: nat, resp: Flow.Stage)
    requires serverBatch >= 1 && clientBatch >= 1 && resp.collect >= 1 && resp.flush >= 1
    ensures var st := Flow.Stage(1, 16, 2048);
            var c, d := Flow.Config(1, 1, 1024, 16, 1, 1, serverBatch, clientBatch, 4095, st, resp),
                        Flow.Config(1, 1, 1024, 16, 9, 1, serverBatch, clientBatch, 4095, st, resp);
            && (forall steps :: Flow.Runs(c, Flow.Initial(c), steps) ==>
                                  BatchFitsIn(Flow.Exec(c, Flow.Initial(c), steps).req, 0, 2048))
            && exists steps :: Flow.Runs(d, Flow.Initial(d), steps)
                               && !BatchFitsIn(Flow.Exec(d, Flow.Initial(d), steps).req, 0, 2048)
  {
    var st := Flow.Stage(1, 16, 2048);
    ClientCanOverflowIff(Flow.Config(1, 1, 1024, 16, 1, 1, serverBatch, clientBatch, 4095, st, resp));
    ClientCanOverflowIff(Flow.Config(1, 1, 1024, 16, 9, 1, serverBatch, clientBatch, 4095, st, resp));
  }
}
