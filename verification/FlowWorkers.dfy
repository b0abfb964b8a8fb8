/** The worker phases are steps of the closed loop. */
module FlowWorkers {
  // Module Worker says what a phase does to real queues, module FlowControl counts packets and messages. Each phase below
  // runs on the object and takes the loop's state along, by the step of its name or by none.

  import opened MathUtils
  import opened FlowControl
  import opened RuleTable
  import W = Worker

  /** Worker w of the client has the queues and the budget that the state counts. */
  ghost predicate ClientMatches(c: Config, s: State, w: nat, k: W.Worker)
    reads k, k.rules, k.rxQueue, k.rxQueue.queue, k.txQueue, k.txQueue.queue
  {
    && GoodConfig(c) && Shape(c, s) && w < c.clients && k.Valid()
    && k.requestPkts == c.a && k.responsePkts == c.b && k.txBatch == c.batch && k.rxBatch == c.clientBatch
    && k.txQueue.queue.Length == c.capacity + 1
    && BudgetOf(k.rules.inflyBudget, k.workload) == s.budget[w]
    && |k.txQueue.Contents()| == s.req.tx[w] && |k.rxQueue.Contents()| == s.resp.rx[w]
  }

  /** Worker w of the server has the queues that the state counts. */
  ghost predicate ServerMatches(c: Config, s: State, w: nat, k: W.Worker)
    reads k, k.rxQueue, k.rxQueue.queue, k.txQueue, k.txQueue.queue
  {
    && GoodConfig(c) && Shape(c, s) && w < c.servers && k.Valid()
    && k.requestPkts == c.a && k.responsePkts == c.b && k.rxBatch == c.serverBatch
    && k.txQueue.queue.Length == c.capacity + 1
    && |k.rxQueue.Contents()| == s.req.rx[w] && |k.txQueue.Contents()| == s.resp.tx[w]
  }

  /** `apply_mbufs` is an Apply step exactly when the budget covers the batch. */
  method ApplyMbufs(c: Config, ghost s: State, w: nat, k: W.Worker) returns (ghost t: State)
    requires ClientMatches(c, s, w, k) && s.held[w] == 0
    modifies k`inflyFlag, k.rules`inflyBudget
    ensures ClientMatches(c, t, w, k)
    ensures if s.budget[w] >= c.batch then k.inflyFlag && Enabled(c, s, Apply(w)) && t == Do(c, s, Apply(w)) else !k.inflyFlag && t == s
    ensures t.held[w] == if k.inflyFlag then c.batch else 0
  {
    k.ApplyMbufs();
    t := if k.inflyFlag then Do(c, s, Apply(w)) else s;
  }

  /** `generate_pkts` is a Generate step exactly when a batch was granted. */
  method GeneratePkts(c: Config, ghost s: State, w: nat, k: W.Worker, txMbufs: seq<nat>) returns (drops: nat, ghost t: State)
    requires ClientMatches(c, s, w, k) && s.held[w] == (if k.inflyFlag then c.batch else 0) && |txMbufs| == c.a * c.batch
    modifies k`released, k.txQueue`tail, k.txQueue.queue
    ensures ClientMatches(c, t, w, k) && t.held[w] == 0
    ensures if k.inflyFlag then Enabled(c, s, Generate(w)) && t == Do(c, s, Generate(w)) else t == s
    ensures t.req.dropped == s.req.dropped + drops
  {
    drops := k.GeneratePkts(txMbufs);
    t := if k.inflyFlag then Do(c, s, Generate(w)) else s;
  }

  /** `app_handler` of a client is a Finish step of all whole messages exactly when they reach the threshold. */
  method HandleClient(c: Config, ghost s: State, w: nat, k: W.Worker) returns (msgNum: nat, ghost t: State)
    requires ClientMatches(c, s, w, k)
    modifies k`released, k.rxQueue`head, k.rules`inflyBudget
    ensures ClientMatches(c, t, w, k)
    ensures if msgNum >= c.clientBatch then Enabled(c, s, Finish(w, msgNum)) && t == Do(c, s, Finish(w, msgNum)) else t == s
    ensures !Enabled(c, s, Finish(w, msgNum + 1))
  {
    ghost var pkts;
    msgNum, pkts := k.AppHandlerClient();
    AllWhole(s.resp.rx[w], c.b, msgNum, pkts);
    t := if msgNum >= c.clientBatch then Do(c, s, Finish(w, msgNum)) else s;
  }

  /** `app_handler` of a server is a Serve step of all whole messages exactly when they reach the threshold. */
  method HandleServer(c: Config, ghost s: State, w: nat, k: W.Worker) returns (msgNum: nat, ghost t: State)
    requires ServerMatches(c, s, w, k) && c.b <= c.a
    modifies k`released, k.rxQueue`head, k.txQueue`tail, k.txQueue.queue
    ensures ServerMatches(c, t, w, k)
    ensures if msgNum >= c.serverBatch then Enabled(c, s, Serve(w, msgNum)) && t == Do(c, s, Serve(w, msgNum)) else t == s
    ensures !Enabled(c, s, Serve(w, msgNum + 1))
  {
    ghost var pkts, resps;
    msgNum, pkts, resps := k.AppHandlerServer();
    AllWhole(s.req.rx[w], c.a, msgNum, pkts);
    t := if msgNum >= c.serverBatch then Do(c, s, Serve(w, msgNum)) else s;
  }

  lemma AllWhole(packets: nat, per: nat, n: nat, pkts: nat)
    requires per >= 1 && pkts == per * n && pkts <= packets < pkts + per
    ensures packets / per == n
  {
    RemainderUnique(packets, per, n, packets - pkts);
  }
}
