/** What every action of the closed loop with rings keeps. */
module RingInvariant {
  import opened MathUtils
  import opened FlowControl
  import opened RingFlow
  import opened RingOrder

  // The responses of one worker, oldest first

  /** Those carried by packets of worker w. */
  function Of(rs: seq<Reply>, w: nat, k: nat): (r: seq<Reply>)
    requires k >= 1
    ensures |r| <= |rs|
  {
    if rs == [] then [] else
      var last := rs[|rs| - 1];
      Of(rs[..|rs| - 1], w, k) + if last.buf % k == w then [last] else []
  }

  lemma {:induction false} OfConcat(x: seq<Reply>, y: seq<Reply>, w: nat, k: nat)
    requires k >= 1
    ensures Of(x + y, w, k) == Of(x, w, k) + Of(y, w, k)
  {
    if y == [] {
      assert x + y == x;
    } else {
      assert (x + y)[..|x + y| - 1] == x + y[..|y| - 1];
      OfConcat(x, y[..|y| - 1], w, k);
    }
  }

  lemma {:induction false} OfOne(rs: seq<Reply>, v: nat, w: nat, k: nat)
    requires k >= 1 && forall i :: 0 <= i < |rs| ==> rs[i].buf % k == v
    ensures Of(rs, w, k) == if v == w then rs else []
  {
    if rs != [] {
      OfOne(rs[..|rs| - 1], v, w, k);
    }
  }

  lemma {:induction false} OfHas(rs: seq<Reply>, i: nat, k: nat) returns (j: nat)
    requires k >= 1 && i < |rs|
    ensures var r := Of(rs, rs[i].buf % k, k); j < |r| && r[j] == rs[i]
  {
    if i < |rs| - 1 {
      j := OfHas(rs[..|rs| - 1], i, k);
    } else {
      j := |Of(rs, rs[i].buf % k, k)| - 1;
    }
  }

  /** Everything that worker w has answered and the server still holds. */
  function Line(s: Loop, w: nat, k: nat): seq<Reply>
    requires k >= 1 && w < |s.tx|
  {
    Of(s.sent + s.disp, w, k) + s.tx[w]
  }

  /** Numbered in order, up to but not including end. */
  predicate Lined(rs: seq<Reply>, end: int) {
    forall i :: 0 <= i < |rs| ==> rs[i].nr == end - |rs| + i
  }

  lemma LinedSuffix(x: seq<Reply>, y: seq<Reply>, end: int)
    requires Lined(x + y, end)
    ensures Lined(y, end)
  {
    forall i | 0 <= i < |y| ensures y[i].nr == end - |y| + i {
      assert (x + y)[|x| + i] == y[i];
    }
  }

  /** A response is carried by a packet not much later than the first one of its message. */
  predicate Early(a: nat, b: nat, share: nat, nr: nat, num: nat) {
    a * a * nr <= a * b * num + (a - b) * (b * share - a)
  }

  lemma EarlyBy(a: nat, b: nat, h: nat, i: nat)
    requires b <= a
    ensures a * a * (b * h + i) - a * b * (a * h + i) == (a - b) * (a * i)
  {
    assert a * a * (b * h + i) == a * a * (b * h) + a * a * i;
    assert a * b * (a * h + i) == a * b * (a * h) + a * b * i;
    assert a * a * (b * h) == a * b * (a * h);
    assert a * a * i - a * b * i == (a - b) * (a * i);
  }

  lemma EarlyInBatch(a: nat, b: nat, share: nat, h: nat, i: nat, n: nat)
    requires 1 <= b <= a && i < b * n && a * n <= share
    ensures Early(a, b, share, b * h + i, a * h + i)
  {
    var most := b * share - a;
    assert a * i <= most by {
      MulMonotone(i + 1, b * n, a);
      MulMonotone(a * n, share, b);
      assert (i + 1) * a == a * i + a && b * n * a == a * n * b && share * b == b * share;
    }
    EarlyBy(a, b, h, i);
    ProductMonotone(a - b, a * i, most);
  }

  // Every run

  predicate RingSafe(r: Ring, depth: nat) { InWindow(r, depth) && RingSpaced(r) }

  predicate SafeInv(c: Config, g: Rings, s: Loop) {
    Agrees(c, s) && RingSafe(s.server, g.serverDepth) && RingSafe(s.client, g.clientDepth)
  }

  lemma ReceiveKeepsSafe(st: Stage, r: Ring, p: Path, m: Motion, depth: nat, busy: bool, capacity: nat)
    requires RingAgrees(r, p) && CanMove(st, p, m) && Receives(r, depth, busy, m) && RingSafe(r, depth)
    ensures RingSafe(Receive(r, m, capacity), depth)
  {
    if m.Dispatch? { DealKeepsSpaced(r, capacity); }
  }

  lemma HandleKeepsSafe(r: Ring, w: nat, n: nat, per: nat, depth: nat)
    requires w < |r.rx| == |r.handled| && per * n <= |r.rx[w]| && RingSafe(r, depth)
    ensures RingSafe(Handle(r, w, n, per), depth)
  {
    HandleKeepsSpaced(r, w, n, per);
  }

  lemma RepostKeepsSafe(r: Ring, depth: nat)
    requires RingSafe(r, depth) && r.reposted < r.dispatched && !Queued(r.rx, r.reposted)
    ensures RingSafe(Repost(r), depth)
  {
    RepostKeepsSpaced(r);
  }

  lemma StepKeepsSafe(c: Config, g: Rings, s: Loop, act: Action)
    requires GoodLoop(c) && SafeInv(c, g, s) && Can(c, g, s, act)
    ensures SafeInv(c, g, After(c, g, s, act))
  {
    StepAgrees(c, g, s, act);
    match act
    case Plain(step) =>
      match step {
        case Request(m) =>
          ReceiveKeepsSafe(c.req, s.server, s.flow.req, m, g.serverDepth, Flushing(s.flow.resp), c.capacity);
        case Response(m) =>
          ReceiveKeepsSafe(c.resp, s.client, s.flow.resp, m, g.clientDepth, Flushing(s.flow.req), c.capacity);
        case Serve(w, n) => WholeMessages(s.flow.req.rx[w], c.a, n); HandleKeepsSafe(s.server, w, n, c.a, g.serverDepth);
        case Finish(w, n) => WholeMessages(s.flow.resp.rx[w], c.b, n); HandleKeepsSafe(s.client, w, n, c.b, g.clientDepth);
        case _ =>
      }
    case RepostServer => RepostKeepsSafe(s.server, g.serverDepth);
    case RepostClient => RepostKeepsSafe(s.client, g.clientDepth);
    case _ =>
  }

  lemma {:induction false} RunKeepsSafe(c: Config, g: Rings, acts: seq<Action>)
    requires GoodLoop(c) && Run(c, g, acts)
    ensures SafeInv(c, g, End(c, g, acts))
    decreases |acts|
  {
    if acts != [] {
      RunKeepsSafe(c, g, acts[..|acts| - 1]);
      StepKeepsSafe(c, g, End(c, g, acts[..|acts| - 1]), acts[|acts| - 1]);
    }
  }

  // Every run that has dropped nothing

  /** Carried by buffers from lo on, and early. */
  predicate Sound(c: Config, g: Rings, rs: seq<Reply>, lo: nat)
    requires GoodLoop(c)
  {
    forall i :: 0 <= i < |rs| ==>
      lo <= rs[i].buf && Early(c.a, c.b, Share(g.serverDepth, c.servers), rs[i].nr, rs[i].buf / c.servers)
  }

  predicate TurnOf(rs: seq<Reply>, w: nat, k: nat)
    requires k >= 1
  {
    forall i :: 0 <= i < |rs| ==> rs[i].buf % k == w
  }

  predicate RepliesInv(c: Config, g: Rings, s: Loop)
    requires GoodLoop(c) && Agrees(c, s)
  {
    && Sound(c, g, s.disp, s.server.reposted) && Sound(c, g, s.sent, s.server.reposted)
    && (forall w :: 0 <= w < c.servers ==>
          && Sound(c, g, s.tx[w], s.server.reposted) && TurnOf(s.tx[w], w, c.servers)
          && Lined(Line(s, w, c.servers), c.b * s.server.handled[w]))
  }

  predicate OrderInv(c: Config, g: Rings, s: Loop)
    requires GoodLoop(c) && Agrees(c, s)
  {
    RingDealt(s.server, c.a) && RingDealt(s.client, c.b) && RepliesInv(c, g, s)
  }

  lemma DropsGrow(c: Config, s: State, step: Step)
    requires GoodConfig(c) && Shape(c, s) && Enabled(c, s, step)
    ensures s.req.dropped <= Do(c, s, step).req.dropped && s.resp.dropped <= Do(c, s, step).resp.dropped
  {
  }

  lemma OfCollected(out: seq<Reply>, q: seq<Reply>, n: nat, w: nat, v: nat, k: nat)
    requires k >= 1 && n <= |q| && TurnOf(q, w, k)
    ensures Of(out + q[..n], v, k) == Of(out, v, k) + if v == w then q[..n] else []
  {
    OfConcat(out, q[..n], v, k);
    OfOne(q[..n], w, v, k);
  }

  lemma CollectKeepsLine(s: Loop, flow: State, w: nat, n: nat, v: nat, k: nat)
    requires k >= 1 && w < k && v < k && |s.tx| == k && n <= |s.tx[w]| && TurnOf(s.tx[w], w, k)
    ensures Line(CollectReplies(s, flow, w, n), v, k) == Line(s, v, k)
  {
    var s', out, q := CollectReplies(s, flow, w, n), s.sent + s.disp, s.tx[w];
    OfCollected(out, q, n, w, v, k);
    assert s'.sent + s'.disp == out + q[..n] && s'.tx[v] == if v == w then q[n..] else s.tx[v];
    SplitBack(Of(out, v, k), q, n);
  }

  lemma SplitBack(x: seq<Reply>, q: seq<Reply>, n: nat)
    requires n <= |q|
    ensures (x + q[..n]) + q[n..] == x + q && x + [] == x
  {
  }

  lemma CollectKeepsReplies(c: Config, g: Rings, s: Loop, flow: State, w: nat, n: nat)
    requires GoodLoop(c) && Agrees(c, s) && RepliesInv(c, g, s) && w < c.servers && n <= |s.tx[w]|
    requires Agrees(c, CollectReplies(s, flow, w, n))
    ensures RepliesInv(c, g, CollectReplies(s, flow, w, n))
  {
    var s', k := CollectReplies(s, flow, w, n), c.servers;
    forall v | 0 <= v < k
      ensures Sound(c, g, s'.tx[v], s.server.reposted) && TurnOf(s'.tx[v], v, k)
      ensures Lined(Line(s', v, k), c.b * s.server.handled[v])
    {
      CollectKeepsLine(s, flow, w, n, v, k);
    }
  }

  lemma BurstKeepsReplies(c: Config, g: Rings, s: Loop, polled: nat)
    requires GoodLoop(c) && Agrees(c, s) && RepliesInv(c, g, s) && Can(c, g, s, BurstReplies(polled))
    requires Agrees(c, AfterReplies(c, g, s, polled))
    ensures RepliesInv(c, g, AfterReplies(c, g, s, polled))
  {
    var s', k := AfterReplies(c, g, s, polled), c.servers;
    var out, out' := s.sent + s.disp, s'.sent + s'.disp;
    assert out == s.sent[..polled] + out';
    forall w | 0 <= w < k ensures Lined(Line(s', w, k), c.b * s.server.handled[w]) {
      OfConcat(s.sent[..polled], out', w, k);
      assert Line(s, w, k) == Of(s.sent[..polled], w, k) + Line(s', w, k);
      LinedSuffix(Of(s.sent[..polled], w, k), Line(s', w, k), c.b * s.server.handled[w]);
    }
  }

  lemma RepostKeepsReplies(c: Config, g: Rings, s: Loop)
    requires GoodLoop(c) && Agrees(c, s) && RepliesInv(c, g, s) && Can(c, g, s, RepostServer)
    requires Agrees(c, After(c, g, s, RepostServer))
    ensures RepliesInv(c, g, After(c, g, s, RepostServer))
  {
    var s', x := After(c, g, s, RepostServer), s.server.reposted;
    SoundFrom(c, g, s.disp, x);
    SoundFrom(c, g, s.sent, x);
    forall w | 0 <= w < c.servers
      ensures Sound(c, g, s.tx[w], x + 1) && Line(s', w, c.servers) == Line(s, w, c.servers)
    {
      SoundFrom(c, g, s.tx[w], x);
    }
  }

  lemma SoundFrom(c: Config, g: Rings, rs: seq<Reply>, x: nat)
    requires GoodLoop(c) && Sound(c, g, rs, x) && !Carries(rs, x)
    ensures Sound(c, g, rs, x + 1)
  {
  }

  lemma AnsweredAt(c: Config, r: Ring, w: nat, n: nat, i: nat)
    requires GoodLoop(c) && |r.rx| == c.servers && w < |r.rx| == |r.handled| && c.a * n <= |r.rx[w]| && i < c.b * n
    requires RingDealt(r, c.a)
    ensures var x, num := Answered(c, r, w, n)[i], c.a * r.handled[w] + i;
            && i < |r.rx[w]| && x.buf == r.rx[w][i] && x.nr == c.b * r.handled[w] + i
            && x.buf % c.servers == w && x.buf / c.servers == num
  {
    MulMonotone(c.b, c.a, n);
    var k, num := c.servers, c.a * r.handled[w] + i;
    assert Dealt(r.rx[w], w, c.a * r.handled[w], k, r.dispatched);
    NthTurn(w, num, k);
  }

  lemma AnsweredWell(c: Config, g: Rings, r: Ring, w: nat, n: nat, i: nat)
    requires GoodLoop(c) && |r.rx| == c.servers && w < |r.rx| == |r.handled| && c.a * n <= |r.rx[w]| && i < c.b * n
    requires RingSafe(r, g.serverDepth) && RingDealt(r, c.a)
    ensures var x := Answered(c, r, w, n)[i];
            && r.reposted <= x.buf && x.buf % c.servers == w
            && Early(c.a, c.b, Share(g.serverDepth, c.servers), x.nr, x.buf / c.servers)
  {
    QueueWithinShare(r, g.serverDepth, w);
    AnsweredAt(c, r, w, n, i);
    assert Spaced(r.rx[w], w, c.servers, r.reposted, r.dispatched);
    EarlyInBatch(c.a, c.b, Share(g.serverDepth, c.servers), r.handled[w], i, n);
  }

  lemma AnsweredSound(c: Config, g: Rings, r: Ring, w: nat, n: nat)
    requires GoodLoop(c) && |r.rx| == c.servers && w < |r.rx| == |r.handled| && c.a * n <= |r.rx[w]|
    requires RingSafe(r, g.serverDepth) && RingDealt(r, c.a)
    ensures Sound(c, g, Answered(c, r, w, n), r.reposted) && TurnOf(Answered(c, r, w, n), w, c.servers)
  {
    var rs := Answered(c, r, w, n);
    forall i | 0 <= i < |rs|
      ensures r.reposted <= rs[i].buf && rs[i].buf % c.servers == w
      ensures Early(c.a, c.b, Share(g.serverDepth, c.servers), rs[i].nr, rs[i].buf / c.servers)
    {
      AnsweredWell(c, g, r, w, n, i);
    }
  }

  lemma LinedAppend(x: seq<Reply>, y: seq<Reply>, end: nat)
    requires Lined(x, end) && forall i :: 0 <= i < |y| ==> y[i].nr == end + i
    ensures Lined(x + y, end + |y|)
  {
  }

  lemma ServeKeepsReplies(c: Config, g: Rings, s: Loop, flow: State, w: nat, n: nat)
    requires GoodLoop(c) && Agrees(c, s) && RingSafe(s.server, g.serverDepth) && RingDealt(s.server, c.a) && RepliesInv(c, g, s)
    requires w < c.servers && c.a * n <= |s.server.rx[w]| && |s.tx[w]| + c.b * n <= c.capacity
    requires Agrees(c, ServeMessages(c, s, flow, w, n))
    ensures RepliesInv(c, g, ServeMessages(c, s, flow, w, n))
  {
    var rs := Answered(c, s.server, w, n);
    AnsweredSound(c, g, s.server, w, n);
    ServeLines(c, s, flow, w, n);
    LinedAppend(Line(s, w, c.servers), rs, c.b * s.server.handled[w]);
    assert c.b * (s.server.handled[w] + n) == c.b * s.server.handled[w] + c.b * n;
  }

  lemma ServeLines(c: Config, s: Loop, flow: State, w: nat, n: nat)
    requires GoodLoop(c) && Agrees(c, s) && w < c.servers && c.a * n <= |s.server.rx[w]| && |s.tx[w]| + c.b * n <= c.capacity
    requires Agrees(c, ServeMessages(c, s, flow, w, n))
    ensures var s', k := ServeMessages(c, s, flow, w, n), c.servers;
            && Line(s', w, k) == Line(s, w, k) + Answered(c, s.server, w, n)
            && forall v :: 0 <= v < k && v != w ==> Line(s', v, k) == Line(s, v, k)
  {
    var s', rs := ServeMessages(c, s, flow, w, n), Answered(c, s.server, w, n);
    assert s'.tx[w] == s.tx[w] + rs;
  }

  predicate DropsNothing(c: Config, g: Rings, s: Loop, act: Action)
    requires GoodLoop(c) && Agrees(c, s) && Can(c, g, s, act)
  {
    var flow := After(c, g, s, act).flow;
    flow.req.dropped == s.flow.req.dropped && flow.resp.dropped == s.flow.resp.dropped
  }

  lemma RepliesUntouched(c: Config, g: Rings, s: Loop, s': Loop)
    requires GoodLoop(c) && Agrees(c, s) && Agrees(c, s') && RepliesInv(c, g, s)
    requires s'.tx == s.tx && s'.disp == s.disp && s'.sent == s.sent
    requires s'.server.reposted == s.server.reposted && s'.server.handled == s.server.handled
    ensures RepliesInv(c, g, s')
  {
    forall w | 0 <= w < c.servers ensures Line(s', w, c.servers) == Line(s, w, c.servers) {
    }
  }

  lemma ReceiveKeepsDealt(st: Stage, r: Ring, p: Path, m: Motion, depth: nat, busy: bool, capacity: nat, per: nat)
    requires RingAgrees(r, p) && CanMove(st, p, m) && Receives(r, depth, busy, m) && RingDealt(r, per)
    requires Move(p, m, capacity).dropped == p.dropped
    ensures RingDealt(Receive(r, m, capacity), per)
  {
    if m.Dispatch? { DealKeepsDealt(r, per, capacity); }
  }

  lemma RequestKeepsOrder(c: Config, g: Rings, s: Loop, m: Motion)
    requires GoodLoop(c) && Agrees(c, s) && OrderInv(c, g, s) && Can(c, g, s, Plain(Request(m)))
    requires DropsNothing(c, g, s, Plain(Request(m))) && Agrees(c, AfterPlain(c, g, s, Request(m)))
    ensures OrderInv(c, g, AfterPlain(c, g, s, Request(m)))
  {
    ReceiveKeepsDealt(c.req, s.server, s.flow.req, m, g.serverDepth, Flushing(s.flow.resp), c.capacity, c.a);
    RepliesUntouched(c, g, s, AfterPlain(c, g, s, Request(m)));
  }

  lemma ResponseKeepsOrder(c: Config, g: Rings, s: Loop, m: Motion)
    requires GoodLoop(c) && Agrees(c, s) && OrderInv(c, g, s) && Can(c, g, s, Plain(Response(m)))
    requires DropsNothing(c, g, s, Plain(Response(m))) && Agrees(c, AfterPlain(c, g, s, Response(m)))
    ensures OrderInv(c, g, AfterPlain(c, g, s, Response(m)))
  {
    var s' := AfterPlain(c, g, s, Response(m));
    if m.Collect? {
      CollectKeepsReplies(c, g, s, s'.flow, m.w, m.n);
    } else {
      ReceiveKeepsDealt(c.resp, s.client, s.flow.resp, m, g.clientDepth, Flushing(s.flow.req), c.capacity, c.b);
      RepliesUntouched(c, g, s, s');
    }
  }

  lemma ServeKeepsOrder(c: Config, g: Rings, s: Loop, w: nat, n: nat)
    requires GoodLoop(c) && SafeInv(c, g, s) && OrderInv(c, g, s) && Can(c, g, s, Plain(Serve(w, n)))
    requires DropsNothing(c, g, s, Plain(Serve(w, n))) && Agrees(c, AfterPlain(c, g, s, Serve(w, n)))
    ensures OrderInv(c, g, AfterPlain(c, g, s, Serve(w, n)))
  {
    WholeMessages(s.flow.req.rx[w], c.a, n);
    HandleKeepsDealt(s.server, w, n, c.a);
    ServeKeepsReplies(c, g, s, Do(c, s.flow, Serve(w, n)), w, n);
  }

  lemma FinishKeepsOrder(c: Config, g: Rings, s: Loop, w: nat, n: nat)
    requires GoodLoop(c) && Agrees(c, s) && OrderInv(c, g, s) && Can(c, g, s, Plain(Finish(w, n)))
    requires Agrees(c, AfterPlain(c, g, s, Finish(w, n)))
    ensures OrderInv(c, g, AfterPlain(c, g, s, Finish(w, n)))
  {
    WholeMessages(s.flow.resp.rx[w], c.b, n);
    HandleKeepsDealt(s.client, w, n, c.b);
    RepliesUntouched(c, g, s, AfterPlain(c, g, s, Finish(w, n)));
  }

  lemma StepKeepsOrder(c: Config, g: Rings, s: Loop, act: Action)
    requires GoodLoop(c) && SafeInv(c, g, s) && OrderInv(c, g, s) && Can(c, g, s, act) && DropsNothing(c, g, s, act)
    ensures Agrees(c, After(c, g, s, act)) && OrderInv(c, g, After(c, g, s, act))
  {
    StepAgrees(c, g, s, act);
    match act
    case Plain(step) =>
      match step {
        case Request(m) => RequestKeepsOrder(c, g, s, m);
        case Response(m) => ResponseKeepsOrder(c, g, s, m);
        case Serve(w, n) => ServeKeepsOrder(c, g, s, w, n);
        case Finish(w, n) => FinishKeepsOrder(c, g, s, w, n);
        case _ => RepliesUntouched(c, g, s, After(c, g, s, act));
      }
    case BurstRequests(_) => RepliesUntouched(c, g, s, After(c, g, s, act));
    case BurstReplies(k) => BurstKeepsReplies(c, g, s, k);
    case RepostServer => RepostKeepsReplies(c, g, s);
    case _ => RepliesUntouched(c, g, s, After(c, g, s, act));
  }

  lemma StartInOrder(c: Config, g: Rings)
    requires GoodLoop(c)
    ensures OrderInv(c, g, Start(c))
  {
    var s := Start(c);
    forall w | 0 <= w < c.servers ensures Lined(Line(s, w, c.servers), c.b * s.server.handled[w]) {
      assert Line(s, w, c.servers) == [];
    }
  }

  lemma DropsSoFar(c: Config, g: Rings, past: seq<Action>, act: Action)
    requires GoodLoop(c) && Run(c, g, past) && Can(c, g, End(c, g, past), act)
    ensures var s, s' := End(c, g, past), After(c, g, End(c, g, past), act);
            s.flow.req.dropped <= s'.flow.req.dropped && s.flow.resp.dropped <= s'.flow.resp.dropped
  {
    var s := End(c, g, past);
    StepRefines(c, g, s, act);
    if Counts(g, s, act) != [] { DropsGrow(c, s.flow, Counts(g, s, act)[0]); }
  }

  lemma {:induction false} RunKeepsOrder(c: Config, g: Rings, acts: seq<Action>)
    requires GoodLoop(c) && Run(c, g, acts)
    requires End(c, g, acts).flow.req.dropped == End(c, g, acts).flow.resp.dropped == 0
    ensures OrderInv(c, g, End(c, g, acts))
    decreases |acts|
  {
    if acts == [] {
      StartInOrder(c, g);
    } else {
      var past, act := acts[..|acts| - 1], acts[|acts| - 1];
      DropsSoFar(c, g, past, act);
      RunKeepsSafe(c, g, past);
      RunKeepsOrder(c, g, past);
      StepKeepsOrder(c, g, End(c, g, past), act);
    }
  }
}
