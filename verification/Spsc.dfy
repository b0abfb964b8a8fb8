/** The worker queue with one producer and one consumer. */
module Spsc {
  // Interleaved at single reads and writes of the shared fields (`src/util/lock_free_queue.h`), under sequential
  // consistency. A thread's own index is written by no one else, so reading it is not a step of its own.

  import opened MathUtils
  import opened Circular
  import opened LockFreeQueue

  /** In `enqueue`: past the full test; past the write of the slot. */
  datatype ProducerPc<T> = Idle | Writing(v: T) | Publishing(v: T)

  /** In `dequeue`: past the empty test; past the read of the slot. */
  datatype ConsumerPc<T> = Resting | Reading | Advancing(v: T)

  /** `slots`, `head` and `tail` are the shared fields. `sent` and `received` are history variables:
      the packets whose enqueue and whose dequeue have taken effect. `credit` is what the consumer's last
      size read still promises it. */
  datatype Queue<T> = Queue(
    slots: seq<T>, head: nat, tail: nat,
    producer: ProducerPc<T>, consumer: ConsumerPc<T>,
    sent: seq<T>, received: seq<T>, credit: nat)

  datatype Step<T> =
    | TryEnqueue(v: T) | Write | Publish
    | ReadSize | TryDequeue | Read | Advance

  function Init<T>(slots: seq<T>): Queue<T> {
    Queue(slots, 0, 0, Idle, Resting, [], [], 0)
  }

  predicate Shape<T>(s: Queue<T>) {
    GoodSize(|s.slots|) && s.head < |s.slots| && s.tail < |s.slots|
  }

  predicate Enabled<T>(s: Queue<T>, step: Step<T>) {
    && Shape(s)
    && match step
       case TryEnqueue(_) => s.producer.Idle?
       case Write => s.producer.Writing?
       case Publish => s.producer.Publishing?
       case ReadSize => s.consumer.Resting?
       case TryDequeue => s.consumer.Resting?
       case Read => s.consumer.Reading?
       case Advance => s.consumer.Advancing?
  }

  /** What `get_size` returns. */
  function SizeRead<T>(s: Queue<T>): nat
    requires Shape(s)
  {
    MaskedDifference(s.tail, s.head, |s.slots|)
  }

  function Apply<T>(s: Queue<T>, step: Step<T>): Queue<T>
    requires Enabled(s, step)
  {
    match step
    case TryEnqueue(v) =>
      // A full queue rejects the packet: enqueue returns false.
      if Next(s.tail, |s.slots|) == s.head then s else s.(producer := Writing(v))
    case Write => s.(slots := s.slots[s.tail := s.producer.v], producer := Publishing(s.producer.v))
    case Publish => s.(tail := Next(s.tail, |s.slots|), producer := Idle, sent := s.sent + [s.producer.v])
    case ReadSize => s.(credit := SizeRead(s))
    case TryDequeue =>
      // An empty queue has nothing to give: dequeue returns null.
      if s.head == s.tail then s else s.(consumer := Reading)
    case Read => s.(consumer := Advancing(s.slots[s.head]))
    case Advance =>
      s.(head := Next(s.head, |s.slots|), consumer := Resting, received := s.received + [s.consumer.v],
         credit := if s.credit == 0 then 0 else s.credit - 1)
  }

  predicate Runs<T>(s: Queue<T>, steps: seq<Step<T>>)
    decreases |steps|
  {
    steps == [] || (Enabled(s, steps[0]) && Runs(Apply(s, steps[0]), steps[1..]))
  }

  function Exec<T>(s: Queue<T>, steps: seq<Step<T>>): Queue<T>
    requires Runs(s, steps)
    decreases |steps|
  {
    if steps == [] then s else Exec(Apply(s, steps[0]), steps[1..])
  }

  predicate Counters<T>(s: Queue<T>) {
    && GoodSize(|s.slots|)
    && |s.received| <= |s.sent| < |s.received| + |s.slots|
    && s.head == |s.received| % |s.slots| && s.tail == |s.sent| % |s.slots|
    && s.credit <= |s.sent| - |s.received|
    && (!s.producer.Idle? ==> |s.sent| + 1 < |s.received| + |s.slots|)
    && (!s.consumer.Resting? ==> |s.received| < |s.sent|)
  }

  ghost predicate Fifo<T>(s: Queue<T>)
    requires Counters(s)
  {
    && s.received == s.sent[..|s.received|]
    && (forall i :: |s.received| <= i < |s.sent| ==> s.slots[i % |s.slots|] == s.sent[i])
    && (s.producer.Publishing? ==> s.slots[s.tail] == s.producer.v)
    && (s.consumer.Advancing? ==> s.consumer.v == s.sent[|s.received|])
  }

  ghost predicate Inv<T>(s: Queue<T>) {
    Counters(s) && Fifo(s)
  }

  lemma InitInv<T>(slots: seq<T>)
    requires GoodSize(|slots|)
    ensures Inv(Init(slots))
  {
    RemainderSmall(0, |slots|);
  }

  lemma NextCount(count: nat, size: nat)
    requires IsPowerOfTwo(size)
    ensures Next(count % size, size) == (count + 1) % size
  {
    NextIsCircular(count % size, size);
    RemainderAdd(count, 1, size);
  }

  /** Counts less than a ring apart fall on the same slot only if they are equal. */
  lemma SameSlot(a: nat, b: nat, size: nat)
    requires size > 0 && a <= b < a + size && a % size == b % size
    ensures a == b
  {
    if a < b { OffsetsDistinct(a, 0, b - a, size); }
  }

  lemma SizeIsCount<T>(s: Queue<T>)
    requires Counters(s)
    ensures SizeRead(s) == |s.sent| - |s.received|
  {
    MaskedDifferenceIsDistance(s.tail, s.head, |s.slots|);
    SlotDistance(|s.received|, |s.sent|, |s.slots|);
  }

  /** Slots less than a turn apart show how far apart they are. */
  lemma SlotDistance(a: nat, b: nat, n: nat)
    requires a <= b < a + n
    ensures b - a == if b % n >= a % n then b % n - a % n else b % n + n - a % n
  {
    RemainderAdd(a, b - a, n);
    RemainderSmall(a % n + (b - a), n);
  }

  lemma StepKeepsCounters<T>(s: Queue<T>, step: Step<T>)
    requires Enabled(s, step) && Counters(s)
    ensures Counters(Apply(s, step))
  {
    var n, a, b := |s.slots|, |s.received|, |s.sent|;
    NextCount(a, n);
    NextCount(b, n);
    match step {
      case TryEnqueue(v) => FullTest(s);
      case ReadSize => SizeIsCount(s);
      case TryDequeue => if a == b { assert s.head == s.tail; }
      case _ =>
    }
  }

  /** The full test fails exactly when one slot is left; the empty test exactly when no packet is left. */
  lemma FullTest<T>(s: Queue<T>)
    requires Counters(s)
    ensures Next(s.tail, |s.slots|) == s.head <==> |s.sent| - |s.received| == |s.slots| - 1
    ensures s.head == s.tail <==> |s.sent| == |s.received|
  {
    var n, a, b := |s.slots|, |s.received|, |s.sent|;
    NextCount(b, n);
    if b + 1 < a + n && (b + 1) % n == a % n { SameSlot(a, b + 1, n); }
    if b + 1 == a + n { RemainderAdd(n, a, n); RemainderAdd(0, a, n); }
    if a % n == b % n { SameSlot(a, b, n); }
  }

  lemma StepKeepsFifo<T>(s: Queue<T>, step: Step<T>)
    requires Enabled(s, step) && Inv(s)
    ensures Counters(Apply(s, step)) && Fifo(Apply(s, step))
  {
    StepKeepsCounters(s, step);
    var t := Apply(s, step);
    var n, a, b := |s.slots|, |s.received|, |s.sent|;
    match step {
      case Write =>
        forall i | a <= i < b ensures t.slots[i % n] == s.sent[i] {
          if i % n == b % n { SameSlot(i, b, n); }
        }
      case Advance => assert s.sent[..a + 1] == s.sent[..a] + [s.sent[a]];
      case _ =>
    }
  }

  lemma {:induction false} RunKeepsInv<T>(s: Queue<T>, steps: seq<Step<T>>)
    requires Inv(s) && Runs(s, steps)
    ensures Inv(Exec(s, steps))
    decreases |steps|
  {
    if steps != [] {
      StepKeepsFifo(s, steps[0]);
      RunKeepsInv(Apply(s, steps[0]), steps[1..]);
    }
  }

  /** In every interleaving the packets received are the first of the packets sent, in order, and at most
      one less than the queue's size are on the way. */
  lemma ReceivedIsPrefixOfSent<T>(slots: seq<T>, steps: seq<Step<T>>)
    requires GoodSize(|slots|) && Runs(Init(slots), steps)
    ensures var s := Exec(Init(slots), steps);
            s.received <= s.sent && |s.sent| - |s.received| <= |slots| - 1
  {
    InitInv(slots);
    RunKeepsInv(Init(slots), steps);
    SlotsKeepLength(Init(slots), steps);
  }

  lemma {:induction false} SlotsKeepLength<T>(s: Queue<T>, steps: seq<Step<T>>)
    requires Runs(s, steps)
    ensures |Exec(s, steps).slots| == |s.slots|
    decreases |steps|
  {
    if steps != [] { SlotsKeepLength(Apply(s, steps[0]), steps[1..]); }
  }

  /** The abstract queue: sent and not yet received. */
  function Pending<T>(s: Queue<T>): seq<T>
    requires |s.received| <= |s.sent|
  {
    s.sent[|s.received|..]
  }

  /** At any moment, in the middle of any operation, the shared fields show the abstract queue. */
  lemma FieldsShowPending<T>(s: Queue<T>)
    requires Inv(s)
    ensures Shape(s) && Entries(s.slots, s.head, s.tail) == Pending(s)
  {
    var n, a, b := |s.slots|, |s.received|, |s.sent|;
    SizeIsCount(s);
    MaskedDifferenceIsDistance(s.tail, s.head, n);
    var e := Entries(s.slots, s.head, s.tail);
    forall i | 0 <= i < b - a ensures e[i] == s.sent[a + i] {
      SlotFrom(a, i, n);
      assert s.slots[(a + i) % n] == s.sent[a + i];
    }
  }

  /** The slot i steps after the first pending one. */
  lemma SlotFrom(a: nat, i: nat, n: nat)
    requires i < n
    ensures (a + i) % n == if a % n + i < n then a % n + i else a % n + i - n
  {
    RemainderAdd(a, i, n);
    RemainderSmall(a % n + i, n);
  }

  /** Steps of the producer; the others are the consumer's. */
  predicate IsProducer<T>(step: Step<T>) { step.TryEnqueue? || step.Write? || step.Publish? }

  /** Every step refines the FIFO queue. The producer's packet is carried to the publish, which appends it to a queue with
      room; an advance hands over the first packet, the one that was read; a rejected enqueue found the queue full, a null
      dequeue found it empty, a size read is exact; all other steps leave the queue alone, and no step moves the other
      thread. */
  lemma StepRefinesFifo<T>(s: Queue<T>, step: Step<T>)
    requires Inv(s) && Enabled(s, step)
    ensures Counters(Apply(s, step))
    ensures var q, t := Pending(s), Apply(s, step);
            var r := Pending(t);
            match step
            case TryEnqueue(v) => r == q && t.producer == if |q| == |s.slots| - 1 then Idle else Writing(v)
            case Write => r == q && t.producer == Publishing(s.producer.v)
            case Publish => |q| < |s.slots| - 1 && r == q + [s.producer.v] && t.producer == Idle
            case ReadSize => r == q && SizeRead(s) == |q| && t.consumer == Resting
            case TryDequeue => r == q && t.consumer == if q == [] then Resting else Reading
            case Read => r == q != [] && t.consumer == Advancing(q[0])
            case Advance => q != [] && s.consumer.v == q[0] && r == q[1..] && t.consumer == Resting
    ensures if IsProducer(step) then Apply(s, step).consumer == s.consumer && Apply(s, step).received == s.received
            else Apply(s, step).producer == s.producer && Apply(s, step).sent == s.sent
  {
    StepKeepsFifo(s, step);
    FullTest(s);
    SizeIsCount(s);
  }

  lemma RunOfOne<T>(s: Queue<T>, step: Step<T>)
    requires Enabled(s, step)
    ensures Runs(s, [step]) && Exec(s, [step]) == Apply(s, step)
  {
  }

  lemma RunFrom<T>(s: Queue<T>, step: Step<T>, rest: seq<Step<T>>)
    requires Enabled(s, step) && Runs(Apply(s, step), rest)
    ensures Runs(s, [step] + rest) && Exec(s, [step] + rest) == Exec(Apply(s, step), rest)
  {
    assert ([step] + rest)[1..] == rest;
  }

  lemma RunOfThree<T>(s: Queue<T>, a: Step<T>, b: Step<T>, c: Step<T>)
    requires Enabled(s, a) && Enabled(Apply(s, a), b) && Enabled(Apply(Apply(s, a), b), c)
    ensures Runs(s, [a, b, c]) && Exec(s, [a, b, c]) == Apply(Apply(Apply(s, a), b), c)
  {
    RunOfOne(Apply(Apply(s, a), b), c);
    RunFrom(Apply(s, a), b, [c]);
    RunFrom(s, a, [b] + [c]);
    assert [a] + ([b] + [c]) == [a, b, c];
  }

  /** `enqueue` by itself is a run of the producer's steps: the packet is appended, unless one slot is left. */
  lemma EnqueueIsRun<T>(s: Queue<T>, v: T) returns (steps: seq<Step<T>>)
    requires Inv(s) && s.producer.Idle?
    ensures Runs(s, steps) && forall i :: 0 <= i < |steps| ==> IsProducer(steps[i])
    ensures var t := Exec(s, steps);
            && Inv(t) && t.producer.Idle? && t.consumer == s.consumer
            && Pending(t) == if |Pending(s)| < |s.slots| - 1 then Pending(s) + [v] else Pending(s)
  {
    StepKeepsFifo(s, TryEnqueue(v));
    StepRefinesFifo(s, TryEnqueue(v));
    var t := Apply(s, TryEnqueue(v));
    if t.producer.Idle? {
      steps := [TryEnqueue(v)];
      RunOfOne(s, TryEnqueue(v));
    } else {
      StepKeepsFifo(t, Write);
      StepRefinesFifo(t, Write);
      StepKeepsFifo(Apply(t, Write), Publish);
      StepRefinesFifo(Apply(t, Write), Publish);
      steps := [TryEnqueue(v), Write, Publish];
      RunOfThree(s, TryEnqueue(v), Write, Publish);
    }
  }

  /** `dequeue` by itself is a run of the consumer's steps: the first packet is taken, if there is one. */
  lemma DequeueIsRun<T>(s: Queue<T>) returns (steps: seq<Step<T>>)
    requires Inv(s) && s.consumer.Resting?
    ensures Runs(s, steps) && forall i :: 0 <= i < |steps| ==> !IsProducer(steps[i])
    ensures var t := Exec(s, steps);
            && Inv(t) && t.consumer.Resting? && t.producer == s.producer
            && Pending(t) == if Pending(s) == [] then [] else Pending(s)[1..]
  {
    StepKeepsFifo(s, TryDequeue);
    StepRefinesFifo(s, TryDequeue);
    var t := Apply(s, TryDequeue);
    if t.consumer.Resting? {
      steps := [TryDequeue];
      RunOfOne(s, TryDequeue);
    } else {
      StepKeepsFifo(t, Read);
      StepRefinesFifo(t, Read);
      StepKeepsFifo(Apply(t, Read), Advance);
      StepRefinesFifo(Apply(t, Read), Advance);
      steps := [TryDequeue, Read, Advance];
      RunOfThree(s, TryDequeue, Read, Advance);
    }
  }

  /** The producer's write never hits the slot of a packet that has not been received. */
  lemma WriteSparesUnread<T>(s: Queue<T>, i: nat)
    requires Inv(s) && Enabled(s, Write) && |s.received| <= i < |s.sent|
    ensures i % |s.slots| != s.tail && Apply(s, Write).slots[i % |s.slots|] == s.sent[i]
  {
    if i % |s.slots| == s.tail { SameSlot(i, |s.sent|, |s.slots|); }
  }

  function Advances<T>(steps: seq<Step<T>>): nat {
    if steps == [] then 0 else (if steps[0].Advance? then 1 else 0) + Advances(steps[1..])
  }

  lemma {:induction false} CreditCounts<T>(s: Queue<T>, steps: seq<Step<T>>)
    requires Runs(s, steps) && Advances(steps) <= s.credit && forall st :: st in steps ==> !st.ReadSize?
    ensures Exec(s, steps).credit == s.credit - Advances(steps)
    decreases |steps|
  {
    if steps != [] { CreditCounts(Apply(s, steps[0]), steps[1..]); }
  }

  /** A size read is a lower bound until the consumer itself dequeues: after it returned n, and whatever the
      producer has done since, a dequeue with fewer than n completed since then does not return null. */
  lemma SizeReadIsLowerBound<T>(s: Queue<T>, steps: seq<Step<T>>)
    requires Inv(s) && Enabled(s, ReadSize) && Runs(Apply(s, ReadSize), steps)
    requires Advances(steps) < SizeRead(s) && forall st :: st in steps ==> !st.ReadSize?
    ensures var t := Exec(Apply(s, ReadSize), steps);
            Enabled(t, TryDequeue) ==> Apply(t, TryDequeue).consumer.Reading?
  {
    StepKeepsFifo(s, ReadSize);
    var u := Apply(s, ReadSize);
    RunKeepsInv(u, steps);
    CreditCounts(u, steps);
    FullTest(Exec(u, steps));
  }
}
