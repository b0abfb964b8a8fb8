/** The worker queue (`src/util/lock_free_queue.h`), first as a class used by one thread, then as the
    interleaved reads and writes of one producer and one consumer. */
module LockFreeQueue {
  import opened MathUtils
  import opened Circular

  /** `(i + 1) & mask`. */
  function Next(i: nat, size: nat): nat
    requires size > 0
  {
    BitAnd(i + 1, size - 1)
  }

  lemma NextIsCircular(i: nat, size: nat)
    requires IsPowerOfTwo(size)
    ensures Next(i, size) == (i + 1) % size
  {
    var k := PowerOfTwoExponent(size);
    MaskIsRemainder(i + 1, k);
  }

  /** Queue sizes that the source accepts: a power of two that fits in a word. */
  predicate GoodSize(size: nat) {
    IsPowerOfTwo(size) && size <= Pow2(WORD_BITS)
  }

  /** The entries from `head` up to `tail`. */
  function Entries<T>(slots: seq<T>, head: nat, tail: nat): (e: seq<T>)
    requires head < |slots| && tail < |slots|
    ensures |e| == if tail >= head then tail - head else tail + |slots| - head
    ensures forall i :: 0 <= i < |e| ==> e[i] == slots[if head + i < |slots| then head + i else head + i - |slots|]
  {
    if tail >= head then slots[head..tail] else slots[head..] + slots[..tail]
  }

  class LockFreeQueue<T(0)> {
    const queue: array<T>
    var head: nat
    var tail: nat

    ghost predicate Valid()
      reads this
    {
      GoodSize(queue.Length) && head < queue.Length && tail < queue.Length
    }

    ghost function Contents(): seq<T>
      reads this, queue
      requires Valid()
    {
      Entries(queue[..], head, tail)
    }

    /** The size must pass the power-of-two test; the source stops otherwise. */
    constructor (size: nat)
      requires GoodSize(size)
      ensures Valid() && fresh(queue) && queue.Length == size && Contents() == []
    {
      queue := new T[size];
      head, tail := 0, 0;
    }

    /** One slot stays empty: the queue is full when it holds one entry less than its size. */
    method Enqueue(pkt: T) returns (ok: bool)
      requires Valid()
      modifies this`tail, queue
      ensures Valid() && ok == (|old(Contents())| < queue.Length - 1)
      ensures Contents() == if ok then old(Contents()) + [pkt] else old(Contents())
    {
      NextIsCircular(tail, queue.Length);
      RemainderSmall(tail + 1, queue.Length);
      var nextTail := Next(tail, queue.Length);
      if nextTail == head { return false; }
      queue[tail] := pkt;
      tail := nextTail;
      ok := true;
    }

    method Dequeue() returns (ok: bool, pkt: T)
      requires Valid()
      modifies this`head
      ensures Valid() && ok == (old(Contents()) != [])
      ensures ok ==> pkt == old(Contents())[0] && Contents() == old(Contents())[1..]
      ensures !ok ==> Contents() == []
    {
      pkt := queue[head];
      if head == tail { return false, pkt; } // the source returns a null pointer
      NextIsCircular(head, queue.Length);
      RemainderSmall(head + 1, queue.Length);
      head := Next(head, queue.Length);
      ok := true;
    }

    method GetSize() returns (n: nat)
      requires Valid()
      ensures n == |Contents()|
    {
      MaskedDifferenceIsDistance(tail, head, queue.Length);
      n := MaskedDifference(tail, head, queue.Length);
    }
  }
}
