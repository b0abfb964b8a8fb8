/** Circular index intervals and the circular `next` lists of work requests. */
module Circular {
  import opened MathUtils

  /** The `len` consecutive ring indices that begin at `start`, modulo the ring depth. */
  function Arc(start: nat, len: nat, depth: nat): (a: seq<nat>)
    requires depth > 0
    ensures |a| == len
    ensures forall i :: 0 <= i < len ==> a[i] == (start + i) % depth
  {
    if len == 0 then [] else Arc(start, len - 1, depth) + [(start + len - 1) % depth]
  }

  lemma RemainderAdd(x: nat, y: nat, d: nat)
    requires d > 0
    ensures (x % d + y) % d == (x + y) % d
  {
    var q, r := (x % d + y) / d, (x % d + y) % d;
    assert x + y == (x / d) * d + (q * d + r);
    assert (x / d) * d + q * d == (x / d + q) * d;
    RemainderUnique(x + y, d, x / d + q, r);
  }

  lemma RemainderSmall(x: nat, d: nat)
    requires x < 2 * d
    ensures x % d == if x < d then x else x - d
  {
    RemainderUnique(x, d, if x < d then 0 else 1, if x < d then x else x - d);
  }

  lemma {:induction false} ArcSplit(start: nat, m: nat, n: nat, depth: nat)
    requires depth > 0
    ensures Arc(start, m + n, depth) == Arc(start, m, depth) + Arc((start + m) % depth, n, depth)
  {
    if n > 0 {
      ArcSplit(start, m, n - 1, depth);
      RemainderAdd(start + m, n - 1, depth);
      assert start + (m + n) - 1 == start + m + (n - 1);
    }
  }

  lemma ArcFrom(start: nat, k: nat, len: nat, depth: nat)
    requires depth > 0 && k <= len
    ensures Arc(start, len, depth)[..k] == Arc(start, k, depth)
    ensures Arc(start, len, depth)[k..] == Arc((start + k) % depth, len - k, depth)
  {
    ArcSplit(start, k, len - k, depth);
  }

  lemma {:induction false} ArcReduced(start: nat, len: nat, depth: nat)
    requires depth > 0
    ensures Arc(start % depth, len, depth) == Arc(start, len, depth)
  {
    if len > 0 {
      ArcReduced(start, len - 1, depth);
      RemainderAdd(start, len - 1, depth);
    }
  }

  lemma OffsetsDistinct(start: nat, i: nat, j: nat, depth: nat)
    requires i < j < depth || j < i < depth
    ensures (start + i) % depth != (start + j) % depth
  {
    var a, b := if i < j then i else j, if i < j then j else i;
    if (start + a) % depth == (start + b) % depth {
      var q := (start + a) / depth;
      assert start + b == q * depth + ((start + a) % depth + (b - a));
      var q' := (start + b) / depth;
      assert (q' - q) * depth == b - a;
      if q' > q { MulMonotone(1, q' - q, depth); } else { MulMonotone(q' - q, 0, depth); }
    }
  }

  /** No index occurs twice in an arc no longer than the ring. */
  lemma ArcDistinct(start: nat, len: nat, depth: nat)
    requires depth > 0 && len <= depth
    ensures forall i, j :: 0 <= i < j < len ==> Arc(start, len, depth)[i] != Arc(start, len, depth)[j]
  {
    forall i, j | 0 <= i < j < len
      ensures Arc(start, len, depth)[i] != Arc(start, len, depth)[j]
    {
      OffsetsDistinct(start, i, j, depth);
    }
  }

  /** Every ring index lies on the full arc. */
  lemma FullArcCovers(start: nat, b: nat, depth: nat) returns (i: nat)
    requires b < depth
    ensures i < depth && (start + i) % depth == b
  {
    var s := start % depth;
    i := if b >= s then b - s else b + depth - s;
    RemainderAdd(start, i, depth);
    RemainderSmall(s + i, depth);
  }

  /** The `next` field of a work request. */
  datatype Link = Null | To(index: nat)

  /** The single cycle through all entries in ring order, as the initialisation builds it. */
  predicate FullCycle(next: seq<Link>) {
    forall i :: 0 <= i < |next| ==> next[i] == To((i + 1) % |next|)
  }

  /** What a reader of the list visits: it follows `next` until null, at most `fuel` entries. */
  function Follow(next: seq<Link>, at: Link, fuel: nat): seq<nat>
    decreases fuel
  {
    if at.Null? || fuel == 0 || at.index >= |next| then []
    else [at.index] + Follow(next, next[at.index], fuel - 1)
  }

  /** The chain handed to the NIC: the list with the `next` of the n-th entry from `first` cut. */
  function CutAfter(next: seq<Link>, first: nat, n: nat): seq<Link>
    requires |next| > 0 && n > 0
  {
    next[(first + n - 1) % |next| := Null]
  }

  /** With the cycle cut after n entries, a reader starting at `first` visits exactly those n entries
      in ring order and stops at null: the result does not depend on how much fuel is left over. */
  lemma ChainVisitsExactly(next: seq<Link>, first: nat, n: nat, fuel: nat)
    requires FullCycle(next) && first < |next| && 1 <= n <= |next| && fuel >= n
    ensures Follow(CutAfter(next, first, n), To(first), fuel) == Arc(first, n, |next|)
  {
    RemainderSmall(first, |next|);
    ChainSuffix(next, first, n, 0, fuel);
  }

  lemma {:induction false} ChainSuffix(next: seq<Link>, first: nat, n: nat, k: nat, fuel: nat)
    requires FullCycle(next) && first < |next| && k < n <= |next| && fuel >= n - k
    ensures Follow(CutAfter(next, first, n), To((first + k) % |next|), fuel)
         == Arc((first + k) % |next|, n - k, |next|)
    decreases n - k
  {
    var at := (first + k) % |next|;
    if k == n - 1 {
      ChainEnds(next, first, n, fuel);
    } else {
      ChainLink(next, first, n, k);
      ChainSuffix(next, first, n, k + 1, fuel - 1);
      ArcFirst(at, n - k - 1, |next|);
    }
  }

  lemma ChainEnds(next: seq<Link>, first: nat, n: nat, fuel: nat)
    requires FullCycle(next) && first < |next| && 1 <= n <= |next| && fuel >= 1
    ensures var at := (first + (n - 1)) % |next|;
            Follow(CutAfter(next, first, n), To(at), fuel) == [at] == Arc(at, 1, |next|)
  {
    var cut, at := CutAfter(next, first, n), (first + (n - 1)) % |next|;
    RemainderSmall(at, |next|);
    assert Follow(cut, To(at), fuel) == [at] + Follow(cut, Null, fuel - 1);
  }

  lemma ChainLink(next: seq<Link>, first: nat, n: nat, k: nat)
    requires FullCycle(next) && first < |next| && k < n - 1 < |next|
    ensures var at := (first + k) % |next|;
            CutAfter(next, first, n)[at] == To((first + (k + 1)) % |next|) && (at + 1) % |next| == (first + (k + 1)) % |next|
  {
    OffsetsDistinct(first, k, n - 1, |next|);
    NextOffset(first, k, |next|);
    LinkKept(next, (first + (n - 1)) % |next|, (first + k) % |next|);
  }

  lemma NextOffset(first: nat, k: nat, depth: nat)
    requires depth > 0
    ensures ((first + k) % depth + 1) % depth == (first + (k + 1)) % depth
  {
    RemainderAdd(first + k, 1, depth);
  }

  lemma LinkKept(next: seq<Link>, cut: nat, at: nat)
    requires FullCycle(next) && cut < |next| && at < |next| && at != cut
    ensures next[cut := Null][at] == To((at + 1) % |next|)
  {
  }

  lemma ArcFirst(at: nat, n: nat, depth: nat)
    requires at < depth
    ensures Arc(at, n + 1, depth) == [at] + Arc((at + 1) % depth, n, depth)
  {
    RemainderSmall(at, depth);
    ArcSplit(at, 1, n, depth);
    assert Arc(at, 1, depth) == [at];
  }
}
