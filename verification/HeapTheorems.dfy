/** What every sequence of allocations and releases keeps, and when an allocation fails. */
module HeapTheorems {
  import opened MathUtils
  import opened SizeClass
  import opened Heap

  lemma AllocKeepsWellFormed(h: Heap, region: nat, c: nat)
    requires WellFormed(h, region) && c < |h.free|
    ensures WellFormed(AfterAlloc(h, c).1, region)
  {
    var n := FirstNonEmpty(h.free, c);
    if n < |h.free| {
      SplitDownKeeps(h, region, n, c);
      TakeKeepsWellFormed(h.(free := SplitDown(h.free, n, c)), region, c);
    }
  }

  /** The bytes of the block go from the free side to the user's side; nothing is lost to splitting. */
  lemma AllocKeepsBytes(h: Heap, region: nat, c: nat)
    requires WellFormed(h, region) && c < |h.free|
    ensures var (r, g) := AfterAlloc(h, c);
            var taken := if r.None? then 0 else r.value.size;
            Bytes(g.live) == Bytes(h.live) + taken && Bytes(g.free) + taken == Bytes(h.free)
  {
    var n := FirstNonEmpty(h.free, c);
    if n < |h.free| {
      SplitDownKeeps(h, region, n, c);
      var free := SplitDown(h.free, n, c);
      var b := Last(free[c]);
      assert Fits(b, c, region) by { assert WellFormed(h.(free := free), region); }
      TakeBytes(free, c);
      AppendBytes(h.live, c, b);
    }
  }

  lemma FreeKeepsBytes(h: Heap, region: nat, c: nat, i: nat)
    requires WellFormed(h, region) && c < |h.free| && i < |h.live[c]|
    ensures Bytes(AfterFree(h, c, i).live) + ClassMaxSize(c) == Bytes(h.live)
    ensures Bytes(AfterFree(h, c, i).free) == Bytes(h.free) + ClassMaxSize(c)
  {
    WithoutBytes(h.live, c, i);
    AppendBytes(h.free, c, h.live[c][i]);
  }

  /** The answer is a block of exactly the request's class, new to the user; there is none exactly when no
      class that could serve it has a free block. */
  lemma AllocIsTightestAndComplete(h: Heap, region: nat, size: nat)
    requires WellFormed(h, region) && 1 <= size && |h.free| >= 1 && size <= ClassMaxSize(|h.free| - 1)
    ensures GetClass(size) < |h.free|
    ensures var c := GetClass(size);
            var (r, g) := AfterAlloc(h, c);
            && (r.None? <==> forall d :: c <= d < |h.free| ==> h.free[d] == [])
            && (r.None? ==> g == h)
            && (r.Some? ==>
                  && size <= r.value.size == ClassMaxSize(c) && (c > 0 ==> ClassMaxSize(c - 1) < size)
                  && r.value.off % r.value.size == 0 && r.value.off + r.value.size <= region
                  && ClearOf(h.live, r.value)
                  && g.live == h.live[c := h.live[c] + [r.value]])
  {
    ClassInRange(size, |h.free|);
    var c := GetClass(size);
    GetClassIsTightest(size, c);
    var (r, g) := AfterAlloc(h, c);
    AllocKeepsWellFormed(h, region, c);
    if r.Some? {
      var rows, j := g.free + g.live, |h.live[c]|;
      assert rows[|g.free| + c] == g.live[c] && g.live[c][j] == r.value;
      assert Fits(g.live[c][j], c, region);
      forall d, i | 0 <= d < |h.live| && 0 <= i < |h.live[d]| ensures Disjoint(h.live[d][i], r.value) {
        assert rows[|g.free| + d] == g.live[d] && g.live[d][i] == h.live[d][i];
      }
    }
  }

  // What a call does to every list

  /** The pieces of the size of class d in front of and behind the last cut towards an address. */
  function Before2(end: nat, d: nat): Block
    requires end >= 2 * ClassMaxSize(d)
  {
    Block(end - 2 * ClassMaxSize(d), ClassMaxSize(d))
  }

  function Before1(end: nat, d: nat): Block
    requires end >= ClassMaxSize(d)
  {
    Block(end - ClassMaxSize(d), ClassMaxSize(d))
  }

  lemma {:induction false} SmallerFits(c: nat, n: nat)
    requires c < n
    ensures 2 * ClassMaxSize(c) <= ClassMaxSize(n)
  {
    Pow2Monotone(c + 1, n);
  }

  /** Splitting down takes the last block of class n apart from its end: each class on the way keeps the left half of its
      cut, class c has both halves, and no other class changes. */
  lemma {:induction false} SplitDownIs(free: seq<seq<Block>>, n: nat, c: nat, end: nat)
    requires c < n < |free| && free[n] != [] && forall d :: c <= d < n ==> free[d] == []
    requires Last(free[n]).size == ClassMaxSize(n) && end == Last(free[n]).off + Last(free[n]).size
    ensures forall d :: c <= d < n ==> 2 * ClassMaxSize(d) <= end
    ensures var r := SplitDown(free, n, c);
            && r[n] == Front(free[n]) && r[c] == [Before2(end, c), Before1(end, c)]
            && (forall d :: c < d < n ==> r[d] == [Before2(end, d)])
            && forall d :: 0 <= d < |free| && (d < c || d > n) ==> r[d] == free[d]
    decreases n
  {
    forall d | c <= d < n ensures 2 * ClassMaxSize(d) <= end { SmallerFits(d, n); }
    var one := SplitRow(free, n);
    HalfClass(n);
    OneSplit(free, n, end);
    if n - 1 > c { SplitDownIs(one, n - 1, c, end); }
  }

  lemma OneSplit(free: seq<seq<Block>>, n: nat, end: nat)
    requires 1 <= n < |free| && free[n] != [] && free[n - 1] == []
    requires Last(free[n]).size == ClassMaxSize(n) && end == Last(free[n]).off + Last(free[n]).size
    ensures 2 * ClassMaxSize(n - 1) <= end
    ensures SplitRow(free, n) == free[n := Front(free[n])][n - 1 := [Before2(end, n - 1), Before1(end, n - 1)]]
  {
    HalfClass(n);
    assert free[n - 1] + [LeftHalf(Last(free[n])), RightHalf(Last(free[n]))] == [Before2(end, n - 1), Before1(end, n - 1)];
  }

  /** One block of this size, which ends as far before the address as it is long. */
  predicate OnePiece(row: seq<Block>, size: nat, end: nat) {
    |row| == 1 && row[0].size == size && row[0].off + 2 * size == end
  }

  /** An allocation of class c, when n is the first class from c on with a free block. The answer is that class's last
      block, or the end of it; what was cut off in front is free, one piece in each class between; the user's list of
      class c gains the answer; every other block stays where it was. */
  lemma AllocEffect(h: Heap, region: nat, c: nat, n: nat)
    requires WellFormed(h, region) && c <= n < |h.free| && h.free[n] != [] && forall d :: c <= d < n ==> h.free[d] == []
    ensures var (r, g) := AfterAlloc(h, c);
            var last := h.free[n][|h.free[n]| - 1];
            && r.Some? && r.value.size == ClassMaxSize(c) && r.value.off + r.value.size == last.off + last.size
            && |g.free| == |g.live| == |h.free|
            && g.free[n] == h.free[n][..|h.free[n]| - 1]
            && (forall d :: c <= d < n ==> OnePiece(g.free[d], ClassMaxSize(d), last.off + last.size))
            && (forall d :: 0 <= d < |h.free| && (d < c || d > n) ==> g.free[d] == h.free[d])
            && g.live[c] == h.live[c] + [r.value] && forall d :: 0 <= d < |h.live| && d != c ==> g.live[d] == h.live[d]
  {
    FirstIs(h.free, c, n);
    var last := Last(h.free[n]);
    assert Fits(last, n, region);
    if n > c { SplitDownIs(h.free, n, c, last.off + last.size); }
  }

  lemma {:induction false} FirstIs(free: seq<seq<Block>>, c: nat, n: nat)
    requires c <= n < |free| && free[n] != [] && forall d :: c <= d < n ==> free[d] == []
    ensures FirstNonEmpty(free, c) == n
    decreases n - c
  {
    if c < n { FirstIs(free, c + 1, n); }
  }

  /** A release moves one block from the user's list to the free list of its class, and nothing else. */
  lemma FreeEffect(h: Heap, c: nat, i: nat)
    requires c < |h.free| == |h.live| && i < |h.live[c]|
    ensures var g, b := AfterFree(h, c, i), h.live[c][i];
            && |g.free| == |g.live| == |h.free| && g.free[c] == h.free[c] + [b]
            && multiset(g.live[c]) + multiset{b} == multiset(h.live[c])
            && forall d :: 0 <= d < |h.free| && d != c ==> g.free[d] == h.free[d] && g.live[d] == h.live[d]
  {
    var row := h.live[c];
    assert row == row[..i] + [row[i]] + row[i + 1..];
    assert multiset(row) == multiset(row[..i]) + multiset{row[i]} + multiset(row[i + 1..]);
  }

  // Classes from c up are all that a request of class c can use

  predicate EmptyFrom(rows: seq<seq<Block>>, c: nat) {
    forall d :: c <= d < |rows| ==> rows[d] == []
  }

  function BytesFrom(rows: seq<seq<Block>>, c: nat): int
    requires c <= |rows|
  {
    Bytes(rows) - Bytes(rows[..c])
  }

  lemma {:induction false} BytesFromZero(rows: seq<seq<Block>>, c: nat)
    requires c <= |rows|
    ensures BytesFrom(rows, c) >= 0
    ensures BytesFrom(rows, c) == 0 <==> EmptyFrom(rows, c)
  {
    if c == |rows| {
      assert rows[..c] == rows;
    } else {
      var n := |rows| - 1;
      BytesFromZero(rows[..n], c);
      assert rows[..n][..c] == rows[..c];
      ClassOfClassSize(n);
      if rows[n] != [] { MulMonotone(1, |rows[n]|, ClassMaxSize(n)); }
    }
  }

  lemma {:induction false} SplitDownKeepsLower(free: seq<seq<Block>>, n: nat, c: nat)
    requires c <= n < |free| && free[n] != []
    requires forall d :: c <= d < n ==> free[d] == []
    ensures SplitDown(free, n, c)[..c] == free[..c]
    decreases n
  {
    if n > c { SplitDownKeepsLower(SplitRow(free, n), n - 1, c); }
  }

  /** An allocation of class c uses up exactly its own size out of the bytes in classes c and up, and fails
      exactly when there are none. */
  lemma AllocUsesBytesFrom(h: Heap, region: nat, c: nat)
    requires WellFormed(h, region) && c < |h.free|
    ensures var (r, g) := AfterAlloc(h, c);
            && BytesFrom(h.free, c) >= 0 && (r.None? <==> BytesFrom(h.free, c) == 0)
            && g.free[..c] == h.free[..c]
            && (r.Some? ==> Fits(r.value, c, region) && BytesFrom(g.free, c) + ClassMaxSize(c) == BytesFrom(h.free, c))
  {
    BytesFromZero(h.free, c);
    var n := FirstNonEmpty(h.free, c);
    if n < |h.free| {
      SplitDownKeepsLower(h.free, n, c);
      SplitDownKeeps(h, region, n, c);
      var free := SplitDown(h.free, n, c);
      TakeBytes(free, c);
      assert Fits(Last(free[c]), c, region) by { assert WellFormed(h.(free := free), region); }
      assert free[c := Front(free[c])][..c] == free[..c];
    }
  }

  /** One call on the allocator. A released block is named by its place among the blocks the user holds. */
  datatype Op = OpAlloc(size: nat) | OpFree(sizeClass: nat, index: nat)

  predicate CanDo(h: Heap, op: Op) {
    match op
    case OpAlloc(size) => |h.free| >= 1 && 1 <= size <= ClassMaxSize(|h.free| - 1)
    case OpFree(c, i) => c < |h.live| && i < |h.live[c]|
  }

  function Do(h: Heap, op: Op): (g: Heap)
    requires |h.live| == |h.free| >= 1 && CanDo(h, op)
    ensures |g.live| == |g.free| == |h.free|
  {
    match op
    case OpAlloc(size) => ClassInRange(size, |h.free|); AfterAlloc(h, GetClass(size)).1
    case OpFree(c, i) => AfterFree(h, c, i)
  }

  /** A run, latest call last. */
  predicate CanRun(h: Heap, ops: seq<Op>)
    requires |h.live| == |h.free| >= 1
    decreases |ops|, 0
  {
    ops == [] || (CanRun(h, ops[..|ops| - 1]) && CanDo(Run(h, ops[..|ops| - 1]), ops[|ops| - 1]))
  }

  function Run(h: Heap, ops: seq<Op>): (g: Heap)
    requires |h.live| == |h.free| >= 1 && CanRun(h, ops)
    ensures |g.live| == |g.free| == |h.free|
    decreases |ops|, 1
  {
    if ops == [] then h else Do(Run(h, ops[..|ops| - 1]), ops[|ops| - 1])
  }

  lemma DoKeeps(h: Heap, region: nat, op: Op)
    requires WellFormed(h, region) && |h.free| >= 1 && CanDo(h, op)
    ensures WellFormed(Do(h, op), region)
    ensures Bytes(Do(h, op).free) + Bytes(Do(h, op).live) == Bytes(h.free) + Bytes(h.live)
  {
    match op
    case OpAlloc(size) =>
      ClassInRange(size, |h.free|);
      AllocKeepsWellFormed(h, region, GetClass(size));
      AllocKeepsBytes(h, region, GetClass(size));
    case OpFree(c, i) =>
      FreeKeepsWellFormed(h, region, c, i);
      FreeKeepsBytes(h, region, c, i);
  }

  /** Over every sequence of calls: free and held blocks stay disjoint, aligned, correctly sized and inside
      the region, and their bytes add up to what was there at the start. */
  lemma {:induction false} RunKeepsWellFormed(h: Heap, region: nat, ops: seq<Op>)
    requires WellFormed(h, region) && |h.free| >= 1 && CanRun(h, ops)
    ensures WellFormed(Run(h, ops), region)
    ensures Bytes(Run(h, ops).free) + Bytes(Run(h, ops).live) == Bytes(h.free) + Bytes(h.live)
  {
    if ops != [] {
      var past := ops[..|ops| - 1];
      RunKeepsWellFormed(h, region, past);
      DoKeeps(Run(h, past), region, ops[|ops| - 1]);
    }
  }

  // Streams of requests that all fall in one class

  predicate EmptyBelow(rows: seq<seq<Block>>, c: nat)
    requires c < |rows|
  {
    forall d :: 0 <= d < c ==> rows[d] == []
  }

  /** Every call requests or returns a block of class c; the blocks of other classes stay with their users. */
  predicate OfClass(ops: seq<Op>, c: nat) {
    forall k :: 0 <= k < |ops| ==>
      match ops[k]
      case OpAlloc(size) => size >= 1 ==> GetClass(size) == c
      case OpFree(d, _) => d == c
  }

  lemma {:induction false} NoBytesIffEmpty(rows: seq<seq<Block>>)
    ensures Bytes(rows) == 0 <==> forall d :: 0 <= d < |rows| ==> rows[d] == []
  {
    if rows != [] {
      var n := |rows| - 1;
      NoBytesIffEmpty(rows[..n]);
      ClassOfClassSize(n);
      if rows[n] != [] { MulMonotone(1, |rows[n]|, ClassMaxSize(n)); }
      assert forall d :: 0 <= d < n ==> rows[..n][d] == rows[d];
      if rows[n] == [] && Bytes(rows[..n]) == 0 {
        assert forall d :: 0 <= d < |rows| ==> rows[d] == [];
      }
    }
  }

  lemma {:induction false} SplitDownEmptyBelow(free: seq<seq<Block>>, n: nat, c: nat)
    requires c <= n < |free| && free[n] != [] && EmptyBelow(free, c)
    requires forall d :: c <= d < n ==> free[d] == []
    ensures EmptyBelow(SplitDown(free, n, c), c)
    decreases n
  {
    if n > c { SplitDownEmptyBelow(SplitRow(free, n), n - 1, c); }
  }

  lemma {:induction false} OneClassRun(h: Heap, c: nat, ops: seq<Op>)
    requires |h.live| == |h.free| && c < |h.free| && CanRun(h, ops)
    requires OfClass(ops, c) && EmptyBelow(h.free, c)
    ensures EmptyBelow(Run(h, ops).free, c)
    ensures forall d :: 0 <= d < |h.live| && d != c ==> Run(h, ops).live[d] == h.live[d]
  {
    if ops != [] {
      var past := ops[..|ops| - 1];
      OneClassRun(h, c, past);
      var g := Run(h, past);
      var op := ops[|ops| - 1];
      if op.OpAlloc? {
        var n := FirstNonEmpty(g.free, c);
        if n < |g.free| { SplitDownEmptyBelow(g.free, n, c); }
      }
    }
  }

  /** While requests and returns are of one class, an allocation fails only when no free byte is left: splitting never
      strands memory that the stream could not use. Blocks of other classes may be held throughout, as the receive
      ring's memory is while the buffers are requested. */
  lemma OneClassFailsOnlyWhenFull(h: Heap, c: nat, ops: seq<Op>, size: nat)
    requires |h.live| == |h.free| && c < |h.free| && CanRun(h, ops)
    requires OfClass(ops, c) && EmptyBelow(h.free, c)
    requires size >= 1 && GetClass(size) == c
    ensures AfterAlloc(Run(h, ops), c).0.None? <==> Bytes(Run(h, ops).free) == 0
  {
    OneClassRun(h, c, ops);
    NoBytesIffEmpty(Run(h, ops).free);
    var g := Run(h, ops);
    if AfterAlloc(g, c).0.None? {
      assert forall d :: 0 <= d < |g.free| ==> g.free[d] == [];
    }
  }

  /** With requests of two classes it is false: two 64-byte pieces of a 128-byte region, both released,
      cannot serve 128 bytes, because blocks are never merged. */
  lemma MixedClassesCanFail()
    ensures var h := Heap([[], [Block(0, 128)]], [[], []]);
            var ops := [OpAlloc(64), OpFree(0, 0)];
            WellFormed(h, 128) && CanRun(h, ops) && Bytes(Run(h, ops).free) == 128 && AfterAlloc(Run(h, ops), 1).0.None?
  {
    var h := Heap([[], [Block(0, 128)]], [[], []]);
    WholeBlockIsWellFormed(h);
    AllocFromWholeBlock(h);
    var z := Heap([[Block(0, 64), Block(64, 64)], []], [[], []]);
    RunOfTwo(h, OpAlloc(64), OpFree(0, 0));
    ReleaseThePiece(Do(h, OpAlloc(64)));
    assert EmptyFrom(z.free, 1);
    BytesOfPair(z.free);
  }

  lemma WholeBlockIsWellFormed(h: Heap)
    requires h == Heap([[], [Block(0, 128)]], [[], []])
    ensures WellFormed(h, 128)
  {
    assert Fits(Block(0, 128), 1, 128) by { assert ClassMaxSize(1) == 128; }
    assert h.free + h.live == [[], [Block(0, 128)], [], []];
  }

  lemma ReleaseThePiece(h: Heap)
    requires h == Heap([[Block(0, 64)], []], [[Block(64, 64)], []])
    ensures CanDo(h, OpFree(0, 0)) && Do(h, OpFree(0, 0)).free == [[Block(0, 64), Block(64, 64)], []]
  {
    assert h.free[0] + [Block(64, 64)] == [Block(0, 64), Block(64, 64)];
  }

  lemma RunOfTwo(h: Heap, o1: Op, o2: Op)
    requires |h.live| == |h.free| >= 1 && CanDo(h, o1) && CanDo(Do(h, o1), o2)
    ensures CanRun(h, [o1, o2]) && Run(h, [o1, o2]) == Do(Do(h, o1), o2)
  {
    var ops := [o1, o2];
    assert ops[..1] == [o1] && [o1][..0] == [];
    assert CanRun(h, []) && Run(h, []) == h;
    assert CanRun(h, [o1]) && Run(h, [o1]) == Do(h, o1);
  }

  lemma AllocFromWholeBlock(h: Heap)
    requires h == Heap([[], [Block(0, 128)]], [[], []])
    ensures CanDo(h, OpAlloc(64)) && Do(h, OpAlloc(64)) == Heap([[Block(0, 64)], []], [[Block(64, 64)], []])
  {
    assert ClassMaxSize(1) == 128 && ClassMaxSize(0) == 64;
    GetClassIsTightest(64, 0);
    assert FirstNonEmpty(h.free, 0) == 1;
    assert Last(h.free[1]) == Block(0, 128) && Front(h.free[1]) == [];
    assert LeftHalf(Block(0, 128)) == Block(0, 64) && RightHalf(Block(0, 128)) == Block(64, 64);
    assert h.free[0] + [Block(0, 64), Block(64, 64)] == [Block(0, 64), Block(64, 64)];
    assert SplitRow(h.free, 1) == [[Block(0, 64), Block(64, 64)], []];
    assert SplitDown(SplitRow(h.free, 1), 0, 0) == SplitRow(h.free, 1);
    var row := [Block(0, 64), Block(64, 64)];
    assert Last(row) == Block(64, 64) && Front(row) == [Block(0, 64)];
    assert h.live[0] + [Block(64, 64)] == [Block(64, 64)];
    assert AfterAlloc(h, 0).1 == Heap([row, []][0 := Front(row)], h.live[0 := [Block(64, 64)]]);
  }

  lemma BytesOfPair(rows: seq<seq<Block>>)
    requires |rows| == 2 && |rows[0]| == 2 && rows[1] == []
    ensures Bytes(rows) == 128
  {
    assert ClassMaxSize(0) == 64;
    assert |rows[..1]| == 1 && rows[..1][0] == rows[0] && rows[..1][..0] == [];
    assert Bytes(rows[..1]) == 128;
  }
}
