/** The allocator's state as a value: per-class free lists, and per-class lists of the blocks that the
    user holds. A block is an offset into the region and a class size. */
module Heap {
  import opened MathUtils
  import opened SizeClass

  datatype Option<T> = None | Some(value: T)

  datatype Block = Block(off: nat, size: nat)

  datatype Heap = Heap(free: seq<seq<Block>>, live: seq<seq<Block>>)

  predicate Disjoint(a: Block, b: Block) {
    a.off + a.size <= b.off || b.off + b.size <= a.off
  }

  /** The block has its class's size, is aligned to it, and lies in the region. */
  predicate Fits(b: Block, c: nat, region: nat) {
    b.size == ClassMaxSize(c) && b.off % ClassMaxSize(c) == 0 && b.off + b.size <= region
  }

  ghost predicate RowsFit(rows: seq<seq<Block>>, region: nat) {
    forall c, i :: 0 <= c < |rows| && 0 <= i < |rows[c]| ==> Fits(rows[c][i], c, region)
  }

  ghost predicate ClearOf(rows: seq<seq<Block>>, b: Block) {
    forall c, i :: 0 <= c < |rows| && 0 <= i < |rows[c]| ==> Disjoint(rows[c][i], b)
  }

  /** No two positions hold overlapping blocks. */
  ghost predicate Apart(rows: seq<seq<Block>>) {
    forall c, i, d, j ::
      (0 <= c < |rows| && 0 <= i < |rows[c]| && 0 <= d < |rows| && 0 <= j < |rows[d]| && (c != d || i != j))
      ==> Disjoint(rows[c][i], rows[d][j])
  }

  ghost predicate WellFormed(h: Heap, region: nat) {
    |h.free| == |h.live| && RowsFit(h.free, region) && RowsFit(h.live, region) && Apart(h.free + h.live)
  }

  /** Total bytes of the blocks in a table of classes. */
  function Bytes(rows: seq<seq<Block>>): nat {
    if rows == [] then 0 else
      var n := |rows| - 1;
      Bytes(rows[..n]) + |rows[n]| * ClassMaxSize(n)
  }

  lemma {:induction false} BytesUpdate(rows: seq<seq<Block>>, c: nat, row: seq<Block>)
    requires c < |rows|
    ensures Bytes(rows[c := row]) + |rows[c]| * ClassMaxSize(c) == Bytes(rows) + |row| * ClassMaxSize(c)
    decreases |rows|
  {
    var n := |rows| - 1;
    if c < n {
      BytesUpdate(rows[..n], c, row);
      assert rows[c := row][..n] == rows[..n][c := row];
    } else {
      assert rows[c := row][..n] == rows[..n];
    }
  }

  function Without(row: seq<Block>, i: nat): seq<Block>
    requires i < |row|
  {
    row[..i] + row[i + 1..]
  }

  lemma RemoveKeepsApart(rows: seq<seq<Block>>, c: nat, i: nat)
    requires Apart(rows) && c < |rows| && i < |rows[c]|
    ensures Apart(rows[c := Without(rows[c], i)]) && ClearOf(rows[c := Without(rows[c], i)], rows[c][i])
  {
    var less := rows[c := Without(rows[c], i)];
    forall d, j | 0 <= d < |less| && 0 <= j < |less[d]|
      ensures less[d][j] == rows[d][if d == c && j >= i then j + 1 else j]
    {
    }
  }

  lemma AppendKeepsApart(rows: seq<seq<Block>>, c: nat, b: Block)
    requires Apart(rows) && c < |rows| && ClearOf(rows, b)
    ensures Apart(rows[c := rows[c] + [b]])
  {
  }

  lemma AppendKeepsClear(rows: seq<seq<Block>>, c: nat, b: Block, x: Block)
    requires c < |rows| && ClearOf(rows, x) && Disjoint(b, x)
    ensures ClearOf(rows[c := rows[c] + [b]], x)
  {
  }

  function Last(row: seq<Block>): Block
    requires row != []
  {
    row[|row| - 1]
  }

  function Front(row: seq<Block>): seq<Block>
    requires row != []
  {
    row[..|row| - 1]
  }

  function LeftHalf(b: Block): Block { Block(b.off, b.size / 2) }

  function RightHalf(b: Block): Block { Block(b.off + b.size / 2, b.size / 2) }

  /** Split the last block of class c into two of the class below. */
  function SplitRow(free: seq<seq<Block>>, c: nat): (r: seq<seq<Block>>)
    requires 1 <= c < |free| && free[c] != []
    ensures |r| == |free|
  {
    var b := Last(free[c]);
    free[c := Front(free[c])][c - 1 := free[c - 1] + [LeftHalf(b), RightHalf(b)]]
  }

  /** Split down from class n to class c. Every class on the way is empty when its turn comes. */
  function SplitDown(free: seq<seq<Block>>, n: nat, c: nat): (r: seq<seq<Block>>)
    requires c <= n < |free| && free[n] != []
    requires forall d :: c <= d < n ==> free[d] == []
    ensures |r| == |free| && r[c] != []
    decreases n
  {
    if n == c then free else SplitDown(SplitRow(free, n), n - 1, c)
  }

  /** The first class from c on with a free block. */
  function FirstNonEmpty(free: seq<seq<Block>>, c: nat): (n: nat)
    requires c <= |free|
    ensures c <= n <= |free| && (n < |free| ==> free[n] != [])
    ensures forall d :: c <= d < n ==> free[d] == []
    decreases |free| - c
  {
    if c == |free| || free[c] != [] then c else FirstNonEmpty(free, c + 1)
  }

  /** `alloc` for a request of class c. */
  function AfterAlloc(h: Heap, c: nat): (Option<Block>, Heap)
    requires c < |h.free| && |h.live| == |h.free|
  {
    var n := FirstNonEmpty(h.free, c);
    if n == |h.free| then (None, h) else
      var free := SplitDown(h.free, n, c);
      var b := Last(free[c]);
      (Some(b), Heap(free[c := Front(free[c])], h.live[c := h.live[c] + [b]]))
  }

  /** `free_buf` of the i-th block of class c that the user holds. */
  function AfterFree(h: Heap, c: nat, i: nat): Heap
    requires c < |h.free| && |h.live| == |h.free| && i < |h.live[c]|
  {
    Heap(h.free[c := h.free[c] + [h.live[c][i]]], h.live[c := Without(h.live[c], i)])
  }

  lemma HalvesFit(b: Block, c: nat, region: nat)
    requires c >= 1 && Fits(b, c, region)
    ensures Fits(LeftHalf(b), c - 1, region) && Fits(RightHalf(b), c - 1, region)
    ensures Disjoint(LeftHalf(b), RightHalf(b))
    ensures LeftHalf(b).size + RightHalf(b).size == b.size
  {
    var m := ClassMaxSize(c - 1);
    assert ClassMaxSize(c) == 2 * m && m > 0;
    var q := b.off / (2 * m);
    assert b.off == q * (2 * m);
    assert b.off == (2 * q) * m && b.off + m == (2 * q + 1) * m;
    RemainderUnique(b.off, m, 2 * q, 0);
    RemainderUnique(b.off + m, m, 2 * q + 1, 0);
  }

  lemma HalfIsClear(rows: seq<seq<Block>>, b: Block, half: Block)
    requires ClearOf(rows, b) && b.off <= half.off && half.off + half.size <= b.off + b.size
    ensures ClearOf(rows, half)
  {
  }

  lemma SplitKeepsApart(rows: seq<seq<Block>>, c: nat)
    requires Apart(rows) && 1 <= c < |rows| && rows[c] != []
    requires var b := Last(rows[c]);
             Disjoint(LeftHalf(b), RightHalf(b)) && LeftHalf(b).size + RightHalf(b).size == b.size
    ensures Apart(SplitRow(rows, c))
  {
    var b := Last(rows[c]);
    var one := rows[c := Front(rows[c])];
    assert Without(rows[c], |rows[c]| - 1) == Front(rows[c]);
    RemoveKeepsApart(rows, c, |rows[c]| - 1);
    HalfIsClear(one, b, LeftHalf(b));
    HalfIsClear(one, b, RightHalf(b));
    AppendTwoKeepsApart(one, c - 1, LeftHalf(b), RightHalf(b));
  }

  lemma AppendTwoKeepsApart(rows: seq<seq<Block>>, c: nat, x: Block, y: Block)
    requires Apart(rows) && c < |rows| && ClearOf(rows, x) && ClearOf(rows, y) && Disjoint(x, y)
    ensures Apart(rows[c := rows[c] + [x, y]])
  {
    var two := rows[c := rows[c] + [x]];
    AppendKeepsApart(rows, c, x);
    AppendKeepsClear(rows, c, x, y);
    AppendKeepsApart(two, c, y);
    assert two[c] + [y] == rows[c] + [x, y];
    assert two[c := two[c] + [y]] == rows[c := rows[c] + [x, y]];
  }

  lemma SplitKeepsFit(free: seq<seq<Block>>, region: nat, c: nat)
    requires RowsFit(free, region) && 1 <= c < |free| && free[c] != []
    ensures RowsFit(SplitRow(free, c), region)
  {
    HalvesFit(Last(free[c]), c, region);
  }

  lemma SplitKeepsWellFormed(h: Heap, region: nat, c: nat)
    requires WellFormed(h, region) && 1 <= c < |h.free| && h.free[c] != []
    ensures WellFormed(h.(free := SplitRow(h.free, c)), region)
  {
    SplitKeepsFit(h.free, region, c);
    HalvesFit(Last(h.free[c]), c, region);
    SplitKeepsApart(h.free + h.live, c);
    assert SplitRow(h.free + h.live, c) == SplitRow(h.free, c) + h.live;
  }

  lemma Distribute(n: nat, k: nat, m: nat)
    requires k <= n
    ensures n * m == (n - k) * m + k * m
  {
  }

  lemma TakeBytes(rows: seq<seq<Block>>, c: nat)
    requires c < |rows| && rows[c] != []
    ensures Bytes(rows[c := Front(rows[c])]) + ClassMaxSize(c) == Bytes(rows)
  {
    BytesUpdate(rows, c, Front(rows[c]));
    Distribute(|rows[c]|, 1, ClassMaxSize(c));
  }

  lemma AppendBytes(rows: seq<seq<Block>>, c: nat, b: Block)
    requires c < |rows|
    ensures Bytes(rows[c := rows[c] + [b]]) == Bytes(rows) + ClassMaxSize(c)
  {
    BytesUpdate(rows, c, rows[c] + [b]);
    Distribute(|rows[c]| + 1, 1, ClassMaxSize(c));
  }

  lemma WithoutBytes(rows: seq<seq<Block>>, c: nat, i: nat)
    requires c < |rows| && i < |rows[c]|
    ensures Bytes(rows[c := Without(rows[c], i)]) + ClassMaxSize(c) == Bytes(rows)
  {
    BytesUpdate(rows, c, Without(rows[c], i));
    Distribute(|rows[c]|, 1, ClassMaxSize(c));
  }

  lemma AppendTwoBytes(rows: seq<seq<Block>>, c: nat, x: Block, y: Block)
    requires c < |rows|
    ensures Bytes(rows[c := rows[c] + [x, y]]) == Bytes(rows) + 2 * ClassMaxSize(c)
  {
    BytesUpdate(rows, c, rows[c] + [x, y]);
    Distribute(|rows[c]| + 2, 2, ClassMaxSize(c));
  }

  lemma HalfClass(c: nat)
    requires c >= 1
    ensures ClassMaxSize(c) == 2 * ClassMaxSize(c - 1)
  {
  }

  lemma SplitKeepsBytes(free: seq<seq<Block>>, c: nat)
    requires 1 <= c < |free| && free[c] != []
    ensures Bytes(SplitRow(free, c)) == Bytes(free)
  {
    var b, one := Last(free[c]), free[c := Front(free[c])];
    SplitRowIs(free, c);
    TakeThenAppend(free, one, SplitRow(free, c), c, LeftHalf(b), RightHalf(b));
  }

  lemma TakeThenAppend(rows: seq<seq<Block>>, one: seq<seq<Block>>, two: seq<seq<Block>>, c: nat, x: Block, y: Block)
    requires 1 <= c < |rows| && rows[c] != [] && one == rows[c := Front(rows[c])]
    requires two == one[c - 1 := one[c - 1] + [x, y]]
    ensures Bytes(two) == Bytes(rows)
  {
    TakeBytes(rows, c);
    AppendTwoBytes(one, c - 1, x, y);
    HalfClass(c);
  }

  lemma SplitRowIs(free: seq<seq<Block>>, c: nat)
    requires 1 <= c < |free| && free[c] != []
    ensures var b, one := Last(free[c]), free[c := Front(free[c])];
            SplitRow(free, c) == one[c - 1 := one[c - 1] + [LeftHalf(b), RightHalf(b)]]
  {
  }

  lemma {:induction false} SplitDownKeeps(h: Heap, region: nat, n: nat, c: nat)
    requires WellFormed(h, region) && c <= n < |h.free| && h.free[n] != []
    requires forall d :: c <= d < n ==> h.free[d] == []
    ensures WellFormed(h.(free := SplitDown(h.free, n, c)), region)
    ensures Bytes(SplitDown(h.free, n, c)) == Bytes(h.free)
    decreases n
  {
    if n > c {
      SplitKeepsWellFormed(h, region, n);
      SplitKeepsBytes(h.free, n);
      SplitDownKeeps(h.(free := SplitRow(h.free, n)), region, n - 1, c);
    }
  }

  /** A block moves from one end of the table to another: nothing overlaps that did not before. */
  lemma MoveKeepsApart(rows: seq<seq<Block>>, c: nat, i: nat, d: nat)
    requires Apart(rows) && c < |rows| && i < |rows[c]| && d < |rows| && c != d
    ensures Apart(rows[c := Without(rows[c], i)][d := rows[d] + [rows[c][i]]])
  {
    RemoveKeepsApart(rows, c, i);
    AppendKeepsApart(rows[c := Without(rows[c], i)], d, rows[c][i]);
  }

  lemma TakeKeepsWellFormed(h: Heap, region: nat, c: nat)
    requires WellFormed(h, region) && c < |h.free| && h.free[c] != []
    ensures WellFormed(Heap(h.free[c := Front(h.free[c])], h.live[c := h.live[c] + [Last(h.free[c])]]), region)
  {
    var k, rows, b := |h.free|, h.free + h.live, Last(h.free[c]);
    MoveKeepsApart(rows, c, |rows[c]| - 1, k + c);
    assert Without(rows[c], |rows[c]| - 1) == Front(h.free[c]);
    assert rows[c := Front(h.free[c])][k + c := rows[k + c] + [b]]
        == h.free[c := Front(h.free[c])] + h.live[c := h.live[c] + [b]];
  }

  lemma FreeKeepsWellFormed(h: Heap, region: nat, c: nat, i: nat)
    requires WellFormed(h, region) && c < |h.free| && i < |h.live[c]|
    ensures WellFormed(AfterFree(h, c, i), region)
  {
    var k, rows, b := |h.free|, h.free + h.live, h.live[c][i];
    MoveKeepsApart(rows, k + c, i, c);
    assert rows[k + c := Without(rows[k + c], i)][c := rows[c] + [b]]
        == h.free[c := h.free[c] + [b]] + h.live[c := Without(h.live[c], i)];
  }
}
