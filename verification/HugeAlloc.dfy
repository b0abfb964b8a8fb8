/** The hugepage allocator (`src/dispatcher_impl/roce/huge_alloc.h` and `.cc`) as it runs: an array of free
    lists, a byte counter, and the methods that push and pop. */
module HugeAlloc {
  import opened MathUtils
  import opened SizeClass
  import opened Heap
  import opened HeapTheorems

  /** k consecutive pieces of the largest size. */
  function Pieces(base: nat, max: nat, k: nat): (r: seq<Block>)
    ensures |r| == k
  {
    if k == 0 then [] else Pieces(base, max, k - 1) + [Block(base + (k - 1) * max, max)]
  }

  /** `add_raw_buffer`: pieces of the largest class, then the remainder, which the code puts at the same
      base address with the class's index where its size belongs. */
  function AddRaw(free: seq<seq<Block>>, base: nat, size: nat): (r: seq<seq<Block>>)
    requires |free| >= 1 && size >= 1
    ensures |r| == |free|
    decreases size
  {
    var top := |free| - 1;
    var max := ClassMaxSize(top);
    if size >= max then
      var full := free[top := free[top] + Pieces(base, max, size / max)];
      if size % max > 0 then AddRaw(full, base, size % max) else full
    else
      ClassInRange(size, |free|);
      var c := GetClass(size);
      free[c := free[c] + [Block(base, c)]]
  }

  function NoBlocks(n: nat): (r: seq<seq<Block>>)
    ensures |r| == n && forall c :: 0 <= c < n ==> r[c] == []
  {
    seq(n, _ => [])
  }

  lemma {:induction false} PiecesAt(base: nat, max: nat, k: nat, i: nat)
    requires i < k
    ensures Pieces(base, max, k)[i] == Block(base + i * max, max)
  {
    if i < k - 1 { PiecesAt(base, max, k - 1, i); }
  }

  lemma PiecesFit(c: nat, k: nat, i: nat, j: nat)
    requires i < k && j < k
    ensures Fits(Pieces(0, ClassMaxSize(c), k)[i], c, k * ClassMaxSize(c))
    ensures i != j ==> Disjoint(Pieces(0, ClassMaxSize(c), k)[i], Pieces(0, ClassMaxSize(c), k)[j])
  {
    var m := ClassMaxSize(c);
    ClassOfClassSize(c);
    PiecesAt(0, m, k, i);
    PiecesAt(0, m, k, j);
    RemainderUnique(i * m, m, i, 0);
    NextPiece(i, k, m);
    if i < j { NextPiece(i, j, m); }
    if j < i { NextPiece(j, i, m); }
  }

  lemma NextPiece(i: nat, j: nat, m: nat)
    requires i < j
    ensures i * m + m <= j * m
  {
    MulMonotone(i + 1, j, m);
    assert (i + 1) * m == i * m + m;
  }

  lemma WholePiecesAreWellFormed(n: nat, k: nat)
    requires n >= 1
    ensures WellFormed(Heap(NoBlocks(n)[n - 1 := Pieces(0, ClassMaxSize(n - 1), k)], NoBlocks(n)),
                       k * ClassMaxSize(n - 1))
  {
    var row := Pieces(0, ClassMaxSize(n - 1), k);
    var free := NoBlocks(n)[n - 1 := row];
    var rows := free + NoBlocks(n);
    forall i, j | 0 <= i < k && 0 <= j < k
      ensures Fits(row[i], n - 1, k * ClassMaxSize(n - 1)) && (i != j ==> Disjoint(row[i], row[j]))
    {
      PiecesFit(n - 1, k, i, j);
    }
    assert forall c :: 0 <= c < |rows| && c != n - 1 ==> rows[c] == [];
  }

  lemma {:induction false} NoBlocksNoBytes(n: nat)
    ensures Bytes(NoBlocks(n)) == 0
  {
    NoBytesIffEmpty(NoBlocks(n));
  }

  lemma WholePiecesBytes(n: nat, k: nat)
    requires n >= 1
    ensures Bytes(NoBlocks(n)[n - 1 := Pieces(0, ClassMaxSize(n - 1), k)]) == k * ClassMaxSize(n - 1)
  {
    NoBlocksNoBytes(n);
    BytesUpdate(NoBlocks(n), n - 1, Pieces(0, ClassMaxSize(n - 1), k));
  }

  lemma {:induction false} IndexIsNotASize(c: nat)
    ensures c < ClassMaxSize(c)
  {
    if c > 0 { IndexIsNotASize(c - 1); }
  }

  /** The remainder block never fits its class. */
  lemma RemainderMisfits(free: seq<seq<Block>>, base: nat, size: nat, region: nat)
    requires |free| >= 1 && 1 <= size < ClassMaxSize(|free| - 1)
    ensures !RowsFit(AddRaw(free, base, size), region)
  {
    ClassInRange(size, |free|);
    var c := GetClass(size);
    var r := AddRaw(free, base, size);
    IndexIsNotASize(c);
    assert r[c][|free[c]|] == Block(base, c);
  }

  lemma AddSmallest(free: seq<seq<Block>>, base: nat, rest: nat, c: nat)
    requires |free| >= 1 && 1 <= rest < ClassMaxSize(|free| - 1) && c < |free| && IsTightest(c, rest)
    ensures AddRaw(free, base, rest) == free[c := free[c] + [Block(base, c)]]
  {
    GetClassIsTightest(rest, c);
  }

  lemma AddLargest(free: seq<seq<Block>>, base: nat, size: nat, k: nat, rest: nat)
    requires |free| >= 1 && size >= ClassMaxSize(|free| - 1)
    requires k == size / ClassMaxSize(|free| - 1) && rest == size % ClassMaxSize(|free| - 1)
    ensures var full := free[|free| - 1 := free[|free| - 1] + Pieces(base, ClassMaxSize(|free| - 1), k)];
            AddRaw(free, base, size) == if rest == 0 then full else AddRaw(full, base, rest)
  {
  }

  /** What a raw buffer of k largest pieces and a remainder adds: the pieces side by side, and for the remainder one
      block, at the same base address, whose size is given as the index of its class. */
  lemma AddRawEffect(free: seq<seq<Block>>, base: nat, size: nat, max: nat, k: nat, rest: nat, c: nat)
    requires |free| >= 1 && max == ClassMaxSize(|free| - 1) && rest < max && size == k * max + rest >= 1
    requires if rest == 0 then c == |free| - 1 else c < |free| && IsTightest(c, rest)
    ensures var full := free[|free| - 1 := free[|free| - 1] + Pieces(base, max, k)];
            AddRaw(free, base, size) == if rest == 0 then full else full[c := full[c] + [Block(base, c)]]
  {
    var full := free[|free| - 1 := free[|free| - 1] + Pieces(base, max, k)];
    RemainderUnique(size, max, k, rest);
    if k == 0 {
      assert free[|free| - 1] + Pieces(base, max, 0) == free[|free| - 1] && full == free;
      AddSmallest(free, base, rest, c);
    } else {
      MulMonotone(1, k, max);
      AddLargest(free, base, size, k, rest);
      if rest > 0 { AddSmallest(full, base, rest, c); }
    }
  }

  /** The part of the buffer that whole pieces of the largest class cover. */
  lemma AddRawInPieces(n: nat, k: nat)
    requires n >= 1 && k >= 1
    ensures var size := k * ClassMaxSize(n - 1);
            && size >= 1 && size % ClassMaxSize(n - 1) == 0
            && WellFormed(Heap(AddRaw(NoBlocks(n), 0, size), NoBlocks(n)), size)
            && Bytes(AddRaw(NoBlocks(n), 0, size)) == size
  {
    var max := ClassMaxSize(n - 1);
    ClassOfClassSize(n - 1);
    MulMonotone(1, k, max);
    RemainderUnique(k * max, max, k, 0);
    assert NoBlocks(n)[n - 1] + Pieces(0, max, k) == Pieces(0, max, k);
    WholePiecesAreWellFormed(n, k);
    WholePiecesBytes(n, k);
  }

  lemma AddRawWithRemainder(free: seq<seq<Block>>, base: nat, size: nat, region: nat)
    requires |free| >= 1 && size >= 1 && size % ClassMaxSize(|free| - 1) > 0
    ensures !RowsFit(AddRaw(free, base, size), region)
  {
    var max := ClassMaxSize(|free| - 1);
    if size >= max {
      var full := free[|free| - 1 := free[|free| - 1] + Pieces(base, max, size / max)];
      RemainderMisfits(full, base, size % max, region);
    } else {
      RemainderMisfits(free, base, size, region);
    }
  }

  /** Handing a raw buffer to a fresh allocator gives a sound heap exactly when the buffer is a multiple of
      the largest class; then every byte of it is free. */
  lemma AddRawIsSoundIff(n: nat, size: nat)
    requires n >= 1 && size >= 1
    ensures WellFormed(Heap(AddRaw(NoBlocks(n), 0, size), NoBlocks(n)), size) <==> size % ClassMaxSize(n - 1) == 0
    ensures size % ClassMaxSize(n - 1) == 0 ==> Bytes(AddRaw(NoBlocks(n), 0, size)) == size
  {
    var max := ClassMaxSize(n - 1);
    if size % max == 0 {
      assert size == size / max * max && size / max >= 1;
      AddRawInPieces(n, size / max);
    } else {
      AddRawWithRemainder(NoBlocks(n), 0, size, size);
    }
  }

  /** The whole life of the allocator: from one raw buffer that is a multiple of the largest class, through
      every sequence of calls, the free and held blocks are disjoint, aligned, correctly sized and inside the
      buffer, together they account for each of its bytes, and the user's share is a multiple of the
      smallest class. */
  lemma WholeLife(n: nat, size: nat, ops: seq<Op>)
    requires n >= 1 && size >= 1 && size % ClassMaxSize(n - 1) == 0
    requires CanRun(Heap(AddRaw(NoBlocks(n), 0, size), NoBlocks(n)), ops)
    ensures var g := Run(Heap(AddRaw(NoBlocks(n), 0, size), NoBlocks(n)), ops);
            && WellFormed(g, size) && Bytes(g.free) + Bytes(g.live) == size
            && Bytes(g.live) % MIN_CLASS_SIZE == 0
  {
    var h := Heap(AddRaw(NoBlocks(n), 0, size), NoBlocks(n));
    AddRawIsSoundIff(n, size);
    NoBlocksNoBytes(n);
    RunKeepsWellFormed(h, size, ops);
    BytesAreMinimumSized(Run(h, ops).live);
  }

  lemma BytesAreMinimumSized(rows: seq<seq<Block>>)
    ensures Bytes(rows) % MIN_CLASS_SIZE == 0
  {
    var q := BytesInMinimums(rows);
  }

  lemma {:induction false} BytesInMinimums(rows: seq<seq<Block>>) returns (q: nat)
    ensures Bytes(rows) == MIN_CLASS_SIZE * q
  {
    if rows == [] {
      q := 0;
    } else {
      var n := |rows| - 1;
      q := BytesInMinimums(rows[..n]);
      RowInMinimums(|rows[n]|, Pow2(n));
      q := q + |rows[n]| * Pow2(n);
    }
  }

  lemma RowInMinimums(k: nat, p: nat)
    ensures k * (MIN_CLASS_SIZE * p) == MIN_CLASS_SIZE * (k * p)
  {
  }

  /** The first class with a free block, found by any search that passes only empty ones. */
  lemma {:induction false} FirstNonEmptyIs(free: seq<seq<Block>>, c: nat, n: nat)
    requires c <= n <= |free| && (n < |free| ==> free[n] != [])
    requires forall d :: c <= d < n ==> free[d] == []
    ensures FirstNonEmpty(free, c) == n
    decreases n - c
  {
    if c < n { FirstNonEmptyIs(free, c + 1, n); }
  }

  class HugeAlloc {
    const freelist: array<seq<Block>>
    var userAlloc: int // bytes held by the user
    ghost const region: nat
    ghost var live: seq<seq<Block>>

    ghost function State(): Heap
      reads this, freelist
    {
      Heap(freelist[..], live)
    }

    ghost predicate Valid()
      reads this, freelist
    {
      freelist.Length >= 1 && WellFormed(State(), region) && userAlloc == Bytes(live)
    }

    constructor (classes: nat, ghost region: nat)
      requires classes >= 1
      ensures fresh(freelist) && freelist.Length == classes && this.region == region && userAlloc == 0
      ensures State() == Heap(NoBlocks(classes), NoBlocks(classes))
    {
      var a := new seq<Block>[classes](_ => []);
      freelist := a;
      userAlloc := 0;
      this.region := region;
      live := NoBlocks(classes);
      new;
      assert freelist[..] == NoBlocks(classes);
    }

    method AddPieces(top: nat, base: nat, max: nat, pieces: nat)
      requires top < freelist.Length
      modifies freelist
      ensures freelist[..] == old(freelist[..])[top := old(freelist[top]) + Pieces(base, max, pieces)]
    {
      for i := 0 to pieces
        invariant freelist[top] == old(freelist[top]) + Pieces(base, max, i)
        invariant forall d :: 0 <= d < freelist.Length && d != top ==> freelist[d] == old(freelist[d])
      {
        freelist[top] := freelist[top] + [Block(base + i * max, max)];
      }
    }

    method AddRawBuffer(base: nat, size: nat)
      requires freelist.Length >= 1 && size >= 1
      modifies freelist
      ensures freelist[..] == AddRaw(old(freelist[..]), base, size)
      decreases size
    {
      var top := freelist.Length - 1;
      var max := ClassMaxSize(top);
      if size >= max {
        AddPieces(top, base, max, size / max);
        if size % max > 0 {
          AddRawBuffer(base, size % max);
        }
      } else {
        ClassInRange(size, freelist.Length);
        var c := GetClass(size);
        freelist[c] := freelist[c] + [Block(base, c)];
      }
    }

    method Split(c: nat)
      requires 1 <= c < freelist.Length && freelist[c] != [] && freelist[c - 1] == []
      modifies freelist
      ensures freelist[..] == SplitRow(old(freelist[..]), c)
    {
      var b := Last(freelist[c]);
      freelist[c] := Front(freelist[c]);
      freelist[c - 1] := freelist[c - 1] + [Block(b.off, b.size / 2), Block(b.off + b.size / 2, b.size / 2)];
    }

    method AllocFromClass(c: nat) returns (b: Block)
      requires c < freelist.Length == |live| && freelist[c] != []
      modifies this, freelist
      ensures b == Last(old(freelist[c])) && userAlloc == old(userAlloc) + b.size
      ensures State() == Heap(old(freelist[..])[c := Front(old(freelist[c]))], old(live)[c := old(live[c]) + [b]])
    {
      b := Last(freelist[c]);
      freelist[c] := Front(freelist[c]);
      userAlloc := userAlloc + b.size;
      live := live[c := live[c] + [b]];
    }

    /** Split from class n down to class c; the class below is empty each time. */
    method SplitDownTo(n: nat, c: nat)
      requires c <= n < freelist.Length && freelist[n] != [] && forall d :: c <= d < n ==> freelist[d] == []
      modifies freelist
      ensures freelist[..] == SplitDown(old(freelist[..]), n, c)
    {
      var next := n;
      while next != c
        invariant c <= next <= n && freelist[next] != [] && forall d :: c <= d < next ==> freelist[d] == []
        invariant SplitDown(freelist[..], next, c) == SplitDown(old(freelist[..]), n, c)
        decreases next
      {
        Split(next);
        next := next - 1;
      }
    }

    method FindClass(c: nat) returns (n: nat)
      requires c <= freelist.Length
      ensures n == FirstNonEmpty(freelist[..], c)
    {
      n := c;
      while n < freelist.Length && freelist[n] == []
        invariant c <= n <= freelist.Length && forall d :: c <= d < n ==> freelist[d] == []
      {
        n := n + 1;
      }
      FirstNonEmptyIs(freelist[..], c, n);
    }

    method Alloc(size: nat) returns (r: Option<Block>)
      requires Valid() && 1 <= size <= ClassMaxSize(freelist.Length - 1)
      modifies this, freelist
      ensures Valid() && GetClass(size) < freelist.Length
      ensures (r, State()) == AfterAlloc(old(State()), GetClass(size))
    {
      ClassInRange(size, freelist.Length);
      var c := GetClass(size);
      AllocKeepsWellFormed(State(), region, c);
      AllocKeepsBytes(State(), region, c);
      var n := FindClass(c);
      if n == freelist.Length {
        return None;
      }
      SplitDownTo(n, c);
      var b := AllocFromClass(c);
      r := Some(b);
    }

    method FreeBuf(b: Block, ghost c: nat, ghost i: nat)
      requires Valid() && c < |live| && i < |live[c]| && live[c][i] == b
      modifies this, freelist
      ensures Valid() && State() == AfterFree(old(State()), c, i)
    {
      assert Fits(b, c, region);
      ClassOfClassSize(c);
      FreeKeepsWellFormed(State(), region, c, i);
      FreeKeepsBytes(State(), region, c, i);
      var sizeClass := GetClass(b.size);
      assert ClassMaxSize(sizeClass) == b.size;
      freelist[sizeClass] := freelist[sizeClass] + [b];
      userAlloc := userAlloc - b.size;
      live := live[c := Without(live[c], i)];
      assert freelist[..] == old(freelist[..])[c := old(freelist[c]) + [b]];
    }

    /** The user's row c holds what it held before, followed by these blocks. */
    ghost predicate Holds(before: seq<seq<Block>>, c: nat, got: seq<Block>)
      requires c < |before|
      reads this
    {
      live == before[c := before[c] + got]
    }

    /** Give back the first n blocks of the array, in order (the rollback of `roce_mbuf_alloc_bulk`). */
    method Rollback(mbufs: array<Option<Block>>, n: nat, ghost c: nat, ghost before: seq<seq<Block>>, ghost got: seq<Block>)
      requires Valid() && c < |before| && Holds(before, c, got) && n == |got| <= mbufs.Length
      requires forall j :: 0 <= j < n ==> mbufs[j] == Some(got[j])
      modifies this, freelist
      ensures Valid() && live == before
      ensures Bytes(freelist[..]) == Bytes(old(freelist[..])) + n * ClassMaxSize(c)
    {
      for j := 0 to n
        invariant Valid() && Holds(before, c, got[j..])
        invariant Bytes(freelist[..]) == Bytes(old(freelist[..])) + j * ClassMaxSize(c)
      {
        assert live[c][|before[c]|] == got[j];
        FreeKeepsBytes(State(), region, c, |before[c]|);
        Distribute(j + 1, 1, ClassMaxSize(c));
        FreeBuf(mbufs[j].value, c, |before[c]|);
        assert Without(before[c] + got[j..], |before[c]|) == before[c] + got[j + 1..];
      }
      assert before[c] + got[n..] == before[c];
    }

    /** `mbufs[i] = alloc(size)`, with what it does to the byte counts. */
    method AllocInto(mbufs: array<Option<Block>>, i: nat, size: nat, ghost before: seq<seq<Block>>, ghost got: seq<Block>)
      requires Valid() && i < mbufs.Length && 1 <= size <= ClassMaxSize(freelist.Length - 1)
      requires GetClass(size) < |before| && Holds(before, GetClass(size), got)
      modifies this, freelist, mbufs
      ensures Valid() && GetClass(size) < freelist.Length
      ensures mbufs[..] == old(mbufs[..])[i := mbufs[i]]
      ensures mbufs[i].None? ==> State() == old(State()) && BytesFrom(freelist[..], GetClass(size)) == 0
      ensures mbufs[i].Some? ==>
                && Holds(before, GetClass(size), got + [mbufs[i].value])
                && Bytes(freelist[..]) + ClassMaxSize(GetClass(size)) == Bytes(old(freelist[..]))
                && BytesFrom(freelist[..], GetClass(size)) + ClassMaxSize(GetClass(size))
                   == BytesFrom(old(freelist[..]), GetClass(size))
    {
      ClassInRange(size, freelist.Length);
      ghost var c := GetClass(size);
      AllocKeepsBytes(State(), region, c);
      AllocUsesBytesFrom(State(), region, c);
      var r := Alloc(size);
      mbufs[i] := r;
      if r.Some? {
        assert (before[c] + got) + [r.value] == before[c] + (got + [r.value]);
      }
    }

    /** `roce_mbuf_alloc_bulk`: all or nothing. It succeeds exactly when the classes that can serve the
        request still hold enough bytes; a failure restores the user's blocks and every byte count. */
    method AllocBulk(mbufs: array<Option<Block>>, num: nat, size: nat) returns (ok: bool, ghost got: seq<Block>)
      requires Valid() && num <= mbufs.Length && 1 <= size <= ClassMaxSize(freelist.Length - 1)
      modifies this, freelist, mbufs
      ensures Valid() && GetClass(size) < freelist.Length
      ensures ok <==> num * ClassMaxSize(GetClass(size)) <= BytesFrom(old(freelist[..]), GetClass(size))
      ensures ok ==> |got| == num && Holds(old(live), GetClass(size), got)
      ensures ok ==> forall j :: 0 <= j < num ==> mbufs[j] == Some(got[j])
      ensures !ok ==> live == old(live) && userAlloc == old(userAlloc) && Bytes(freelist[..]) == Bytes(old(freelist[..]))
    {
      ClassInRange(size, freelist.Length);
      ghost var c, m := GetClass(size), ClassMaxSize(GetClass(size));
      ghost var before, free := live, freelist[..];
      got := [];
      assert before[c] + got == before[c];
      for i := 0 to num
        invariant Valid() && |got| == i && Holds(before, c, got)
        invariant forall j :: 0 <= j < i ==> mbufs[j] == Some(got[j])
        invariant Bytes(freelist[..]) + i * m == Bytes(free)
        invariant BytesFrom(freelist[..], c) + i * m == BytesFrom(free, c)
      {
        Distribute(i + 1, 1, m);
        AllocInto(mbufs, i, size, before, got);
        if mbufs[i].None? {
          NotEnough(i, num, c);
          Rollback(mbufs, i, c, before, got);
          return false, got;
        }
        got := got + [mbufs[i].value];
      }
      BytesFromZero(freelist[..], c);
      return true, got;
    }
  }

  lemma NotEnough(i: nat, num: nat, c: nat)
    requires i < num
    ensures i * ClassMaxSize(c) < num * ClassMaxSize(c)
  {
    ClassOfClassSize(c);
    NextPiece(i, num, ClassMaxSize(c));
  }
}
