/** Size classes of the hugepage allocator (`src/dispatcher_impl/roce/huge_alloc.h`). */
module SizeClass {
  import opened MathUtils

  const MIN_CLASS_SIZE: nat := 64 // k_min_class_size, 2^6

  function ClassMaxSize(c: nat): nat {
    MIN_CLASS_SIZE * Pow2(c)
  }

  /** The bit-scan form. */
  function GetClass(size: nat): nat
    requires size >= 1
  {
    MsbIndex((size - 1) / MIN_CLASS_SIZE)
  }

  /** The class whose maximum is the first to hold the size. */
  predicate IsTightest(c: nat, size: nat) {
    size <= ClassMaxSize(c) && (c > 0 ==> ClassMaxSize(c - 1) < size)
  }

  lemma GetClassIsTightest(size: nat, c: nat)
    requires size >= 1
    ensures GetClass(size) == c <==> IsTightest(c, size)
  {
    MsbIndexIsBitLength((size - 1) / MIN_CLASS_SIZE, c);
  }

  /** The reference loop computes the same class as the bit scan. */
  method GetClassSlow(size: nat) returns (sizeClass: nat)
    requires size >= 1
    ensures IsTightest(sizeClass, size) && sizeClass == GetClass(size)
  {
    sizeClass := 0;
    var limit := MIN_CLASS_SIZE;
    while size > limit
      invariant limit == ClassMaxSize(sizeClass) && (sizeClass > 0 ==> ClassMaxSize(sizeClass - 1) < size)
      decreases size - limit
    {
      sizeClass := sizeClass + 1;
      limit := limit * 2;
    }
    GetClassIsTightest(size, sizeClass);
  }

  /** A class size belongs to its own class, and the class is monotone in the size. */
  lemma ClassOfClassSize(c: nat)
    ensures ClassMaxSize(c) >= 1 && GetClass(ClassMaxSize(c)) == c
  {
    GetClassIsTightest(ClassMaxSize(c), c);
  }

  lemma ClassInRange(size: nat, classes: nat)
    requires 1 <= size && classes >= 1 && size <= ClassMaxSize(classes - 1)
    ensures GetClass(size) < classes
  {
    var c := GetClass(size);
    GetClassIsTightest(size, c);
    if c >= classes { Pow2Monotone(classes - 1, c - 1); }
  }
}
