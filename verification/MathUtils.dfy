/** Powers of two, bit masks and the most-significant-bit scan (`src/util/math_utils.h`).
    Machine words are natural numbers; a 64-bit wrap-around is written out as a remainder. */
module MathUtils {

  function Pow2(k: nat): (r: nat)
    ensures r >= 1
  {
    if k == 0 then 1 else 2 * Pow2(k - 1)
  }

  const WORD_BITS: nat := 64

  /** Bitwise conjunction of two words, one bit at a time. */
  function BitAnd(x: nat, y: nat): nat {
    if x == 0 || y == 0 then 0
    else 2 * BitAnd(x / 2, y / 2) + (if x % 2 == 1 && y % 2 == 1 then 1 else 0)
  }

  predicate IsPowerOfTwo(x: nat) {
    x != 0 && BitAnd(x, x - 1) == 0
  }

  lemma {:induction false} PowersPassTheTest(k: nat)
    ensures IsPowerOfTwo(Pow2(k))
  {
    if k > 0 {
      PowersPassTheTest(k - 1);
      assert (Pow2(k) - 1) / 2 == Pow2(k - 1) - 1;
    }
  }

  lemma {:induction false} PowerOfTwoExponent(x: nat) returns (k: nat)
    requires IsPowerOfTwo(x)
    ensures x == Pow2(k)
  {
    if x == 1 {
      k := 0;
    } else {
      // An odd x shares its upper bits with x - 1, so the conjunction would not be zero.
      BitAndSelf(x / 2);
      assert x % 2 == 0;
      assert (x - 1) / 2 == x / 2 - 1;
      k := PowerOfTwoExponent(x / 2);
      k := k + 1;
    }
  }

  lemma {:induction false} BitAndSelf(x: nat)
    ensures BitAnd(x, x) == x
  {
    if x > 0 { BitAndSelf(x / 2); }
  }

  /** The bit test accepts exactly the powers of two. */
  lemma IsPowerOfTwoIff(x: nat)
    ensures IsPowerOfTwo(x) <==> exists k: nat :: x == Pow2(k)
  {
    if IsPowerOfTwo(x) {
      var k := PowerOfTwoExponent(x);
    }
    forall k: nat | x == Pow2(k) ensures IsPowerOfTwo(x) {
      PowersPassTheTest(k);
    }
  }

  /** Masking with `2^k - 1` is the remainder modulo `2^k`. */
  lemma {:induction false} MaskIsRemainder(x: nat, k: nat)
    ensures BitAnd(x, Pow2(k) - 1) == x % Pow2(k)
  {
    if k > 0 && x > 0 {
      MaskIsRemainder(x / 2, k - 1);
      MaskStep(x, Pow2(k - 1), Pow2(k));
    } else {
      RemainderUnique(x, Pow2(k), if k == 0 then x else 0, 0);
    }
  }

  lemma MaskStep(x: nat, p: nat, n: nat)
    requires x > 0 && p >= 1 && n == 2 * p && BitAnd(x / 2, p - 1) == x / 2 % p
    ensures BitAnd(x, n - 1) == x % n
  {
    BitAndOdd(x, p - 1, n - 1);
    HalveRemainder(x, p, n);
  }

  lemma BitAndOdd(x: nat, h: nat, y: nat)
    requires x > 0 && y == 2 * h + 1
    ensures BitAnd(x, y) == 2 * BitAnd(x / 2, h) + x % 2
  {
    assert y / 2 == h && y % 2 == 1;
  }

  lemma HalveRemainder(x: nat, p: nat, n: nat)
    requires p >= 1 && n == 2 * p
    ensures x % n == 2 * ((x / 2) % p) + x % 2
  {
    var q := (x / 2) / p;
    var r := (x / 2) % p;
    assert x / 2 == q * p + r;
    assert q * n == 2 * (q * p);
    RemainderUnique(x, n, q, 2 * r + x % 2);
  }

  lemma RemainderUnique(x: int, d: nat, q: int, r: nat)
    requires d > 0 && x == q * d + r && r < d
    ensures x / d == q && x % d == r
  {
    var q', r' := x / d, x % d;
    assert q * d - q' * d == r' - r;
    if q > q' { MulMonotone(q' + 1, q, d); }
    if q < q' { MulMonotone(q + 1, q', d); }
  }

  lemma MulMonotone(a: int, b: int, d: nat)
    requires a <= b
    ensures a * d <= b * d
  {
    assert (b - a) * d >= 0;
  }

  lemma {:induction false} Pow2Sum(a: nat, b: nat)
    ensures Pow2(a + b) == Pow2(a) * Pow2(b)
  {
    if a > 0 {
      Pow2Sum(a - 1, b);
      assert a + b - 1 == (a - 1) + b;
      assert 2 * (Pow2(a - 1) * Pow2(b)) == (2 * Pow2(a - 1)) * Pow2(b);
    }
  }

  lemma {:induction false} Pow2Monotone(a: nat, b: nat)
    requires a <= b
    ensures Pow2(a) <= Pow2(b)
    ensures a < b ==> 2 * Pow2(a) <= Pow2(b)
  {
    Pow2Sum(b - a, a);
    if a < b {
      assert Pow2(b - a) >= 2;
      MulMonotone(2, Pow2(b - a), Pow2(a));
    }
  }

  /** Masking with the complement of `2^k - 1` in a word of w bits clears the low k bits. */
  lemma ClearLowBits(y: nat, k: nat, w: nat)
    requires k <= w && y < Pow2(w)
    ensures Pow2(k) <= Pow2(w) && BitAnd(y, Pow2(w) - Pow2(k)) == y - y % Pow2(k)
  {
    Pow2Monotone(k, w);
    HighAndLow(y, k, w);
    MaskIsRemainder(y, k);
  }

  /** The bits of y from the weight p up to below v, and those below p, make up y. */
  predicate CutAt(y: nat, p: nat, v: nat)
    requires 1 <= p <= v
  {
    BitAnd(y, v - p) + BitAnd(y, p - 1) == y
  }

  lemma {:induction false} HighAndLow(y: nat, k: nat, w: nat)
    requires k <= w && y < Pow2(w) && Pow2(k) <= Pow2(w)
    ensures CutAt(y, Pow2(k), Pow2(w))
  {
    if k == 0 {
      WholeWord(y, w);
    } else if y > 0 {
      HighAndLow(y / 2, k - 1, w - 1);
      OneBitMore(y, Pow2(k - 1), Pow2(w - 1), Pow2(k), Pow2(w));
    }
  }

  lemma WholeWord(y: nat, w: nat)
    requires y < Pow2(w)
    ensures BitAnd(y, Pow2(w) - 1) == y
  {
    MaskIsRemainder(y, w);
    RemainderUnique(y, Pow2(w), 0, y);
  }

  lemma OneBitMore(y: nat, p: nat, v: nat, n: nat, w: nat)
    requires y > 0 && 1 <= p <= v && n == 2 * p && w == 2 * v && CutAt(y / 2, p, v)
    ensures CutAt(y, n, w)
  {
    BitAndEven(y, v - p, w - n);
    BitAndOdd(y, p - 1, n - 1);
  }

  lemma BitAndEven(x: nat, h: nat, y: nat)
    requires x > 0 && y == 2 * h
    ensures BitAnd(x, y) == 2 * BitAnd(x / 2, h)
  {
  }

  /** `round_up` on words of the given width: `(x + (n - 1)) & ~(n - 1)`. */
  function RoundUp(x: nat, n: nat, bits: nat): nat
    requires 1 <= n <= Pow2(bits)
  {
    BitAnd((x + n - 1) % Pow2(bits), Pow2(bits) - n)
  }

  /** It is the first multiple of n from x on, exactly when the sum does not wrap around. */
  lemma RoundUpIff(x: nat, n: nat, bits: nat)
    requires IsPowerOfTwo(n) && n <= Pow2(bits) && x < Pow2(bits)
    ensures var r := RoundUp(x, n, bits);
            r % n == 0 && x <= r < x + n <==> x + n - 1 < Pow2(bits)
  {
    var k := PowerOfTwoExponent(n);
    if k > bits { Pow2Monotone(bits, k); }
    ClearLowBits((x + n - 1) % Pow2(bits), k, bits);
    RoundUpCases(x, n, Pow2(bits), RoundUp(x, n, bits));
  }

  lemma RoundUpCases(x: nat, n: nat, w: nat, r: int)
    requires 1 <= n <= w && x < w && r == (x + n - 1) % w - (x + n - 1) % w % n
    ensures r % n == 0 && x <= r < x + n <==> x + n - 1 < w
  {
    var s := x + n - 1;
    if s < w {
      RemainderUnique(s, w, 0, s);
      RoundDown(s, n);
    } else {
      RemainderUnique(s, w, 1, s - w);
      RemainderUnique(s - w, n, 0, s - w);
    }
  }

  lemma RoundDown(s: nat, n: nat)
    requires n > 0
    ensures 0 <= s - s % n && (s - s % n) % n == 0
  {
    var q, r := s / n, s % n;
    assert s == q * n + r;
    RemainderUnique(s - r, n, q, 0);
  }

  /** `(a - b) & mask` on unsigned 64-bit words: the circular distance from b to a. */
  function MaskedDifference(a: nat, b: nat, n: nat): nat
    requires n > 0
  {
    BitAnd((a - b) % Pow2(WORD_BITS), n - 1)
  }

  lemma MaskedDifferenceIsDistance(a: nat, b: nat, n: nat)
    requires IsPowerOfTwo(n) && n <= Pow2(WORD_BITS) && a < n && b < n
    ensures MaskedDifference(a, b, n) == if a >= b then a - b else a + n - b
  {
    var k := PowerOfTwoExponent(n);
    WordSplits(k);
    MaskIsRemainder((a - b) % Pow2(WORD_BITS), k);
    DistanceRemainder(a, b, n, Pow2(WORD_BITS - k), Pow2(WORD_BITS));
  }

  lemma DistanceRemainder(a: nat, b: nat, n: nat, m: nat, w: nat)
    requires a < n && b < n && m >= 1 && w == m * n
    ensures w > 0 && ((a - b) % w) % n == if a >= b then a - b else a + n - b
  {
    MulMonotone(1, m, n);
    if a >= b {
      RemainderUnique(a - b, w, 0, a - b);
      RemainderUnique(a - b, n, 0, a - b);
    } else {
      RemainderUnique(a - b, w, -1, w + a - b);
      assert w + a - b == (m - 1) * n + (n + a - b) by { assert (m - 1) * n == m * n - n; }
      RemainderUnique(w + a - b, n, m - 1, n + a - b);
    }
  }

  lemma WordSplits(k: nat)
    requires Pow2(k) <= Pow2(WORD_BITS)
    ensures k <= WORD_BITS && Pow2(WORD_BITS) == Pow2(WORD_BITS - k) * Pow2(k)
  {
    if k > WORD_BITS { Pow2Monotone(WORD_BITS, k); }
    Pow2Sum(WORD_BITS - k, k);
  }

  /** Index of the highest set bit; the index of bit 2^0 is 0 (the `bsr` instruction). */
  function BitScanReverse(x: nat): nat
    requires x > 0
  {
    if x == 1 then 0 else 1 + BitScanReverse(x / 2)
  }

  /** The scan of `x << 1`. The documented value is used for x = 0, where the instruction
      leaves its result undefined only if the shifted word is zero. */
  function MsbIndex(x: nat): nat {
    if x == 0 then 0 else BitScanReverse(2 * x)
  }

  lemma {:induction false} BitScanBounds(x: nat)
    requires x > 0
    ensures Pow2(BitScanReverse(x)) <= x < Pow2(BitScanReverse(x) + 1)
  {
    if x > 1 { BitScanBounds(x / 2); }
  }

  /** `MsbIndex(x)` is the number of bits of x: the only m with `2^(m-1) <= x < 2^m`, and 0 for 0. */
  lemma MsbIndexIsBitLength(x: nat, m: nat)
    ensures MsbIndex(x) == m <==> x < Pow2(m) && (m > 0 ==> Pow2(m - 1) <= x)
  {
    if x > 0 {
      var i := MsbIndex(x);
      BitScanBounds(2 * x);
      assert Pow2(i) <= 2 * x < Pow2(i + 1);
      assert i > 0;
      if m < i { Pow2Monotone(m, i - 1); }
      if m > i { Pow2Monotone(i, m - 1); }
    } else {
      if m > 0 { assert Pow2(m - 1) >= 1; }
    }
  }
}
