/** Rounding up to a power of two with bit operations on unbounded integers. */
module Alignment {
  import opened Basics

  /** x & y for unbounded two's complement integers. */
  function BitAnd(x: int, y: int): int
    decreases (if x < 0 then -x else x) + (if y < 0 then -y else y)
  {
    if x == 0 || y == 0 then 0
    else if x == -1 then y
    else if y == -1 then x
    else 2 * BitAnd(x / 2, y / 2) + (x % 2) * (y % 2)
  }

  /** ~x. */
  function BitNot(x: int): int { -x - 1 }

  function Pow2(k: nat): (p: nat)
    ensures p >= 1
  {
    if k == 0 then 1 else 2 * Pow2(k - 1)
  }

  /** align_to: (size + align - 1) & ~(align - 1). */
  function AlignTo(size: int, align: int): int
  {
    BitAnd(size + align - 1, BitNot(align - 1))
  }

  lemma HalfMod(x: int, p: nat)
    requires p >= 1
    ensures x % (2 * p) == 2 * ((x / 2) % p) + x % 2
  {
    var h, r := x / 2, x % 2;
    var q, m := h / p, h % p;
    assert x == 2 * h + r && h == p * q + m;
    assert x == (2 * p) * q + (2 * m + r);
    ModUnique(x, 2 * p, q, 2 * m + r);
  }

  lemma ModUnique(x: int, d: nat, q: int, r: int)
    requires 0 <= r < d && x == d * q + r
    ensures x % d == r && x / d == q
  {
    var q', r' := x / d, x % d;
    assert x == d * q' + r' && d * (q - q') == r' - r;
    if q > q' { MulAtLeast(d, q - q'); } else if q < q' { MulAtLeast(d, q' - q); }
  }

  lemma MulAtLeast(d: nat, n: int)
    requires n >= 1
    ensures d * n >= d
  {}

  /** Masking with ~(2^k - 1) clears the low k bits. */
  lemma {:induction false} ClearLowBits(x: int, k: nat)
    ensures BitAnd(x, BitNot(Pow2(k) - 1)) == x - x % Pow2(k)
    decreases k
  {
    if k == 0 {
      assert BitNot(Pow2(0) - 1) == -1;
    } else {
      ClearLowBits(x / 2, k - 1);
      HighMask(x, Pow2(k - 1));
    }
  }

  lemma HighMask(x: int, half: nat)
    requires half >= 1 && BitAnd(x / 2, BitNot(half - 1)) == x / 2 - (x / 2) % half
    ensures BitAnd(x, BitNot(2 * half - 1)) == x - x % (2 * half)
  {
    HalfMod(x, half);
    var y: int := -2 * half;
    assert BitNot(2 * half - 1) == y && y / 2 == BitNot(half - 1) && y % 2 == 0;
    if x == -1 { ModUnique(-1, 2 * half, -1, 2 * half - 1); }
  }

  /** Masking with 2^k - 1 keeps the low k bits: the remainder. */
  lemma {:induction false} KeepLowBits(x: int, k: nat)
    ensures BitAnd(x, Pow2(k) - 1) == x % Pow2(k)
    decreases k
  {
    if k > 0 {
      KeepLowBits(x / 2, k - 1);
      LowMask(x, Pow2(k - 1));
    }
  }

  lemma LowMask(x: int, half: nat)
    requires half >= 1 && BitAnd(x / 2, half - 1) == (x / 2) % half
    ensures BitAnd(x, 2 * half - 1) == x % (2 * half)
  {
    HalfMod(x, half);
    assert (2 * half - 1) / 2 == half - 1 && (2 * half - 1) % 2 == 1;
    if x == -1 { ModUnique(-1, 2 * half, -1, 2 * half - 1); }
  }

  /** The multiple of p at or below size + p - 1 is the least multiple at or above size. */
  lemma RoundUp(size: int, p: nat, q: int, rem: nat, n: int)
    requires p >= 1 && size + p - 1 == p * q + rem && rem < p
    ensures size <= p * q < size + p
    ensures size <= p * n ==> p * q <= p * n
  {
    if n < q {
      MulMono(n + 1, q, p);
      assert p * (n + 1) == p * n + p;
    } else {
      MulMono(q, n, p);
    }
  }

  /** For a power of two, align_to is the least multiple that is not below the size. */
  lemma AlignToIsLeastMultiple(size: int, k: nat)
    ensures var p := Pow2(k); var r := AlignTo(size, p);
            && r % p == 0 && size <= r < size + p
            && forall m: int :: m % p == 0 && size <= m ==> r <= m
  {
    var p := Pow2(k);
    var x := size + p - 1;
    ClearLowBits(x, k);
    var r := AlignTo(size, p);
    var q := x / p;
    DivModOf(x, p);
    assert r == p * q;
    hide AlignTo, Pow2;
    ModUnique(r, p, q, 0);
    RoundUp(size, p, q, x % p, q);
    forall m: int | m % p == 0 && size <= m ensures r <= m {
      DivModOf(m, p);
      RoundUp(size, p, q, x % p, m / p);
    }
  }

  lemma DivModOf(x: int, p: nat)
    requires p >= 1
    ensures x == p * (x / p) + x % p && 0 <= x % p < p
  {}

  ghost predicate IsPow2(a: int) { exists k: nat :: a == Pow2(k) }

  /** x and ~x have no bit in common. */
  lemma {:induction false} NoCommonBit(x: int)
    ensures BitAnd(x, BitNot(x)) == 0
    decreases if x < 0 then -x else x
  {
    if x != 0 && x != -1 {
      assert BitNot(x) / 2 == BitNot(x / 2) && x % 2 + BitNot(x) % 2 == 1;
      NoCommonBit(x / 2);
    }
  }

  /** a & -a is the lowest set bit of a, which is all of a only for a power of two. */
  lemma {:induction false} LowestBit(a: int)
    requires a >= 1
    ensures 1 <= BitAnd(a, -a) <= a && (BitAnd(a, -a) == a ==> IsPow2(a))
  {
    if a == 1 {
      assert Pow2(0) == 1;
    } else if a % 2 == 1 {
      assert (-a) / 2 == BitNot(a / 2) && (-a) % 2 == 1;
      NoCommonBit(a / 2);
    } else {
      assert (-a) / 2 == -(a / 2) && (-a) % 2 == 0;
      LowestBit(a / 2);
      if BitAnd(a, -a) == a {
        var k: nat :| a / 2 == Pow2(k);
        assert a == Pow2(k + 1);
      }
    }
  }

  /** r is the least multiple of a at or above the size. */
  ghost predicate LeastMultiple(size: int, a: int, r: int)
    requires a >= 1
  {
    r % a == 0 && size <= r && forall m: int :: m % a == 0 && size <= m ==> r <= m
  }

  /** align_to rounds every size up to the least multiple exactly when the alignment is a power of two.
      Otherwise it is wrong already at size one, where it gives the lowest set bit of the alignment. */
  lemma AlignsIff(a: int)
    requires a >= 1
    ensures (forall size: int :: LeastMultiple(size, a, AlignTo(size, a))) <==> IsPow2(a)
    ensures !IsPow2(a) ==> !LeastMultiple(1, a, AlignTo(1, a))
  {
    LowestBit(a);
    assert AlignTo(1, a) == BitAnd(a, -a);
    if k: nat :| a == Pow2(k) {
      hide AlignTo, Pow2, BitAnd;
      forall size: int ensures LeastMultiple(size, a, AlignTo(size, a)) { AlignToIsLeastMultiple(size, k); }
    } else {
      hide AlignTo, BitAnd;
      MultipleBelow(a, AlignTo(1, a));
      assert !LeastMultiple(1, a, AlignTo(1, a));
    }
  }

  lemma MultipleBelow(a: nat, r: int)
    requires 1 <= r < a
    ensures r % a != 0
  {
    ModUnique(r, a, 0, r);
  }

  /** An alignment that is no power of two breaks it: 5 rounded up to a multiple of 6. */
  lemma NotPowerOfTwo()
    ensures AlignTo(5, 6) == 10 && 10 % 6 != 0
  {
    assert BitNot(5) == -6;
    assert BitAnd(10, -6) == 2 * BitAnd(5, -3) + 0;
    assert BitAnd(5, -3) == 2 * BitAnd(2, -2) + 1;
    assert BitAnd(2, -2) == 2 * BitAnd(1, -1) + 0;
  }
}
