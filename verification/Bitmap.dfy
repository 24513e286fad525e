/** The byte-packed bitmap.  Bit i of the bitmap is bit i % 8 of byte i / 8; the abstract value is
    the sequence of the first `size` bits.  Bits of the last byte past `size` (padding) may hold
    anything, because `|` and `&` of bitmaps of unequal sizes leave them set. */
module Bitmaps {
  import opened Basics

  // ---- one byte ----

  /** 1u << j as a byte. */
  function Mask(j: nat): bv8
  {
    if j == 0 then 0x01 else if j == 1 then 0x02 else if j == 2 then 0x04 else if j == 3 then 0x08
    else if j == 4 then 0x10 else if j == 5 then 0x20 else if j == 6 then 0x40 else if j == 7 then 0x80 else 0
  }

  /** (1u << n) - 1 as a byte: the lowest n bits. */
  function LowMask(n: nat): bv8
  {
    if n == 0 then 0x00 else if n == 1 then 0x01 else if n == 2 then 0x03 else if n == 3 then 0x07
    else if n == 4 then 0x0F else if n == 5 then 0x1F else if n == 6 then 0x3F else if n == 7 then 0x7F else 0xFF
  }

  predicate BitOf(b: bv8, j: nat)
  {
    b & Mask(j) != 0
  }

  // The byte operations of the loops below.
  function AndByte(b: bv8, c: bv8): bv8 { b & c }
  function OrByte(b: bv8, c: bv8): bv8 { b | c }
  function NotByte(b: bv8): bv8 { !b }
  function KeepLow(b: bv8, n: nat): bv8 { b & LowMask(n) }
  function ClearLowest(b: bv8): bv8 { b & (b - 1) }

  function Bits8(b: bv8): (r: seq<bool>)
    ensures |r| == 8 && forall j :: 0 <= j < 8 ==> r[j] == BitOf(b, j)
  {
    [BitOf(b, 0), BitOf(b, 1), BitOf(b, 2), BitOf(b, 3), BitOf(b, 4), BitOf(b, 5), BitOf(b, 6), BitOf(b, 7)]
  }

  /** The masks are the shifts the code writes, and BitOf is its shift-and-test. */
  lemma MasksAreShifts(b: bv8, j: nat)
    requires j < 8
    ensures (1 as bv8) << j == Mask(j) && ((1 as bv8) << j) - 1 == LowMask(j)
    ensures BitOf(b, j) <==> (b >> j) & 1 == 1
  {
    if j == 0 {} else if j == 1 {} else if j == 2 {} else if j == 3 {}
    else if j == 4 {} else if j == 5 {} else if j == 6 {} else { assert j == 7; }
  }

  lemma AndBit(b: bv8, c: bv8, j: nat)
    requires j < 8
    ensures BitOf(AndByte(b, c), j) <==> BitOf(b, j) && BitOf(c, j)
  {}

  lemma OrBit(b: bv8, c: bv8, j: nat)
    requires j < 8
    ensures BitOf(OrByte(b, c), j) <==> BitOf(b, j) || BitOf(c, j)
  {}

  lemma NotBit(b: bv8, j: nat)
    requires j < 8
    ensures BitOf(NotByte(b), j) <==> !BitOf(b, j)
  {}

  lemma LowMaskBit(n: nat, j: nat)
    requires j < 8 && n <= 8
    ensures BitOf(LowMask(n), j) <==> j < n
  {}

  lemma SetBit(b: bv8, k: nat, j: nat)
    requires j < 8 && k < 8
    ensures BitOf(b | Mask(k), j) <==> BitOf(b, j) || j == k
    ensures BitOf(b & !Mask(k), j) <==> BitOf(b, j) && j != k
  {}

  lemma NonZeroHasBit(b: bv8)
    ensures b != 0 <==> exists j :: 0 <= j < 8 && BitOf(b, j)
  {
    if b != 0 {
      assert BitOf(b, 0) || BitOf(b, 1) || BitOf(b, 2) || BitOf(b, 3) || BitOf(b, 4) || BitOf(b, 5) || BitOf(b, 6) || BitOf(b, 7);
    }
  }

  lemma ClearsLowest(b: bv8, j: nat, k: nat)
    requires j < 8 && k < 8 && BitOf(b, j) && forall i :: 0 <= i < j ==> !BitOf(b, i)
    ensures BitOf(ClearLowest(b), k) <==> BitOf(b, k) && k != j
  {
    assert !(0 < j && BitOf(b, 0)) && !(1 < j && BitOf(b, 1)) && !(2 < j && BitOf(b, 2)) && !(3 < j && BitOf(b, 3));
    assert !(4 < j && BitOf(b, 4)) && !(5 < j && BitOf(b, 5)) && !(6 < j && BitOf(b, 6));
  }

  // ---- bit sequences ----

  function Count(s: seq<bool>): (n: nat)
    ensures n <= |s|
  {
    if s == [] then 0 else Count(s[..|s| - 1]) + if s[|s| - 1] then 1 else 0
  }

  function LeadingZeros(s: seq<bool>): (n: nat)
    ensures n <= |s|
  {
    if s == [] || s[0] then 0 else 1 + LeadingZeros(s[1..])
  }

  function LeadingOnes(s: seq<bool>): (n: nat)
    ensures n <= |s|
  {
    if s == [] || !s[0] then 0 else 1 + LeadingOnes(s[1..])
  }

  function Indices(s: seq<bool>): seq<nat>
  {
    if s == [] then [] else Indices(s[..|s| - 1]) + if s[|s| - 1] then [|s| - 1] else []
  }

  function AndBits(a: seq<bool>, b: seq<bool>): seq<bool>
  {
    seq(Min(|a|, |b|), i requires 0 <= i < Min(|a|, |b|) => a[i] && b[i])
  }

  function OrBits(a: seq<bool>, b: seq<bool>): seq<bool>
  {
    seq(Min(|a|, |b|), i requires 0 <= i < Min(|a|, |b|) => a[i] || b[i])
  }

  function NotBits(a: seq<bool>): seq<bool>
  {
    seq(|a|, i requires 0 <= i < |a| => !a[i])
  }

  function PrefixBits(n: nat, p: nat): seq<bool>
  {
    seq(n, i => i < p)
  }

  /** Counting bits of a zero byte or below a mask. */
  lemma {:induction false} CountConcat(a: seq<bool>, b: seq<bool>)
    ensures Count(a + b) == Count(a) + Count(b)
  {
    if b == [] {
      assert a + b == a;
    } else {
      CountConcat(a, b[..|b| - 1]);
      assert (a + b)[..|a + b| - 1] == a + b[..|b| - 1];
    }
  }

  lemma {:induction false} CountZeros(s: seq<bool>)
    requires forall i :: 0 <= i < |s| ==> !s[i]
    ensures Count(s) == 0
  {
    if s != [] { CountZeros(s[..|s| - 1]); }
  }

  lemma {:induction false} LeadingZerosAt(s: seq<bool>, k: nat)
    requires k <= |s| && (forall i :: 0 <= i < k ==> !s[i]) && (k < |s| ==> s[k])
    ensures LeadingZeros(s) == k
  {
    if k > 0 { LeadingZerosAt(s[1..], k - 1); }
  }

  lemma {:induction false} LeadingZerosMeaning(s: seq<bool>)
    ensures forall i :: 0 <= i < LeadingZeros(s) ==> !s[i]
    ensures LeadingZeros(s) < |s| ==> s[LeadingZeros(s)]
  {
    if s != [] && !s[0] {
      LeadingZerosMeaning(s[1..]);
      assert forall i :: 1 <= i < |s| ==> s[i] == s[1..][i - 1];
    }
  }

  lemma {:induction false} LeadingOnesIsZerosOfNot(s: seq<bool>)
    ensures LeadingOnes(s) == LeadingZeros(NotBits(s))
  {
    if s != [] {
      assert NotBits(s)[1..] == NotBits(s[1..]);
      LeadingOnesIsZerosOfNot(s[1..]);
    }
  }

  lemma IndicesAppend(s: seq<bool>, n: nat)
    requires n < |s|
    ensures Indices(s[..n + 1]) == Indices(s[..n]) + if s[n] then [n] else []
  {
    assert s[..n + 1][..n] == s[..n];
  }

  lemma {:induction false} IndicesSkip(s: seq<bool>, lo: nat, hi: nat)
    requires lo <= hi <= |s| && forall i :: lo <= i < hi ==> !s[i]
    ensures Indices(s[..hi]) == Indices(s[..lo])
    decreases hi
  {
    if lo < hi {
      IndicesSkip(s, lo, hi - 1);
      IndicesAppend(s, hi - 1);
    }
  }

  // ---- laws of the observers ----

  /** get_indices lists exactly the set bits, in ascending order, as many as popcount says. */
  lemma {:induction false} IndicesMeaning(s: seq<bool>)
    ensures |Indices(s)| == Count(s)
    ensures forall i: nat :: i in Indices(s) <==> i < |s| && s[i]
    ensures forall j, k :: 0 <= j < k < |Indices(s)| ==> Indices(s)[j] < Indices(s)[k]
  {
    if s != [] {
      var n := |s| - 1;
      IndicesMeaning(s[..n]);
      forall i: nat ensures i in Indices(s) <==> i < |s| && s[i] {
        if i < n { assert s[..n][i] == s[i]; }
      }
      forall j | 0 <= j < |Indices(s[..n])| ensures Indices(s[..n])[j] < n {
        assert Indices(s[..n])[j] in Indices(s[..n]);
      }
    }
  }

  lemma {:induction false} CountOfNot(s: seq<bool>)
    ensures Count(NotBits(s)) == |s| - Count(s)
  {
    if s != [] {
      assert NotBits(s)[..|s| - 1] == NotBits(s[..|s| - 1]);
      CountOfNot(s[..|s| - 1]);
    }
  }

  /** Inclusion and exclusion for bitmaps of the same size. */
  lemma {:induction false} CountOfOrAnd(a: seq<bool>, b: seq<bool>)
    requires |a| == |b|
    ensures Count(OrBits(a, b)) + Count(AndBits(a, b)) == Count(a) + Count(b)
  {
    if a != [] {
      var n := |a| - 1;
      assert OrBits(a, b)[..n] == OrBits(a[..n], b[..n]);
      assert AndBits(a, b)[..n] == AndBits(a[..n], b[..n]);
      CountOfOrAnd(a[..n], b[..n]);
    }
  }

  /** The longest common run of leading ones, whatever the two sizes: the prefix found by both. */
  lemma {:induction false} LeadingOnesOfAnd(a: seq<bool>, b: seq<bool>)
    ensures LeadingOnes(AndBits(a, b)) == Min(LeadingOnes(a), LeadingOnes(b))
  {
    if a != [] && b != [] {
      assert AndBits(a, b)[1..] == AndBits(a[1..], b[1..]);
      LeadingOnesOfAnd(a[1..], b[1..]);
    }
  }

  lemma {:induction false} LeadingZerosOfOr(a: seq<bool>, b: seq<bool>)
    ensures LeadingZeros(OrBits(a, b)) == Min(LeadingZeros(a), LeadingZeros(b))
  {
    if a != [] && b != [] {
      assert OrBits(a, b)[1..] == OrBits(a[1..], b[1..]);
      LeadingZerosOfOr(a[1..], b[1..]);
    }
  }

  lemma {:induction false} PrefixObservers(n: nat, p: nat)
    ensures LeadingOnes(PrefixBits(n, p)) == Min(n, p)
    ensures Count(PrefixBits(n, p)) == Min(n, p)
  {
    LeadingOnesIsZerosOfNot(PrefixBits(n, p));
    LeadingZerosAt(NotBits(PrefixBits(n, p)), Min(n, p));
    CountOfPrefix(n, p);
  }

  lemma {:induction false} CountOfPrefix(n: nat, p: nat)
    ensures Count(PrefixBits(n, p)) == Min(n, p)
  {
    if n > 0 {
      assert PrefixBits(n, p)[..n - 1] == PrefixBits(n - 1, p);
      CountOfPrefix(n - 1, p);
    }
  }

  lemma DeMorgan(a: seq<bool>, b: seq<bool>)
    ensures NotBits(AndBits(a, b)) == OrBits(NotBits(a), NotBits(b))
    ensures NotBits(OrBits(a, b)) == AndBits(NotBits(a), NotBits(b))
    ensures NotBits(NotBits(a)) == a
  {}

  // ---- packed bytes ----

  function Bytes(size: nat): nat
  {
    if size == 0 then 0 else (size - 1) / 8 + 1
  }

  /** As few bytes as hold the bits. */
  lemma BytesAreLeast(size: nat, n: nat)
    ensures n >= Bytes(size) <==> 8 * n >= size
  {}

  function BitsOf(data: seq<bv8>, size: nat): (r: seq<bool>)
    requires |data| == Bytes(size)
    ensures |r| == size && forall i :: 0 <= i < size ==> r[i] == BitOf(data[i / 8], i % 8)
  {
    seq(size, i requires 0 <= i < size => BitOf(data[i / 8], i % 8))
  }

  lemma BitInByte(data: seq<bv8>, size: nat, i: nat, j: nat)
    requires |data| == Bytes(size) && j < 8 && 8 * i + j < size
    ensures i < |data| && BitsOf(data, size)[8 * i + j] == BitOf(data[i], j)
  {
    hide BitOf;
    assert (8 * i + j) / 8 == i && (8 * i + j) % 8 == j;
  }

  /** A whole byte is eight consecutive bits. */
  lemma ByteSlice(data: seq<bv8>, size: nat, i: nat)
    requires |data| == Bytes(size) && 8 * i + 8 <= size
    ensures BitsOf(data, size)[8 * i..8 * i + 8] == Bits8(data[i])
  {
    hide BitOf, BitsOf, AndByte, OrByte, NotByte, KeepLow, ClearLowest;
    forall j | 0 <= j < 8 ensures BitsOf(data, size)[8 * i..8 * i + 8][j] == Bits8(data[i])[j] { BitInByte(data, size, i, j); }
  }

  lemma MaskedByte(b: bv8, n: nat)
    requires n <= 8
    ensures forall j :: 0 <= j < 8 ==> (BitOf(KeepLow(b, n), j) <==> BitOf(b, j) && j < n)
  {
    forall j | 0 <= j < 8 ensures BitOf(KeepLow(b, n), j) <==> BitOf(b, j) && j < n {
      assert KeepLow(b, n) == AndByte(b, LowMask(n));
      AndBit(b, LowMask(n), j);
      LowMaskBit(n, j);
    }
  }

  /** The last, partial byte, masked, is the remaining bits followed by zeros. */
  lemma LastByteSlice(data: seq<bv8>, size: nat, b: bv8)
    requires |data| == Bytes(size) && size % 8 > 0 && b == KeepLow(data[|data| - 1], size % 8)
    ensures var full, rem := size / 8, size % 8;
            && |data| - 1 == full
            && BitsOf(data, size)[8 * full..] == Bits8(b)[..rem]
            && forall j :: rem <= j < 8 ==> !Bits8(b)[j]
  {
    hide BitOf, BitsOf, AndByte, OrByte, NotByte, KeepLow, ClearLowest;
    var full, rem := size / 8, size % 8;
    assert size == 8 * full + rem && rem < 8;
    MaskedByte(data[full], rem);
    forall j | 0 <= j < rem ensures BitsOf(data, size)[8 * full..][j] == Bits8(b)[j] { BitInByte(data, size, full, j); }
  }

  /** Appending the next whole byte's bits. */
  lemma CountByte(data: seq<bv8>, size: nat, i: nat)
    requires |data| == Bytes(size) && 8 * i + 8 <= size
    ensures Count(BitsOf(data, size)[..8 * i + 8]) == Count(BitsOf(data, size)[..8 * i]) + PopCount8(data[i])
  {
    ByteSlice(data, size, i);
    hide BitOf, AndByte, OrByte, NotByte, KeepLow, ClearLowest;
    var s := BitsOf(data, size);
    CountConcat(s[..8 * i], s[8 * i..8 * i + 8]);
    assert s[..8 * i] + s[8 * i..8 * i + 8] == s[..8 * i + 8];
  }

  lemma CountTail(s: seq<bool>, lo: nat, t: seq<bool>, n: nat)
    requires lo <= |s| && n <= |t| && s[lo..] == t[..n] && forall j :: n <= j < |t| ==> !t[j]
    ensures Count(s) == Count(s[..lo]) + Count(t)
  {
    hide Count;
    CountConcat(s[..lo], s[lo..]);
    CountConcat(t[..n], t[n..]);
    CountZeros(t[n..]);
    assert s == s[..lo] + s[lo..] && t == t[..n] + t[n..];
  }

  lemma CountLastByte(data: seq<bv8>, size: nat, b: bv8)
    requires |data| == Bytes(size) && size % 8 > 0 && b == KeepLow(data[|data| - 1], size % 8)
    ensures Count(BitsOf(data, size)) == Count(BitsOf(data, size)[..8 * (size / 8)]) + PopCount8(b)
  {
    LastByteSlice(data, size, b);
    hide Count, Bits8, BitsOf, BitOf, KeepLow;
    CountTail(BitsOf(data, size), 8 * (size / 8), Bits8(b), size % 8);
  }

  ghost predicate NoPadding(b: bv8, n: nat)
  {
    forall j :: n <= j < 8 ==> !BitOf(b, j)
  }

  lemma PackedAnd(a: seq<bv8>, n: nat, b: seq<bv8>, m: nat, r: seq<bv8>)
    requires |a| == Bytes(n) && |b| == Bytes(m) && |r| == Bytes(Min(n, m))
    requires forall k :: 0 <= k < |r| ==> r[k] == AndByte(a[k], b[k])
    ensures BitsOf(r, Min(n, m)) == AndBits(BitsOf(a, n), BitsOf(b, m))
  {
    hide BitOf, AndByte, OrByte, NotByte, KeepLow, ClearLowest;
    forall i | 0 <= i < Min(n, m) ensures BitOf(r[i / 8], i % 8) == (BitOf(a[i / 8], i % 8) && BitOf(b[i / 8], i % 8)) {
      AndBit(a[i / 8], b[i / 8], i % 8);
    }
  }

  lemma PackedOr(a: seq<bv8>, n: nat, b: seq<bv8>, m: nat, r: seq<bv8>)
    requires |a| == Bytes(n) && |b| == Bytes(m) && |r| == Bytes(Min(n, m))
    requires forall k :: 0 <= k < |r| ==> r[k] == OrByte(a[k], b[k])
    ensures BitsOf(r, Min(n, m)) == OrBits(BitsOf(a, n), BitsOf(b, m))
  {
    hide BitOf, AndByte, OrByte, NotByte, KeepLow, ClearLowest;
    forall i | 0 <= i < Min(n, m) ensures BitOf(r[i / 8], i % 8) == (BitOf(a[i / 8], i % 8) || BitOf(b[i / 8], i % 8)) {
      OrBit(a[i / 8], b[i / 8], i % 8);
    }
  }

  /** Complementing a byte, masked or not, flips the bits before the mask ends. */
  lemma NotMasked(b: bv8, r: bv8, masked: bool, m: nat, j: nat)
    requires m <= 8 && j < 8 && r == (if masked then KeepLow(NotByte(b), m) else NotByte(b)) && (masked ==> j < m)
    ensures BitOf(r, j) == !BitOf(b, j)
  {
    hide BitOf, NotByte, KeepLow;
    NotBit(b, j);
    if masked { MaskedByte(NotByte(b), m); }
  }

  /** Byte k of the complement of a bitmap with m bits in a partial last byte. */
  function NotByteAt(a: seq<bv8>, m: nat, k: nat): bv8
    requires k < |a| && m <= 8
  {
    if k == |a| - 1 && m > 0 then KeepLow(NotByte(a[k]), m) else NotByte(a[k])
  }

  lemma FlipAt(a: seq<bv8>, n: nat, r: seq<bv8>, i: nat)
    requires |a| == |r| == Bytes(n) && i < n
    requires forall k :: 0 <= k < |r| ==> r[k] == NotByteAt(a, n % 8, k)
    ensures BitsOf(r, n)[i] == !BitsOf(a, n)[i]
  {
    BytePlace(n, i);
    hide BitOf, BitsOf, Bytes, NotByte, KeepLow;
    var k, j, m := i / 8, i % 8, n % 8;
    assert r[k] == NotByteAt(a, m, k);
    NotMasked(a[k], r[k], k == |a| - 1 && m > 0, m, j);
  }

  /** Complemented bytes, with the padding of a partial last byte cleared. */
  lemma PackedNot(a: seq<bv8>, n: nat, r: seq<bv8>)
    requires |a| == |r| == Bytes(n)
    requires forall k :: 0 <= k < |r| ==> r[k] == NotByteAt(a, n % 8, k)
    ensures BitsOf(r, n) == NotBits(BitsOf(a, n))
    ensures n % 8 > 0 ==> |r| > 0 && NoPadding(r[|r| - 1], n % 8)
  {
    if n % 8 > 0 {
      BytePlace(n, 0);
      MaskedByte(NotByte(a[|r| - 1]), n % 8);
    }
    hide BitOf, BitsOf, Bytes, NotByte, KeepLow;
    forall i | 0 <= i < n ensures BitsOf(r, n)[i] == !BitsOf(a, n)[i] { FlipAt(a, n, r, i); }
    hide NotByteAt;
  }

  /** Bit i is in one of the bytes, and before the padding when that is the last byte. */
  lemma BytePlace(n: nat, i: nat)
    requires i < n
    ensures 0 <= i / 8 < Bytes(n) && 0 <= i % 8 < 8
    ensures i / 8 == Bytes(n) - 1 && n % 8 > 0 ==> i % 8 < n % 8
  {}

  /** A place in the bytes is one bit. */
  lemma SamePlace(i: nat, j: nat)
    ensures i / 8 == j / 8 && i % 8 == j % 8 <==> i == j
  {}

  /** Changing one bit of one byte changes one bit of the bitmap. */
  lemma ChangedBit(data: seq<bv8>, size: nat, index: nat, b: bv8, bit: bool)
    requires |data| == Bytes(size) && index < size && index / 8 < |data|
    requires forall j :: 0 <= j < 8 ==> BitOf(b, j) == if j == index % 8 then bit else BitOf(data[index / 8], j)
    ensures BitsOf(data[index / 8 := b], size) == BitsOf(data, size)[index := bit]
  {
    hide BitOf, Bytes, Mask, BitsOf;
    var data' := data[index / 8 := b];
    forall i | 0 <= i < size ensures BitsOf(data', size)[i] == BitsOf(data, size)[index := bit][i] {
      BytePlace(size, i);
      SamePlace(i, index);
      assert BitsOf(data', size)[i] == BitOf(data'[i / 8], i % 8);
    }
  }

  /** The byte with bit k set or cleared. */
  function WithBit(b: bv8, k: nat, bit: bool): bv8
  {
    if bit then b | Mask(k) else b & !Mask(k)
  }

  lemma WithBitIs(b: bv8, k: nat, bit: bool)
    requires k < 8
    ensures forall j :: 0 <= j < 8 ==> BitOf(WithBit(b, k, bit), j) == if j == k then bit else BitOf(b, j)
  {
    hide BitOf, Mask;
    forall j | 0 <= j < 8 ensures BitOf(WithBit(b, k, bit), j) == if j == k then bit else BitOf(b, j) {
      SetBit(b, k, j);
    }
  }

  /** Full bytes, then a partial one: the first p bits. */
  lemma PrefixBytes(data: seq<bv8>, size: nat, p: nat)
    requires |data| == Bytes(size) && p <= size
    requires forall k :: 0 <= k < |data| ==> data[k] == if k < p / 8 then LowMask(8) else if k == p / 8 then LowMask(p % 8) else LowMask(0)
    ensures BitsOf(data, size) == PrefixBits(size, p)
  {
    hide BitOf, Bytes, LowMask, BitsOf;
    forall i | 0 <= i < size ensures BitsOf(data, size)[i] == (i < p) {
      BytePlace(size, i);
      LowMaskBit(8, i % 8);
      LowMaskBit(0, i % 8);
      LowMaskBit(p % 8, i % 8);
      Before(i, p);
    }
  }

  lemma Before(i: nat, p: nat)
    ensures i < p <==> i / 8 < p / 8 || (i / 8 == p / 8 && i % 8 < p % 8)
  {}

  /** The compiler builtins on one byte. */
  function PopCount8(b: bv8): nat { Count(Bits8(b)) }

  function CountTrailingZeros8(b: bv8): (n: nat)
    requires b != 0
    ensures n < 8 && BitOf(b, n) && forall i :: 0 <= i < n ==> !BitOf(b, i)
  {
    LeadingZerosMeaning(Bits8(b));
    NonZeroHasBit(b);
    LeadingZeros(Bits8(b))
  }

  /** Bits 8i to 8i + n, read from byte b: all zero when b is zero, else zero up to its lowest set bit. */
  lemma LeadingZerosInByte(data: seq<bv8>, size: nat, i: nat, b: bv8, n: nat)
    requires |data| == Bytes(size) && n <= 8 && 8 * i + n <= size && i < |data|
    requires if n == 8 then b == data[i] else b == KeepLow(data[i], n)
    ensures b == 0 ==> forall k :: 8 * i <= k < 8 * i + n ==> !BitsOf(data, size)[k]
    ensures b != 0 ==> CountTrailingZeros8(b) < n && BitsOf(data, size)[8 * i + CountTrailingZeros8(b)]
    ensures b != 0 ==> forall k :: 8 * i <= k < 8 * i + CountTrailingZeros8(b) ==> !BitsOf(data, size)[k]
  {
    hide BitOf, BitsOf, AndByte, OrByte, NotByte, KeepLow, ClearLowest, CountTrailingZeros8;
    NonZeroHasBit(b);
    if n < 8 { MaskedByte(data[i], n); }
    forall k | 8 * i <= k < 8 * i + n ensures BitsOf(data, size)[k] == BitOf(b, k - 8 * i) {
      BitInByte(data, size, i, k - 8 * i);
    }
  }

  lemma NoIndices(s: seq<bool>)
    requires s == []
    ensures Indices(s) == []
  {}

  /** byte holds the bits of b from position k on. */
  ghost predicate Rest(byte: bv8, b: bv8, k: nat)
  {
    forall j :: 0 <= j < 8 ==> (BitOf(byte, j) <==> BitOf(b, j) && k <= j)
  }

  lemma RestWithoutLowest(byte: bv8, b: bv8, k: nat)
    requires byte != 0 && k <= 8 && Rest(byte, b, k)
    ensures var bit := CountTrailingZeros8(byte);
            && k <= bit && Rest(ClearLowest(byte), b, bit + 1) && BitOf(b, bit)
            && forall j :: k <= j < bit ==> !BitOf(b, j)
  {
    var bit := CountTrailingZeros8(byte);
    forall j | 0 <= j < 8 ensures BitOf(ClearLowest(byte), j) <==> BitOf(byte, j) && j != bit {
      ClearsLowest(byte, bit, j);
    }
    hide BitOf, AndByte, OrByte, NotByte, KeepLow, ClearLowest, CountTrailingZeros8;
  }

  /** One round of the set-bit loop: the lowest remaining bit is the next index. */
  lemma NextIndex(data: seq<bv8>, size: nat, i: nat, bit: nat, k: nat)
    requires |data| == Bytes(size) && i < |data| && k <= bit < 8
    requires BitOf(data[i], bit) && forall j :: k <= j < bit ==> !BitOf(data[i], j)
    ensures var s := BitsOf(data, size);
            Indices(s[..Min(8 * i + bit + 1, size)]) ==
              Indices(s[..Min(8 * i + k, size)]) + if 8 * i + bit < size then [8 * i + bit] else []
  {
    hide Indices, BitOf, AndByte, OrByte, NotByte, KeepLow, ClearLowest;
    var s, idx := BitsOf(data, size), 8 * i + bit;
    forall m | Min(8 * i + k, size) <= m < Min(idx, size) ensures !s[m] {
      assert m / 8 == i && m % 8 == m - 8 * i;
    }
    IndicesSkip(s, Min(8 * i + k, size), Min(idx, size));
    if idx < size {
      assert idx / 8 == i && idx % 8 == bit;
      IndicesAppend(s, idx);
    }
  }

  lemma NoMoreIndices(data: seq<bv8>, size: nat, i: nat, k: nat)
    requires |data| == Bytes(size) && i < |data| && k <= 8 && Rest(0, data[i], k)
    ensures Indices(BitsOf(data, size)[..Min(8 * i + 8, size)]) == Indices(BitsOf(data, size)[..Min(8 * i + k, size)])
  {
    var s := BitsOf(data, size);
    NonZeroHasBit(0);
    hide Indices, BitOf, AndByte, OrByte, NotByte, KeepLow, ClearLowest;
    forall m | Min(8 * i + k, size) <= m < Min(8 * i + 8, size) ensures !s[m] {
      assert m / 8 == i && m % 8 == m - 8 * i;
    }
    IndicesSkip(s, Min(8 * i + k, size), Min(8 * i + 8, size));
  }

  class Bitmap {
    const size: nat
    const data: array<bv8>

    ghost predicate Valid()
    {
      data.Length == Bytes(size)
    }

    ghost function Bits(): (r: seq<bool>)
      requires Valid()
      reads data
      ensures |r| == size
    {
      BitsOf(data[..], size)
    }

    constructor (size: nat)
      ensures Valid() && fresh(data) && this.size == size
      ensures Bits() == PrefixBits(size, 0)
    {
      this.size := size;
      this.data := new bv8[Bytes(size)](_ => 0);
    }

    constructor Prefix(size: nat, prefixBits: nat)
      ensures Valid() && fresh(data) && this.size == size
      ensures Bits() == PrefixBits(size, prefixBits)
    {
      this.size := size;
      this.data := new bv8[Bytes(size)](_ => 0);
      new;
      if prefixBits == 0 || size == 0 { return; }
      var p := if prefixBits > size then size else prefixBits;
      var full := p / 8;
      for i := 0 to full
        invariant forall k :: 0 <= k < data.Length ==> data[k] == if k < i then 0xFF else 0
      {
        data[i] := 0xFF;
      }
      var remaining := p % 8;
      if remaining > 0 {
        data[full] := LowMask(remaining);
      }
      PrefixBytes(data[..], size, p);
    }

    method Set(index: nat)
      requires Valid()
      modifies data
      ensures Bits() == if index < size then old(Bits())[index := true] else old(Bits())
    {
      hide BitOf, BitsOf, Mask;
      if index >= size { return; }
      ghost var was := data[..];
      var changed := data[index / 8] | Mask(index % 8);
      assert changed == WithBit(data[index / 8], index % 8, true);
      WithBitIs(data[index / 8], index % 8, true);
      ChangedBit(was, size, index, changed, true);
      data[index / 8] := changed;
      assert data[..] == was[index / 8 := changed];
    }

    method Clear(index: nat)
      requires Valid()
      modifies data
      ensures Bits() == if index < size then old(Bits())[index := false] else old(Bits())
    {
      hide BitOf, BitsOf, Mask;
      if index >= size { return; }
      ghost var was := data[..];
      var changed := data[index / 8] & !Mask(index % 8);
      assert changed == WithBit(data[index / 8], index % 8, false);
      WithBitIs(data[index / 8], index % 8, false);
      ChangedBit(was, size, index, changed, false);
      data[index / 8] := changed;
      assert data[..] == was[index / 8 := changed];
    }

    method Test(index: nat) returns (bit: bool)
      requires Valid()
      ensures bit <==> index < size && Bits()[index]
    {
      if index >= size { return false; }
      bit := (data[index / 8] >> (index % 8)) & 1 == 1;
      MasksAreShifts(data[index / 8], index % 8);
    }

    method Popcount() returns (count: nat)
      requires Valid()
      ensures count == Count(Bits())
    {
      hide Count, Bits8, PopCount8, BitsOf, BitOf, AndByte, OrByte, NotByte, KeepLow, ClearLowest;
      if data.Length == 0 { CountZeros(Bits()); return 0; }
      count := 0;
      CountZeros(Bits()[..0]);
      var full := size / 8;
      for i := 0 to full
        invariant count == Count(Bits()[..8 * i])
      {
        CountByte(data[..], size, i);
        count := count + PopCount8(data[i]);
      }
      assert size % 8 == 0 ==> Bits()[..8 * full] == Bits();
      var remaining := size % 8;
      if remaining > 0 {
        var lastByte := KeepLow(data[data.Length - 1], remaining);
        CountLastByte(data[..], size, lastByte);
        count := count + PopCount8(lastByte);
      }
    }

    method Clz() returns (count: nat)
      requires Valid()
      ensures count == LeadingZeros(Bits())
    {
      hide LeadingZeros, CountTrailingZeros8, BitsOf, BitOf, AndByte, OrByte, NotByte, KeepLow, ClearLowest;
      if size == 0 { LeadingZerosAt(Bits(), 0); return 0; }
      var full := size / 8;
      count := 0;
      for i := 0 to full
        invariant count == 8 * i && forall k :: 0 <= k < 8 * i ==> !Bits()[k]
      {
        LeadingZerosInByte(data[..], size, i, data[i], 8);
        if data[i] == 0 {
          count := count + 8;
        } else {
          count := count + CountTrailingZeros8(data[i]);
          LeadingZerosAt(Bits(), count);
          return count;
        }
      }
      var remaining := size % 8;
      if remaining > 0 {
        var lastByte := KeepLow(data[data.Length - 1], remaining);
        LeadingZerosInByte(data[..], size, full, lastByte, remaining);
        if lastByte == 0 {
          count := count + remaining;
        } else {
          count := count + CountTrailingZeros8(lastByte);
        }
      }
      LeadingZerosAt(Bits(), count);
    }

    method Clo() returns (count: nat)
      requires Valid()
      ensures count == LeadingOnes(Bits())
    {
      var inverted := Not();
      count := inverted.Clz();
      LeadingOnesIsZerosOfNot(Bits());
    }

    method And(other: Bitmap) returns (result: Bitmap)
      requires Valid() && other.Valid()
      ensures result.Valid() && fresh(result) && fresh(result.data)
      ensures result.Bits() == AndBits(Bits(), other.Bits())
    {
      hide BitsOf, BitOf, AndByte, OrByte, NotByte, KeepLow, ClearLowest;
      var resultSize := if size <= other.size then size else other.size;
      result := new Bitmap(resultSize);
      for i := 0 to result.data.Length
        invariant forall k :: 0 <= k < i ==> result.data[k] == AndByte(data[k], other.data[k])
      {
        result.data[i] := AndByte(data[i], other.data[i]);
      }
      PackedAnd(data[..], size, other.data[..], other.size, result.data[..]);
    }

    method Or(other: Bitmap) returns (result: Bitmap)
      requires Valid() && other.Valid()
      ensures result.Valid() && fresh(result) && fresh(result.data)
      ensures result.Bits() == OrBits(Bits(), other.Bits())
    {
      hide BitsOf, BitOf, AndByte, OrByte, NotByte, KeepLow, ClearLowest;
      var resultSize := if size <= other.size then size else other.size;
      result := new Bitmap(resultSize);
      for i := 0 to result.data.Length
        invariant forall k :: 0 <= k < i ==> result.data[k] == OrByte(data[k], other.data[k])
      {
        result.data[i] := OrByte(data[i], other.data[i]);
      }
      PackedOr(data[..], size, other.data[..], other.size, result.data[..]);
    }

    /** Unlike `&` and `|`, `~` also clears the padding. */
    method Not() returns (result: Bitmap)
      requires Valid()
      ensures result.Valid() && fresh(result) && fresh(result.data)
      ensures result.Bits() == NotBits(Bits())
      ensures size % 8 > 0 ==> NoPadding(result.data[result.data.Length - 1], size % 8)
    {
      hide BitsOf, BitOf, AndByte, OrByte, NotByte, KeepLow, ClearLowest;
      result := new Bitmap(size);
      for i := 0 to data.Length
        invariant forall k :: 0 <= k < i ==> result.data[k] == NotByte(data[k])
      {
        result.data[i] := NotByte(data[i]);
      }
      var remaining := size % 8;
      if remaining > 0 {
        var last := data.Length - 1;
        result.data[last] := KeepLow(result.data[last], remaining);
      }
      PackedNot(data[..], size, result.data[..]);
    }

    method GetIndices() returns (indices: seq<nat>)
      requires Valid()
      ensures indices == Indices(Bits())
    {
      hide Indices, CountTrailingZeros8, BitOf, AndByte, OrByte, NotByte, KeepLow, ClearLowest;
      indices := [];
      NoIndices(Bits()[..0]);
      for i := 0 to data.Length
        invariant indices == Indices(Bits()[..Min(8 * i, size)])
      {
        var byte := data[i];
        ghost var k := 0;
        while byte != 0
          invariant k <= 8 && Rest(byte, data[i], k)
          invariant indices == Indices(Bits()[..Min(8 * i + k, size)])
          decreases 8 - k
        {
          var bit := CountTrailingZeros8(byte);
          var idx := i * 8 + bit;
          RestWithoutLowest(byte, data[i], k);
          NextIndex(data[..], size, i, bit, k);
          if idx < size {
            indices := indices + [idx];
          }
          byte := ClearLowest(byte);
          k := bit + 1;
        }
        NoMoreIndices(data[..], size, i, k);
      }
      assert Bits()[..size] == Bits();
    }

    method GetIndicesSet() returns (indices: set<nat>)
      requires Valid()
      ensures indices == set i | 0 <= i < size && Bits()[i]
    {
      var list := GetIndices();
      IndicesMeaning(Bits());
      indices := set i | i in list;
    }

    method ToString() returns (text: string)
      requires Valid()
      ensures |text| == size && forall i :: 0 <= i < size ==> text[i] == if Bits()[i] then '1' else '0'
    {
      hide BitOf, BitsOf;
      if size == 0 { return ""; }
      var result := new char[size](_ => '0');
      for i := 0 to data.Length
        invariant forall k :: 0 <= k < size ==> result[k] == if k < 8 * i && Bits()[k] then '1' else '0'
      {
        var byte := data[i];
        for j := 0 to 8
          invariant forall k :: 0 <= k < size ==> result[k] == if k < 8 * i + j && Bits()[k] then '1' else '0'
        {
          var bitIndex := i * 8 + j;
          if bitIndex >= size { break; }
          MasksAreShifts(byte, j);
          BitInByte(data[..], size, i, j);
          if (byte >> j) & 1 == 1 {
            result[bitIndex] := '1';
          }
        }
      }
      text := result[..];
    }
  }
}
