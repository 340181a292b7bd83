/**
 * Where franken/malloc/malloc.c puts a request: the bucket search and the aligned address inside
 * the block. Masks with a power of two are written as remainders.
 */
module Placement {
  import opened Bytes
  import opened Options

  const MINSHIFT: nat := 5
  const NBUCKETS: nat := 30
  const MINALIGN: nat := 16
  /** sizeof(union overhead) with 64-bit longs. */
  const OVERHEAD: nat := 16
  const TWO31: nat := 0x8000_0000

  function Pow2(k: nat): (p: nat)
    ensures p > 0
  {
    if k == 0 then 1 else 2 * Pow2(k - 1)
  }

  /** Bytes in a block of bucket `b`. */
  function Size(b: nat): nat {
    Pow2(b + MINSHIFT)
  }

  lemma {:induction false} Pow2Monotone(i: nat, j: nat)
    requires i < j
    ensures 2 * Pow2(i) <= Pow2(j)
    decreases j
  {
    if i < j - 1 {
      Pow2Monotone(i, j - 1);
    }
  }

  lemma {:induction false} Pow2Add(i: nat, j: nat)
    ensures Pow2(i + j) == Pow2(i) * Pow2(j)
  {
    if i > 0 {
      Pow2Add(i - 1, j);
      Regroup(2, Pow2(i - 1), Pow2(j));
    }
  }

  lemma Pow2Table()
    ensures Pow2(5) == 32 && Pow2(31) == TWO31 && Pow2(32) == TWO32
  {
    assert Pow2(8) == 256 && Pow2(16) == 65536 by { Pow2Add(8, 8); }
    Pow2Add(16, 15);
    assert Pow2(15) == 32768;
  }

  /** `x & (x - 1)` is zero: zero or a power of two. */
  predicate PowerOfTwoOrZero(x: nat) {
    x == 0 || IsPow2(x)
  }

  predicate IsPow2(x: nat)
    decreases x
  {
    x == 1 || (x > 0 && x % 2 == 0 && IsPow2(x / 2))
  }

  /** `(x + a - 1) & ~(a - 1)` for a power of two `a`. */
  function RoundUp(x: nat, a: nat): (r: nat)
    requires a > 0
  {
    (x + a - 1) / a * a
  }

  /** The first multiple of `a` not below `x`. */
  lemma RoundUpIs(x: nat, a: nat)
    requires a > 0
    ensures RoundUp(x, a) % a == 0 && x <= RoundUp(x, a) < x + a
    ensures x % a == 0 ==> RoundUp(x, a) == x
  {
    var q := (x + a - 1) / a;
    assert q * a + (x + a - 1) % a == x + a - 1;
    assert (q * a) % a == 0 by { MulMod(q, a); }
    if x % a == 0 {
      var k := x / a;
      assert x == k * a;
      assert q == k by { DivUnique(x + a - 1, a, k); }
    }
  }

  lemma Scale(d: int, e: int, a: nat)
    ensures d <= e ==> d * a <= e * a
  {
  }

  lemma SmallMultiple(d: int, a: int)
    requires -a < d * a < a
    ensures d == 0
  {
    assert d >= 1 ==> d * a >= a by { Scale(1, d, a); }
    assert d <= -1 ==> d * a <= -a by { Scale(d, -1, a); }
  }

  lemma DivUnique(x: nat, a: nat, k: int)
    requires a > 0 && k * a <= x < k * a + a
    ensures x / a == k && x % a == x - k * a
  {
    var q, r := x / a, x % a;
    assert x == q * a + r;
    assert (q - k) * a == q * a - k * a;
    SmallMultiple(q - k, a);
  }

  lemma MulMod(q: nat, a: nat)
    requires a > 0
    ensures (q * a) % a == 0
  {
    DivUnique(q * a, a, q);
  }

  lemma {:induction false} Pow2Of(x: nat) returns (k: nat)
    requires IsPow2(x)
    ensures x == Pow2(k)
  {
    if x == 1 {
      k := 0;
    } else {
      k := Pow2Of(x / 2);
      k := k + 1;
    }
  }

  // ----- the bucket search -----

  /** `b` is the bucket of the smallest blocks that hold `allocbytes`. */
  ghost predicate SmallestBucket(b: nat, allocbytes: nat) {
    allocbytes <= Size(b) && forall c | 0 <= c < b :: Size(c) < allocbytes
  }

  lemma SmallestIsUnique(b: nat, c: nat, allocbytes: nat)
    requires SmallestBucket(b, allocbytes) && SmallestBucket(c, allocbytes)
    ensures b == c
  {
  }

  /** The bucket whose blocks are pages. */
  method PageBucket(pagesz: nat) returns (bucket: nat)
    requires IsPow2(pagesz) && 32 <= pagesz <= TWO31
    ensures Size(bucket) == pagesz && bucket <= 26
  {
    ghost var k := Pow2Of(pagesz);
    Pow2Table();
    var amt := 32;
    bucket := 0;
    assert k >= 5 by { if k < 5 { Pow2Monotone(k, 5); } }
    assert k <= 31 by { if k > 31 { Pow2Monotone(31, k); } }
    while pagesz > amt
      invariant amt == Size(bucket) && bucket + 5 <= k
      decreases k - bucket
    {
      amt := amt * 2;
      bucket := bucket + 1;
    }
    if bucket + 5 < k {
      Pow2Monotone(bucket + 5, k);
    }
  }

  /**
   * The search from one of two starting points, in a 32-bit `amt` that doubles until it overflows
   * to zero: the smallest bucket that fits, or none when even 2 GiB is too small.
   */
  method FindBucket(allocbytes: nat, pagesz: nat, pagebucket: nat) returns (bucket: Option<nat>)
    requires Size(pagebucket) == pagesz && pagebucket <= 26
    ensures bucket.None? <==> allocbytes > TWO31
    ensures bucket.Some? ==> bucket.value <= 26 < NBUCKETS && SmallestBucket(bucket.value, allocbytes)
  {
    Pow2Table();
    var amt, b := 32, 0;
    if allocbytes > pagesz {
      forall c | 0 <= c < pagebucket ensures Size(c) < allocbytes { Pow2Monotone(c + MINSHIFT, pagebucket + MINSHIFT); }
      PageFits(pagebucket);
      amt, b := pagesz % TWO32, pagebucket;
    }
    while allocbytes > amt
      invariant amt == Size(b) && b <= 26
      invariant forall c | 0 <= c < b :: Size(c) < allocbytes
      decreases 26 - b
    {
      assert Size(b + 1) == 2 * amt;
      if b == 26 {
        assert amt == TWO31;
      } else {
        PageFits(b + 1);
      }
      amt := amt * 2 % TWO32;
      if amt == 0 {
        return None;
      }
      b := b + 1;
    }
    PageFits(b);
    return Some(b);
  }

  lemma PageFits(b: nat)
    requires b <= 26
    ensures 32 <= Size(b) <= TWO31
  {
    Pow2Table();
    if b < 26 {
      Pow2Monotone(b + 5, 31);
    }
    if b > 0 {
      Pow2Monotone(5, b + 5);
    }
  }

  // ----- the address inside the block -----

  /** What the source adds up, in 64-bit arithmetic. */
  function AllocBytes(align: nat, nbytes: nat): nat
    requires align > 0
  {
    (nbytes + RoundUp(OVERHEAD, align)) % TWO64
  }

  function PayloadAt(op: nat, align: nat): nat
    requires align > 0
  {
    RoundUp(op + OVERHEAD, align)
  }

  lemma HeaderAllowance(align: nat)
    requires align >= MINALIGN
    ensures RoundUp(OVERHEAD, align) == align
  {
    DivUnique(OVERHEAD + align - 1, align, 1);
  }

  lemma Multiple16(align: nat)
    requires IsPow2(align) && align >= MINALIGN
    ensures align % 16 == 0
  {
    assert IsPow2(align / 2) && IsPow2(align / 2 / 2) && IsPow2(align / 2 / 2 / 2);
  }

  /** Multiples of 16 on both sides leave a gap that is one too. */
  lemma GapIs16(rv: nat, op: nat, align: nat)
    requires align % 16 == 0 && op % 16 == 0 && align > 0 && rv % align == 0 && op + 16 <= rv < op + 16 + align
    ensures rv <= op + align
  {
    MultipleOfMultiple(rv, align, 16);
  }

  lemma MultipleOfMultiple(x: nat, a: nat, b: nat)
    requires a > 0 && b > 0 && x % a == 0 && a % b == 0
    ensures x % b == 0
  {
    Divides(x, a);
    Divides(a, b);
    Nested(x / a, a / b, b);
  }

  lemma Divides(x: nat, a: nat)
    requires a > 0 && x % a == 0
    ensures x == x / a * a
  {
  }

  lemma Nested(k: nat, j: nat, b: nat)
    requires b > 0
    ensures (k * (j * b)) % b == 0
  {
    Regroup(k, j, b);
    MulMod(k * j, b);
  }

  lemma Regroup(k: nat, j: nat, b: nat)
    ensures k * (j * b) == (k * j) * b
  {
  }

  /**
   * Aligned, with room for the header below and, unless the 64-bit sum wrapped, with all `nbytes`
   * inside the block.
   */
  lemma PayloadPlaced(op: nat, align: nat, nbytes: nat, b: nat)
    requires IsPow2(align) && align >= MINALIGN && op % 16 == 0
    requires AllocBytes(align, nbytes) <= Size(b)
    ensures PayloadAt(op, align) % align == 0
    ensures op + OVERHEAD <= PayloadAt(op, align)
    ensures nbytes + align < TWO64 ==> PayloadAt(op, align) + nbytes <= op + Size(b)
  {
    hide RoundUp, IsPow2, Size;
    HeaderAllowance(align);
    RoundUpIs(op + OVERHEAD, align);
    Multiple16(align);
    GapIs16(PayloadAt(op, align), op, align);
  }

  /** The source leaves the sum unchecked: the request fits its block exactly when the sum does not wrap. */
  lemma FitsExactlyWhenNoWrap(op: nat, align: nat, nbytes: nat, b: nat)
    requires IsPow2(align) && MINALIGN <= align < TWO64 && nbytes < TWO64 && op % 16 == 0
    requires AllocBytes(align, nbytes) <= Size(b) && b <= 26
    ensures PayloadAt(op, align) + nbytes <= op + Size(b) <==> nbytes + align < TWO64
  {
    PayloadPlaced(op, align, nbytes, b);
    PageFits(b);
    assert align <= TWO64 / 2 by { HalfWord(align); }
  }

  lemma HalfWord(align: nat)
    requires IsPow2(align) && align < TWO64
    ensures align <= TWO64 / 2
  {
    var k := Pow2Of(align);
    Pow2Table();
    assert Pow2(64) == TWO64 by { Pow2Add(32, 32); }
    if k >= 64 {
      if k > 64 {
        Pow2Monotone(64, k);
      }
    } else if k < 63 {
      Pow2Monotone(k, 63);
    }
  }

  lemma AllocIs(align: nat, nbytes: nat)
    requires MINALIGN <= align < TWO64 && nbytes < TWO64
    ensures AllocBytes(align, nbytes) == if nbytes + align < TWO64 then nbytes + align else nbytes + align - TWO64
  {
    hide RoundUp;
    HeaderAllowance(align);
  }

  /** What a caller must keep to for the payload to begin inside its block even though the sum wraps. */
  predicate Placeable(align: nat, nbytes: nat) {
    nbytes + align < TWO64 || align <= 32 || 2 * (nbytes + align - TWO64) > align
  }

  /** That is exact: the payload begins inside the block, wherever the block lies, if and only if it holds. */
  lemma StaysInBlockExactly(align: nat, nbytes: nat, b: nat)
    requires IsPow2(align) && MINALIGN <= align < TWO64 && nbytes < TWO64
    requires SmallestBucket(b, AllocBytes(align, nbytes))
    ensures (forall op: nat | op % 16 == 0 :: PayloadAt(op, align) <= op + Size(b)) <==> Placeable(align, nbytes)
  {
    hide RoundUp, IsPow2;
    HeaderAllowance(align);
    Multiple16(align);
    if Placeable(align, nbytes) {
      BlockIsLarge(align, nbytes, b);
      forall op: nat | op % 16 == 0
        ensures PayloadAt(op, align) <= op + Size(b)
      {
        PayloadBelow(op, align);
      }
    } else {
      BlockIsSmall(align, nbytes, b);
      RoundUpIs(align + OVERHEAD, align);
      assert PayloadAt(align, align) > align + Size(b) by { NextMultiple(PayloadAt(align, align), align); }
    }
  }

  lemma PayloadBelow(op: nat, align: nat)
    requires IsPow2(align) && align >= MINALIGN && op % 16 == 0
    ensures op + OVERHEAD <= PayloadAt(op, align) <= op + align
  {
    hide RoundUp, IsPow2;
    RoundUpIs(op + OVERHEAD, align);
    Multiple16(align);
    GapIs16(PayloadAt(op, align), op, align);
  }

  lemma NextMultiple(x: nat, a: nat)
    requires a > 0 && x % a == 0 && x > a
    ensures x >= 2 * a
  {
    var k := x / a;
    assert x == k * a;
    assert k >= 2 by { Scale(k, 1, a); }
    Scale(2, k, a);
  }

  lemma BlockIsLarge(align: nat, nbytes: nat, b: nat)
    requires IsPow2(align) && MINALIGN <= align < TWO64 && nbytes < TWO64 && Placeable(align, nbytes)
    requires SmallestBucket(b, AllocBytes(align, nbytes))
    ensures align <= Size(b)
  {
    hide RoundUp, IsPow2, Pow2, AllocBytes;
    AllocIs(align, nbytes);
    var k := Pow2Of(align);
    Pow2Table();
    if k > b + MINSHIFT {
      Pow2Monotone(b + MINSHIFT, k);
      if b > 0 {
        Pow2Monotone(MINSHIFT, b + MINSHIFT);
      }
    } else if k < b + MINSHIFT {
      Pow2Monotone(k, b + MINSHIFT);
    }
  }

  lemma BlockIsSmall(align: nat, nbytes: nat, b: nat)
    requires IsPow2(align) && MINALIGN <= align < TWO64 && nbytes < TWO64 && !Placeable(align, nbytes)
    requires SmallestBucket(b, AllocBytes(align, nbytes))
    ensures Size(b) < align
  {
    hide RoundUp, IsPow2, AllocBytes;
    AllocIs(align, nbytes);
    Pow2Table();
    if b > 0 {
      assert Size(b - 1) < AllocBytes(align, nbytes);
    }
  }

  /** aligned_alloc(64, 2^64 - 64) would place the payload of a 32-byte block past its end. */
  lemma PlacedOutside()
    ensures !Placeable(64, TWO64 - 64) && SmallestBucket(0, AllocBytes(64, TWO64 - 64))
      && PayloadAt(64, 64) == 128 > 64 + Size(0)
  {
    hide Pow2, AllocBytes;
    AllocIs(64, TWO64 - 64);
    Pow2Table();
  }

  /** With the default alignment every request whose sum wraps gets the smallest block: 16 usable bytes. */
  lemma WrappedBlock(op: nat, nbytes: nat)
    requires op % 16 == 0 && nbytes < TWO64 <= nbytes + MINALIGN
    ensures SmallestBucket(0, AllocBytes(MINALIGN, nbytes)) && PayloadAt(op, MINALIGN) + 16 == op + Size(0)
  {
    hide RoundUp, Pow2, AllocBytes;
    AllocIs(MINALIGN, nbytes);
    RoundUpIs(op + OVERHEAD, MINALIGN);
    Pow2Table();
  }

  /** calloc(2^32, 2^32) asks for nothing and is granted a 32-byte block. */
  lemma WrappedProduct()
    ensures TWO32 * TWO32 % TWO64 == 0 && SmallestBucket(0, AllocBytes(MINALIGN, 0)) && Size(0) == 32 < TWO32 * TWO32
  {
    hide RoundUp, Pow2, AllocBytes;
    AllocIs(MINALIGN, 0);
    Pow2Table();
  }

  /** malloc(2^64 - 8) is granted a 32-byte block. */
  lemma WrappedRequest()
    ensures AllocBytes(16, TWO64 - 8) == 8 <= Size(0)
    ensures PayloadAt(4096, 16) + (TWO64 - 8) > 4096 + Size(0)
  {
    hide RoundUp, Pow2;
    HeaderAllowance(16);
    RoundUpIs(4096 + OVERHEAD, 16);
    Pow2Table();
  }
}
