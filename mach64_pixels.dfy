/*
 * The Mach64 drawing engine's `READ` and `WRITE` pixel helpers over video
 * memory. A pixel address `a` is a 32-bit unsigned value; the pixel size
 * picks how it reaches memory:
 *   0  one byte at `a`,
 *   1  a little-endian 16-bit value at `a << 1`,
 *   2  a little-endian 32-bit value at `a << 2`,
 *   3  one bit of the byte at `a >> 3`, bit `a & 7` or `7 - (a & 7)`
 *      depending on DP_BYTE_PIX_ORDER (the macros treat every size other
 *      than 0, 1 and 2 this way).
 * Every byte address is masked with `vram_mask`, i.e. taken modulo the
 * memory size `n`, a power of two that divides 2^32 and is at least 4.
 */
module Mach64Pixels {
  import opened Mach64Lanes

  /** The size code of 1-bit pixels (`WIDTH_1BIT`). */
  const Width1Bit := 3

  const Two32 := 0x1_0000_0000

  /** A memory size the engine can address with `& vram_mask`. */
  predicate Shape(n: int)
  {
    n >= 4 && n % 4 == 0 && Two32 % n == 0
  }

  /** The 32-bit unsigned value of `x` (C's conversion to `uint32_t`). */
  function U32(x: int): (r: int)
    ensures 0 <= r < Two32
  {
    x % Two32
  }

  /** The pixel address of column `x`, row `y` of a surface at `offset` with `pitch` pixels per row. */
  function PixelAddr(offset: bv32, pitch: bv32, x: int, y: int): (r: int)
    ensures 0 <= r < Two32
  {
    U32(offset as int + y * pitch as int + x)
  }

  /** The number of bytes a pixel of size `size` occupies (the 1-bit size shares one byte). */
  function Span(size: int): int
  {
    if size == 1 then 2 else if size == 2 then 4 else 1
  }

  /**
   * The first byte a pixel of size `size` at address `a` occupies. For
   * sizes 1 and 2 this is the source's `((a << k) & 0xffffffff) & vram_mask`
   * written as a multiple of the pixel's width (`MaskedBase` proves the two
   * agree), which shows that all of the pixel's bytes fit.
   */
  function Base(a: int, size: int, n: int): (i: int)
    requires Shape(n)
    ensures 0 <= i && i + Span(size) <= n
  {
    if size == 0 then U32(a) % n
    else if size == 1 then 2 * (U32(a) % (n / 2))
    else if size == 2 then 4 * (U32(a) % (n / 4))
    else (U32(a) / 8) % n
  }

  /** The bit of its byte a 1-bit pixel occupies. */
  function BitPos(a: int, lsbFirst: bool): (p: int)
    ensures 0 <= p < 8
  {
    if lsbFirst then U32(a) % 8 else 7 - U32(a) % 8
  }

  /** The mask of bit `p` of a byte. */
  function BitMask(p: int): bv8
    requires 0 <= p < 8
  {
    (1 as bv8) << p
  }

  /** Byte `b` with bit `p` set (`on`) or cleared. */
  function SetBit(b: bv8, p: int, on: bool): bv8
    requires 0 <= p < 8
  {
    if on then b | BitMask(p) else b & !BitMask(p)
  }

  /** `a * d >= d` for a positive multiplier. */
  lemma MulAtLeast(a: int, d: int)
    requires a >= 1 && d > 0
    ensures a * d >= d
  {
    assert a * d == (a - 1) * d + d;
    assert (a - 1) * d >= 0;
  }

  /** The remainder is the unique `r` with `x == q * d + r` and `0 <= r < d`. */
  lemma ModUnique(x: int, d: int, q: int, r: int)
    requires d > 0 && x == q * d + r && 0 <= r < d
    ensures x % d == r
  {
    var q' := x / d;
    var r' := x % d;
    assert (q - q') * d == r' - r;
    if q > q' {
      MulAtLeast(q - q', d);
    } else if q < q' {
      MulAtLeast(q' - q, d);
    }
  }

  /** Scaling both operands of `%` scales the remainder. */
  lemma ScaledMod(j: int, k: int, m: int)
    requires k > 0 && m > 0
    ensures (k * j) % (k * m) == k * (j % m)
  {
    var q := j / m;
    var r := j % m;
    assert j == q * m + r;
    assert k * j == q * (k * m) + k * r;
    ModUnique(k * j, k * m, q, k * r);
  }

  /** Scaling the address and masking the result picks the same byte as `Base` for 16- and 32-bit pixels. */
  lemma MaskedBase(a: int, n: int)
    requires Shape(n)
    ensures U32(2 * a) % n == Base(a, 1, n)
    ensures U32(4 * a) % n == Base(a, 2, n)
  {
    ShiftMask(a, 2, n);
    ShiftMask(a, 4, n);
  }

  /** `((k * a) mod 2^32) mod n == k * ((a mod 2^32) mod (n / k))` when `k` divides `n` and `n` divides 2^32. */
  lemma ShiftMask(a: int, k: int, n: int)
    requires Shape(n) && (k == 2 || k == 4)
    ensures U32(k * a) % n == k * (U32(a) % (n / k))
  {
    var m := n / k;
    var c := Two32 / n;
    assert n == k * m;
    assert Two32 == n * c;
    var big := m * c;
    assert Two32 == k * big;
    ScaledMod(a, k, big);
    var t := a % big;
    assert U32(k * a) == k * t;
    ScaledMod(t, k, m);
    assert U32(k * a) % n == k * (t % m);
    ModOfMultiple(a, m, c);
    assert t % m == a % m;
    ModOfMultiple(a, m, k * c);
    assert m * (k * c) == Two32;
    assert U32(a) % m == a % m;
  }

  /** Reducing modulo a multiple of `m` first does not change the remainder modulo `m`. */
  lemma ModOfMultiple(a: int, m: int, c: int)
    requires m > 0 && c > 0
    ensures (a % (m * c)) % m == a % m
  {
    var q := a / (m * c);
    var t := a % (m * c);
    assert a == (q * c) * m + t;
    assert t == (t / m) * m + t % m;
    assert a == (q * c + t / m) * m + t % m;
    ModUnique(a, m, q * c + t / m, t % m);
  }

  /** The `READ` macro: the pixel at address `a`, zero-extended to 32 bits. */
  function ReadPixel(m: seq<bv8>, a: int, size: int, lsbFirst: bool): bv32
    requires Shape(|m|)
  {
    var i := Base(a, size, |m|);
    if size == 0 then m[i] as bv32
    else if size == 1 then Compose16(m[i], m[i + 1])
    else if size == 2 then Compose32(m[i], m[i + 1], m[i + 2], m[i + 3])
    else if m[i] & BitMask(BitPos(a, lsbFirst)) != 0 then 1 else 0
  }

  /** The `WRITE` macro: memory with the pixel at address `a` replaced by `v`, cut to the pixel size. */
  function WritePixel(m: seq<bv8>, a: int, size: int, lsbFirst: bool, v: bv32): (m': seq<bv8>)
    requires Shape(|m|)
    ensures |m'| == |m|
  {
    var i := Base(a, size, |m|);
    if size == 0 then m[i := GetLane(0, v)]
    else if size == 1 then m[i := GetLane(0, v)][i + 1 := GetLane(1, v)]
    else if size == 2 then m[i := GetLane(0, v)][i + 1 := GetLane(1, v)][i + 2 := GetLane(2, v)][i + 3 := GetLane(3, v)]
    else m[i := SetBit(m[i], BitPos(a, lsbFirst), v & 1 != 0)]
  }

  /** The part of `v` a pixel of size `size` keeps. */
  function Fit(v: bv32, size: int): bv32
  {
    if size == 0 then v & 0xff
    else if size == 1 then v & 0xffff
    else if size == 2 then v
    else v & 1
  }

  /** The 4 KB block of memory a pixel's write marks as changed. */
  function Block(a: int, size: int, n: int): int
    requires Shape(n)
  {
    Base(a, size, n) / 4096
  }

  /** Reading a pixel back after writing it gives the written value, cut to the pixel size. */
  lemma ReadAfterWrite(m: seq<bv8>, a: int, size: int, lsbFirst: bool, v: bv32)
    requires Shape(|m|)
    ensures ReadPixel(WritePixel(m, a, size, lsbFirst, v), a, size, lsbFirst) == Fit(v, size)
  {
    if size == 0 {
      ReadAfterWriteByte(m, a, lsbFirst, v);
    } else if size == 1 {
      ReadAfterWriteHalf(m, a, lsbFirst, v);
    } else if size == 2 {
      ReadAfterWriteWord(m, a, lsbFirst, v);
    } else {
      ReadAfterWriteBit(m, a, size, lsbFirst, v);
    }
  }

  lemma ReadAfterWriteByte(m: seq<bv8>, a: int, lsbFirst: bool, v: bv32)
    requires Shape(|m|)
    ensures ReadPixel(WritePixel(m, a, 0, lsbFirst, v), a, 0, lsbFirst) == v & 0xff
  {
    var i := Base(a, 0, |m|);
    assert WritePixel(m, a, 0, lsbFirst, v)[i] == GetLane(0, v);
  }

  lemma ReadAfterWriteHalf(m: seq<bv8>, a: int, lsbFirst: bool, v: bv32)
    requires Shape(|m|)
    ensures ReadPixel(WritePixel(m, a, 1, lsbFirst, v), a, 1, lsbFirst) == v & 0xffff
  {
    var i := Base(a, 1, |m|);
    var m' := WritePixel(m, a, 1, lsbFirst, v);
    assert m'[i] == GetLane(0, v) && m'[i + 1] == GetLane(1, v);
    LowHalf(v);
  }

  lemma ReadAfterWriteWord(m: seq<bv8>, a: int, lsbFirst: bool, v: bv32)
    requires Shape(|m|)
    ensures ReadPixel(WritePixel(m, a, 2, lsbFirst, v), a, 2, lsbFirst) == v
  {
    var i := Base(a, 2, |m|);
    var m' := WritePixel(m, a, 2, lsbFirst, v);
    assert m'[i] == GetLane(0, v) && m'[i + 1] == GetLane(1, v);
    assert m'[i + 2] == GetLane(2, v) && m'[i + 3] == GetLane(3, v);
    ComposeLanes(v);
  }

  lemma ReadAfterWriteBit(m: seq<bv8>, a: int, size: int, lsbFirst: bool, v: bv32)
    requires Shape(|m|) && size != 0 && size != 1 && size != 2
    ensures ReadPixel(WritePixel(m, a, size, lsbFirst, v), a, size, lsbFirst) == v & 1
  {
    BitReadBack(m[Base(a, size, |m|)], BitPos(a, lsbFirst), v);
  }

  /** The two low lanes of `v` compose to its low 16 bits. */
  lemma LowHalf(v: bv32)
    ensures Compose16(GetLane(0, v), GetLane(1, v)) == v & 0xffff
  {
  }

  /** Setting or clearing bit `p` of `b` as `v & 1` says reads back as `v & 1`. */
  lemma BitReadBack(b: bv8, p: int, v: bv32)
    requires 0 <= p < 8
    ensures var b' := SetBit(b, p, v & 1 != 0);
            (if b' & BitMask(p) != 0 then 1 else 0) == v & 1
  {
    if p == 0 {} else if p == 1 {} else if p == 2 {} else if p == 3 {}
    else if p == 4 {} else if p == 5 {} else if p == 6 {} else {}
  }

  /** A pixel write changes no byte outside the pixel. */
  lemma WriteFrame(m: seq<bv8>, a: int, size: int, lsbFirst: bool, v: bv32, k: int)
    requires Shape(|m|) && 0 <= k < |m|
    requires !(Base(a, size, |m|) <= k < Base(a, size, |m|) + Span(size))
    ensures WritePixel(m, a, size, lsbFirst, v)[k] == m[k]
  {
  }

  /** A 1-bit write changes only its own bit of the byte. */
  lemma BitFrame(b: bv8, p: int, q: int, v: bv32)
    requires 0 <= p < 8 && 0 <= q < 8 && p != q
    ensures var b' := SetBit(b, p, v & 1 != 0);
            b' & BitMask(q) == b & BitMask(q)
  {
    if p == 0 {} else if p == 1 {} else if p == 2 {} else if p == 3 {}
    else if p == 4 {} else if p == 5 {} else if p == 6 {} else {}
  }

  /** A pixel read is already cut to the pixel size. */
  lemma ReadFits(m: seq<bv8>, a: int, size: int, lsbFirst: bool)
    requires Shape(|m|)
    ensures Fit(ReadPixel(m, a, size, lsbFirst), size) == ReadPixel(m, a, size, lsbFirst)
  {
  }

  /** Writing back the value just read leaves memory as it was. */
  lemma WriteBack(m: seq<bv8>, a: int, size: int, lsbFirst: bool)
    requires Shape(|m|)
    ensures WritePixel(m, a, size, lsbFirst, ReadPixel(m, a, size, lsbFirst)) == m
  {
    if size == 0 {
      WriteBackByte(m, a, lsbFirst);
    } else if size == 1 {
      WriteBackHalf(m, a, lsbFirst);
    } else if size == 2 {
      WriteBackWord(m, a, lsbFirst);
    } else {
      WriteBackBit(m, a, size, lsbFirst);
    }
  }

  lemma WriteBackByte(m: seq<bv8>, a: int, lsbFirst: bool)
    requires Shape(|m|)
    ensures WritePixel(m, a, 0, lsbFirst, ReadPixel(m, a, 0, lsbFirst)) == m
  {
    var i := Base(a, 0, |m|);
    assert GetLane(0, m[i] as bv32) == m[i];
  }

  lemma WriteBackHalf(m: seq<bv8>, a: int, lsbFirst: bool)
    requires Shape(|m|)
    ensures WritePixel(m, a, 1, lsbFirst, ReadPixel(m, a, 1, lsbFirst)) == m
  {
    var i := Base(a, 1, |m|);
    HalfLanes(m[i], m[i + 1]);
  }

  lemma WriteBackWord(m: seq<bv8>, a: int, lsbFirst: bool)
    requires Shape(|m|)
    ensures WritePixel(m, a, 2, lsbFirst, ReadPixel(m, a, 2, lsbFirst)) == m
  {
    var i := Base(a, 2, |m|);
    LanesOfCompose(m[i], m[i + 1], m[i + 2], m[i + 3]);
  }

  lemma WriteBackBit(m: seq<bv8>, a: int, size: int, lsbFirst: bool)
    requires Shape(|m|) && size != 0 && size != 1 && size != 2
    ensures WritePixel(m, a, size, lsbFirst, ReadPixel(m, a, size, lsbFirst)) == m
  {
    var i := Base(a, size, |m|);
    BitWriteBack(m[i], BitPos(a, lsbFirst));
  }

  /** The lanes of a composed 16-bit value are its parts. */
  lemma HalfLanes(b0: bv8, b1: bv8)
    ensures GetLane(0, Compose16(b0, b1)) == b0 && GetLane(1, Compose16(b0, b1)) == b1
  {
  }

  /** Setting a set bit or clearing a clear one changes nothing. */
  lemma BitWriteBack(b: bv8, p: int)
    requires 0 <= p < 8
    ensures var v: bv32 := if b & BitMask(p) != 0 then 1 else 0;
            (if v & 1 != 0 then b | BitMask(p) else b & !BitMask(p)) == b
  {
    if p == 0 {} else if p == 1 {} else if p == 2 {} else if p == 3 {}
    else if p == 4 {} else if p == 5 {} else if p == 6 {} else {}
  }
}
