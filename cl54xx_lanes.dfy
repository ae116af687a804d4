/*
 * The byte-lane router of the CL-GD54xx linear aperture. Video memory is
 * treated as a plain byte store (`seq<bv8>`, indexed modulo its size); each
 * accessor follows the quadrant switch of the linear read and write
 * handlers: quadrant 0 is plain little-endian, quadrant 1 swaps the bytes
 * of each 16-bit word, quadrant 2 reverses the bytes of each dword, and
 * quadrant 3 reads as all ones and drops writes.
 */
module Gd54xxLanes {
  import opened Gd54xxOps

  /**
   * The memory index of address `a`, which lies at most one memory size
   * past the end: the memory wraps around.
   */
  function Wrap(n: int, a: int): (k: int)
    requires 0 <= a < 2 * n
    ensures 0 <= k < n
  {
    if a < n then a else a - n
  }

  /** A byte of video memory. */
  function Load(m: seq<bv8>, a: int): bv8
    requires 0 <= a < 2 * |m|
  {
    m[Wrap(|m|, a)]
  }

  /** Video memory with one byte replaced. */
  function Store(m: seq<bv8>, a: int, v: bv8): (m': seq<bv8>)
    requires 0 <= a < 2 * |m|
    ensures |m'| == |m|
  {
    m[Wrap(|m|, a) := v]
  }

  /** The memories the router works on: a whole number of dwords, addressed inside. */
  predicate InMemory(m: seq<bv8>, a: int)
  {
    |m| >= 4 && |m| % 4 == 0 && 0 <= a < |m|
  }

  /** The memory address a byte access in quadrant `ap` reaches. */
  function Swizzle(ap: int, a: int): (p: int)
    requires 0 <= a
    ensures 0 <= p && p / 4 == a / 4
    ensures ap == 1 ==> p % 2 != a % 2 && (p % 4) / 2 == (a % 4) / 2
    ensures ap == 2 ==> p % 4 == 3 - a % 4
    ensures ap != 1 && ap != 2 ==> p == a
  {
    if ap == 1 then Xor1(a) else if ap == 2 then Xor3(a) else a
  }

  /** Byte read through the linear aperture. */
  function ReadB(m: seq<bv8>, ap: int, a: int): bv8
    requires InMemory(m, a)
  {
    if ap == 3 then 0xff else Load(m, Swizzle(ap, a))
  }

  /** Word read: quadrant 2 moves to the other half of the dword, then reads it high byte first like quadrant 1. */
  function ReadW(m: seq<bv8>, ap: int, a: int): bv16
    requires InMemory(m, a)
  {
    if ap == 3 then 0xffff
    else if ap == 1 || ap == 2 then
      var b := if ap == 2 then Xor2(a) else a;
      Compose16(Load(m, b + 1), Load(m, b))
    else Compose16(Load(m, a), Load(m, a + 1))
  }

  /** Dword read. */
  function ReadL(m: seq<bv8>, ap: int, a: int): bv32
    requires InMemory(m, a)
  {
    if ap == 3 then 0xffffffff
    else if ap == 1 then Compose32(Load(m, a + 1), Load(m, a), Load(m, a + 3), Load(m, a + 2))
    else if ap == 2 then Compose32(Load(m, a + 3), Load(m, a + 2), Load(m, a + 1), Load(m, a))
    else Compose32(Load(m, a), Load(m, a + 1), Load(m, a + 2), Load(m, a + 3))
  }

  /** Byte write through the linear aperture. */
  function WriteB(m: seq<bv8>, ap: int, a: int, v: bv8): (m': seq<bv8>)
    requires InMemory(m, a)
    ensures |m'| == |m|
  {
    if ap == 3 then m else Store(m, Swizzle(ap, a), v)
  }

  /** Word write, the mirror of `ReadW`. */
  function WriteW(m: seq<bv8>, ap: int, a: int, v: bv16): (m': seq<bv8>)
    requires InMemory(m, a)
    ensures |m'| == |m|
  {
    if ap == 3 then m
    else if ap == 1 || ap == 2 then
      var b := if ap == 2 then Xor2(a) else a;
      Store(Store(m, b + 1, Lane16(v, 0)), b, Lane16(v, 1))
    else Store(Store(m, a, Lane16(v, 0)), a + 1, Lane16(v, 1))
  }

  /** Dword write, the mirror of `ReadL`. */
  function WriteL(m: seq<bv8>, ap: int, a: int, v: bv32): (m': seq<bv8>)
    requires InMemory(m, a)
    ensures |m'| == |m|
  {
    if ap == 3 then m
    else if ap == 1 then
      Store(Store(Store(Store(m, a + 1, Lane32(v, 0)), a, Lane32(v, 1)), a + 3, Lane32(v, 2)), a + 2, Lane32(v, 3))
    else if ap == 2 then
      Store(Store(Store(Store(m, a + 3, Lane32(v, 0)), a + 2, Lane32(v, 1)), a + 1, Lane32(v, 2)), a, Lane32(v, 3))
    else
      Store(Store(Store(Store(m, a, Lane32(v, 0)), a + 1, Lane32(v, 1)), a + 2, Lane32(v, 2)), a + 3, Lane32(v, 3))
  }

  /** Swizzling an address inside an aligned dword is swizzling its offset. */
  lemma SwizzleInDword(ap: int, a: int, i: int)
    requires 0 <= a && a % 4 == 0 && 0 <= i < 4
    ensures Swizzle(ap, a + i) == a + Swizzle(ap, i)
  {
    assert (a + i) / 4 == a / 4 && (a + i) % 4 == i;
  }

  /** The offsets a byte access in each valid quadrant reaches inside an aligned dword. */
  lemma SwizzleOffsets(ap: int, a: int)
    requires 0 <= a && a % 4 == 0 && 0 <= ap < 3
    ensures ap == 0 ==> Swizzle(ap, a) == a && Swizzle(ap, a + 1) == a + 1 && Swizzle(ap, a + 2) == a + 2 && Swizzle(ap, a + 3) == a + 3
    ensures ap == 1 ==> Swizzle(ap, a) == a + 1 && Swizzle(ap, a + 1) == a && Swizzle(ap, a + 2) == a + 3 && Swizzle(ap, a + 3) == a + 2
    ensures ap == 2 ==> Swizzle(ap, a) == a + 3 && Swizzle(ap, a + 1) == a + 2 && Swizzle(ap, a + 2) == a + 1 && Swizzle(ap, a + 3) == a
  {
    SwizzleInDword(ap, a, 0); SwizzleInDword(ap, a, 1); SwizzleInDword(ap, a, 2); SwizzleInDword(ap, a, 3);
    if ap == 1 {
      assert Swizzle(1, 0) == 1 && Swizzle(1, 1) == 0 && Swizzle(1, 2) == 3 && Swizzle(1, 3) == 2;
    } else if ap == 2 {
      assert Swizzle(2, 0) == 3 && Swizzle(2, 1) == 2 && Swizzle(2, 2) == 1 && Swizzle(2, 3) == 0;
    }
  }

  /** Four stores at distinct places inside the memory each leave their byte. */
  lemma StoreLoad4(m: seq<bv8>, p0: int, p1: int, p2: int, p3: int, b0: bv8, b1: bv8, b2: bv8, b3: bv8)
    requires 0 <= p0 < |m| && 0 <= p1 < |m| && 0 <= p2 < |m| && 0 <= p3 < |m|
    requires p0 != p1 && p0 != p2 && p0 != p3 && p1 != p2 && p1 != p3 && p2 != p3
    ensures var m' := Store(Store(Store(Store(m, p0, b0), p1, b1), p2, b2), p3, b3);
      Load(m', p0) == b0 && Load(m', p1) == b1 && Load(m', p2) == b2 && Load(m', p3) == b3
  {
  }

  /** The word accesses of quadrant 2 move to the other half of the dword. */
  lemma Xor2Halves(a: int)
    requires 0 <= a && a % 4 == 0
    ensures Xor2(a) == a + 2 && Xor2(a + 2) == a
  {
  }

  /** Reading the dword just written returns it, in every valid quadrant. */
  lemma WriteLReadL(m: seq<bv8>, ap: int, a: int, v: bv32)
    requires InMemory(m, a) && a % 4 == 0 && 0 <= ap < 3
    ensures ReadL(WriteL(m, ap, a, v), ap, a) == v
  {
    if ap == 0 { WriteLReadL0(m, a, v); } else if ap == 1 { WriteLReadL1(m, a, v); } else { WriteLReadL2(m, a, v); }
  }

  lemma WriteLReadL0(m: seq<bv8>, a: int, v: bv32)
    requires InMemory(m, a) && a % 4 == 0
    ensures ReadL(WriteL(m, 0, a, v), 0, a) == v
  {
    StoreLoad4(m, a, a + 1, a + 2, a + 3, Lane32(v, 0), Lane32(v, 1), Lane32(v, 2), Lane32(v, 3));
    Compose32Lanes(v);
  }

  lemma WriteLReadL1(m: seq<bv8>, a: int, v: bv32)
    requires InMemory(m, a) && a % 4 == 0
    ensures ReadL(WriteL(m, 1, a, v), 1, a) == v
  {
    StoreLoad4(m, a + 1, a, a + 3, a + 2, Lane32(v, 0), Lane32(v, 1), Lane32(v, 2), Lane32(v, 3));
    Compose32Lanes(v);
  }

  lemma WriteLReadL2(m: seq<bv8>, a: int, v: bv32)
    requires InMemory(m, a) && a % 4 == 0
    ensures ReadL(WriteL(m, 2, a, v), 2, a) == v
  {
    StoreLoad4(m, a + 3, a + 2, a + 1, a, Lane32(v, 0), Lane32(v, 1), Lane32(v, 2), Lane32(v, 3));
    Compose32Lanes(v);
  }

  /** Byte `i` of a dword written at `a` reads back at `a + i`, in every valid quadrant. */
  lemma WriteLReadB(m: seq<bv8>, ap: int, a: int, v: bv32, i: int)
    requires InMemory(m, a) && a % 4 == 0 && 0 <= ap < 3 && 0 <= i < 4
    ensures ReadB(WriteL(m, ap, a, v), ap, a + i) == Lane32(v, i)
  {
    if ap == 0 { WriteLReadB0(m, a, v, i); } else if ap == 1 { WriteLReadB1(m, a, v, i); } else { WriteLReadB2(m, a, v, i); }
  }

  lemma WriteLReadB0(m: seq<bv8>, a: int, v: bv32, i: int)
    requires InMemory(m, a) && a % 4 == 0 && 0 <= i < 4
    ensures ReadB(WriteL(m, 0, a, v), 0, a + i) == Lane32(v, i)
  {
    SwizzleOffsets(0, a);
    StoreLoad4(m, a, a + 1, a + 2, a + 3, Lane32(v, 0), Lane32(v, 1), Lane32(v, 2), Lane32(v, 3));
    if i == 0 {} else if i == 1 {} else if i == 2 {} else {}
  }

  lemma WriteLReadB1(m: seq<bv8>, a: int, v: bv32, i: int)
    requires InMemory(m, a) && a % 4 == 0 && 0 <= i < 4
    ensures ReadB(WriteL(m, 1, a, v), 1, a + i) == Lane32(v, i)
  {
    SwizzleOffsets(1, a);
    StoreLoad4(m, a + 1, a, a + 3, a + 2, Lane32(v, 0), Lane32(v, 1), Lane32(v, 2), Lane32(v, 3));
    if i == 0 {} else if i == 1 {} else if i == 2 {} else {}
  }

  lemma WriteLReadB2(m: seq<bv8>, a: int, v: bv32, i: int)
    requires InMemory(m, a) && a % 4 == 0 && 0 <= i < 4
    ensures ReadB(WriteL(m, 2, a, v), 2, a + i) == Lane32(v, i)
  {
    SwizzleOffsets(2, a);
    StoreLoad4(m, a + 3, a + 2, a + 1, a, Lane32(v, 0), Lane32(v, 1), Lane32(v, 2), Lane32(v, 3));
    if i == 0 {} else if i == 1 {} else if i == 2 {} else {}
  }

  /** The low and high words of a dword written at `a` read back at `a` and `a+2`, in every valid quadrant. */
  lemma WriteLReadW(m: seq<bv8>, ap: int, a: int, v: bv32)
    requires InMemory(m, a) && a % 4 == 0 && 0 <= ap < 3
    ensures ReadW(WriteL(m, ap, a, v), ap, a) == Compose16(Lane32(v, 0), Lane32(v, 1))
    ensures ReadW(WriteL(m, ap, a, v), ap, a + 2) == Compose16(Lane32(v, 2), Lane32(v, 3))
  {
    if ap == 0 { WriteLReadW0(m, a, v); } else if ap == 1 { WriteLReadW1(m, a, v); } else { WriteLReadW2(m, a, v); }
  }

  lemma WriteLReadW0(m: seq<bv8>, a: int, v: bv32)
    requires InMemory(m, a) && a % 4 == 0
    ensures ReadW(WriteL(m, 0, a, v), 0, a) == Compose16(Lane32(v, 0), Lane32(v, 1))
    ensures ReadW(WriteL(m, 0, a, v), 0, a + 2) == Compose16(Lane32(v, 2), Lane32(v, 3))
  {
    StoreLoad4(m, a, a + 1, a + 2, a + 3, Lane32(v, 0), Lane32(v, 1), Lane32(v, 2), Lane32(v, 3));
  }

  lemma WriteLReadW1(m: seq<bv8>, a: int, v: bv32)
    requires InMemory(m, a) && a % 4 == 0
    ensures ReadW(WriteL(m, 1, a, v), 1, a) == Compose16(Lane32(v, 0), Lane32(v, 1))
    ensures ReadW(WriteL(m, 1, a, v), 1, a + 2) == Compose16(Lane32(v, 2), Lane32(v, 3))
  {
    StoreLoad4(m, a + 1, a, a + 3, a + 2, Lane32(v, 0), Lane32(v, 1), Lane32(v, 2), Lane32(v, 3));
  }

  lemma WriteLReadW2(m: seq<bv8>, a: int, v: bv32)
    requires InMemory(m, a) && a % 4 == 0
    ensures ReadW(WriteL(m, 2, a, v), 2, a) == Compose16(Lane32(v, 0), Lane32(v, 1))
    ensures ReadW(WriteL(m, 2, a, v), 2, a + 2) == Compose16(Lane32(v, 2), Lane32(v, 3))
  {
    Xor2Halves(a);
    StoreLoad4(m, a + 3, a + 2, a + 1, a, Lane32(v, 0), Lane32(v, 1), Lane32(v, 2), Lane32(v, 3));
  }

  /** Four byte writes at `a .. a+3` read back as one dword, in every valid quadrant. */
  lemma WriteBytesReadL(m: seq<bv8>, ap: int, a: int, b0: bv8, b1: bv8, b2: bv8, b3: bv8)
    requires InMemory(m, a) && a % 4 == 0 && 0 <= ap < 3
    ensures ReadL(WriteB(WriteB(WriteB(WriteB(m, ap, a, b0), ap, a + 1, b1), ap, a + 2, b2), ap, a + 3, b3), ap, a)
            == Compose32(b0, b1, b2, b3)
  {
    if ap == 0 { WriteBytesReadL0(m, a, b0, b1, b2, b3); } else if ap == 1 { WriteBytesReadL1(m, a, b0, b1, b2, b3); } else { WriteBytesReadL2(m, a, b0, b1, b2, b3); }
  }

  lemma WriteBytesReadL0(m: seq<bv8>, a: int, b0: bv8, b1: bv8, b2: bv8, b3: bv8)
    requires InMemory(m, a) && a % 4 == 0
    ensures ReadL(WriteB(WriteB(WriteB(WriteB(m, 0, a, b0), 0, a + 1, b1), 0, a + 2, b2), 0, a + 3, b3), 0, a)
            == Compose32(b0, b1, b2, b3)
  {
    SwizzleOffsets(0, a);
    StoreLoad4(m, a, a + 1, a + 2, a + 3, b0, b1, b2, b3);
  }

  lemma WriteBytesReadL1(m: seq<bv8>, a: int, b0: bv8, b1: bv8, b2: bv8, b3: bv8)
    requires InMemory(m, a) && a % 4 == 0
    ensures ReadL(WriteB(WriteB(WriteB(WriteB(m, 1, a, b0), 1, a + 1, b1), 1, a + 2, b2), 1, a + 3, b3), 1, a)
            == Compose32(b0, b1, b2, b3)
  {
    SwizzleOffsets(1, a);
    StoreLoad4(m, a + 1, a, a + 3, a + 2, b0, b1, b2, b3);
  }

  lemma WriteBytesReadL2(m: seq<bv8>, a: int, b0: bv8, b1: bv8, b2: bv8, b3: bv8)
    requires InMemory(m, a) && a % 4 == 0
    ensures ReadL(WriteB(WriteB(WriteB(WriteB(m, 2, a, b0), 2, a + 1, b1), 2, a + 2, b2), 2, a + 3, b3), 2, a)
            == Compose32(b0, b1, b2, b3)
  {
    SwizzleOffsets(2, a);
    StoreLoad4(m, a + 3, a + 2, a + 1, a, b0, b1, b2, b3);
  }

  /** Two word writes at `a` and `a+2` read back as one dword, in every valid quadrant. */
  lemma WriteWordsReadL(m: seq<bv8>, ap: int, a: int, lo: bv16, hi: bv16)
    requires InMemory(m, a) && a % 4 == 0 && 0 <= ap < 3
    ensures ReadL(WriteW(WriteW(m, ap, a, lo), ap, a + 2, hi), ap, a)
            == Compose32(Lane16(lo, 0), Lane16(lo, 1), Lane16(hi, 0), Lane16(hi, 1))
  {
    if ap == 0 { WriteWordsReadL0(m, a, lo, hi); } else if ap == 1 { WriteWordsReadL1(m, a, lo, hi); } else { WriteWordsReadL2(m, a, lo, hi); }
  }

  lemma WriteWordsReadL0(m: seq<bv8>, a: int, lo: bv16, hi: bv16)
    requires InMemory(m, a) && a % 4 == 0
    ensures ReadL(WriteW(WriteW(m, 0, a, lo), 0, a + 2, hi), 0, a)
            == Compose32(Lane16(lo, 0), Lane16(lo, 1), Lane16(hi, 0), Lane16(hi, 1))
  {
    StoreLoad4(m, a, a + 1, a + 2, a + 3, Lane16(lo, 0), Lane16(lo, 1), Lane16(hi, 0), Lane16(hi, 1));
  }

  lemma WriteWordsReadL1(m: seq<bv8>, a: int, lo: bv16, hi: bv16)
    requires InMemory(m, a) && a % 4 == 0
    ensures ReadL(WriteW(WriteW(m, 1, a, lo), 1, a + 2, hi), 1, a)
            == Compose32(Lane16(lo, 0), Lane16(lo, 1), Lane16(hi, 0), Lane16(hi, 1))
  {
    StoreLoad4(m, a + 1, a, a + 3, a + 2, Lane16(lo, 0), Lane16(lo, 1), Lane16(hi, 0), Lane16(hi, 1));
  }

  lemma WriteWordsReadL2(m: seq<bv8>, a: int, lo: bv16, hi: bv16)
    requires InMemory(m, a) && a % 4 == 0
    ensures ReadL(WriteW(WriteW(m, 2, a, lo), 2, a + 2, hi), 2, a)
            == Compose32(Lane16(lo, 0), Lane16(lo, 1), Lane16(hi, 0), Lane16(hi, 1))
  {
    Xor2Halves(a);
    StoreLoad4(m, a + 3, a + 2, a + 1, a, Lane16(lo, 0), Lane16(lo, 1), Lane16(hi, 0), Lane16(hi, 1));
  }

  /** A dword write changes only the four bytes of its dword. */
  lemma WriteLFrame(m: seq<bv8>, ap: int, a: int, v: bv32, k: int)
    requires InMemory(m, a) && a % 4 == 0 && 0 <= ap < 3 && 0 <= k < |m| && (k < a || a + 4 <= k)
    ensures WriteL(m, ap, a, v)[k] == m[k]
  {
    if ap == 0 { WriteLFrame0(m, a, v, k); } else if ap == 1 { WriteLFrame1(m, a, v, k); } else { WriteLFrame2(m, a, v, k); }
  }

  lemma WriteLFrame0(m: seq<bv8>, a: int, v: bv32, k: int)
    requires InMemory(m, a) && a % 4 == 0 && 0 <= k < |m| && (k < a || a + 4 <= k)
    ensures WriteL(m, 0, a, v)[k] == m[k]
  {

  }

  lemma WriteLFrame1(m: seq<bv8>, a: int, v: bv32, k: int)
    requires InMemory(m, a) && a % 4 == 0 && 0 <= k < |m| && (k < a || a + 4 <= k)
    ensures WriteL(m, 1, a, v)[k] == m[k]
  {

  }

  lemma WriteLFrame2(m: seq<bv8>, a: int, v: bv32, k: int)
    requires InMemory(m, a) && a % 4 == 0 && 0 <= k < |m| && (k < a || a + 4 <= k)
    ensures WriteL(m, 2, a, v)[k] == m[k]
  {

  }

  /** Quadrant 3 is invalid: reads give all ones and writes change nothing. */
  lemma Quadrant3Invalid(m: seq<bv8>, a: int, b: bv8, w: bv16, l: bv32)
    requires InMemory(m, a)
    ensures ReadB(m, 3, a) == 0xff && ReadW(m, 3, a) == 0xffff && ReadL(m, 3, a) == 0xffffffff
    ensures WriteB(m, 3, a, b) == m && WriteW(m, 3, a, w) == m && WriteL(m, 3, a, l) == m
  {
  }
}
