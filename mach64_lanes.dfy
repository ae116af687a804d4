/*
 * Byte lanes of the Mach64 drawing-engine registers. Every register is 32
 * bits wide and the CPU may write it a byte at a time: the byte at address
 * `addr` lands in lane `addr & 3`, least significant lane first.
 */
module Mach64Lanes {

  /** Byte `i` of `v`. */
  function GetLane(i: int, v: bv32): bv8
    requires 0 <= i < 4
  {
    match i
    case 0 => (v & 0xff) as bv8
    case 1 => ((v >> 8) & 0xff) as bv8
    case 2 => ((v >> 16) & 0xff) as bv8
    case 3 => ((v >> 24) & 0xff) as bv8
  }

  /** `v` with byte `i` replaced by `b`. */
  function SetLane(i: int, v: bv32, b: bv8): bv32
    requires 0 <= i < 4
  {
    match i
    case 0 => (v & 0xffffff00) | (b as bv32)
    case 1 => (v & 0xffff00ff) | ((b as bv32) << 8)
    case 2 => (v & 0xff00ffff) | ((b as bv32) << 16)
    case 3 => (v & 0x00ffffff) | ((b as bv32) << 24)
  }

  /** Byte `addr & 3` of `v` (the `READ8` macro). */
  function Read8(addr: int, v: bv32): bv8
  {
    GetLane(addr % 4, v)
  }

  /** `v` with byte `addr & 3` replaced by `b` (the `WRITE8` macro). */
  function Write8(addr: int, v: bv32, b: bv8): bv32
  {
    SetLane(addr % 4, v, b)
  }

  /** The value whose bytes, least significant first, are `b0`..`b3`. */
  function Compose32(b0: bv8, b1: bv8, b2: bv8, b3: bv8): bv32
  {
    (b0 as bv32) | ((b1 as bv32) << 8) | ((b2 as bv32) << 16) | ((b3 as bv32) << 24)
  }

  /** The value whose bytes, least significant first, are `b0` and `b1`. */
  function Compose16(b0: bv8, b1: bv8): bv32
  {
    (b0 as bv32) | ((b1 as bv32) << 8)
  }

  /** The low 16 bits of `v`. */
  function Low16(v: bv32): bv32 { v & 0xffff }

  /** The high 16 bits of `v`, moved down. */
  function High16(v: bv32): bv32 { v >> 16 }

  /** `v` with its four bytes in the opposite order. */
  function ByteSwap(v: bv32): bv32
  {
    ((v & 0xff000000) >> 24) | ((v & 0x00ff0000) >> 8) | ((v & 0x0000ff00) << 8) | ((v & 0x000000ff) << 24)
  }

  /** Reading the lane just written gives the byte written. */
  lemma Read8Write8(addr: int, v: bv32, b: bv8)
    ensures Read8(addr, Write8(addr, v, b)) == b
  {
    var i := addr % 4;
    if i == 0 {} else if i == 1 {} else if i == 2 {} else {}
  }

  /** Writing one lane leaves the other three alone. */
  lemma Read8Write8Other(addr: int, other: int, v: bv32, b: bv8)
    requires addr % 4 != other % 4
    ensures Read8(other, Write8(addr, v, b)) == Read8(other, v)
  {
    LaneFrame(addr % 4, other % 4, v, b);
  }

  /** `SetLane` at one lane, read at another. */
  lemma LaneFrame(i: int, j: int, v: bv32, b: bv8)
    requires 0 <= i < 4 && 0 <= j < 4 && i != j
    ensures GetLane(j, SetLane(i, v, b)) == GetLane(j, v)
  {
    if i == 0 {
      if j == 1 {} else if j == 2 {} else {}
    } else if i == 1 {
      if j == 0 {} else if j == 2 {} else {}
    } else if i == 2 {
      if j == 0 {} else if j == 1 {} else {}
    } else {
      if j == 0 {} else if j == 1 {} else {}
    }
  }

  /** A register is determined by its four lanes. */
  lemma LanesDetermine(v: bv32, w: bv32)
    requires forall i :: 0 <= i < 4 ==> Read8(i, v) == Read8(i, w)
    ensures v == w
  {
    assert Read8(0, v) == Read8(0, w) && Read8(1, v) == Read8(1, w);
    assert Read8(2, v) == Read8(2, w) && Read8(3, v) == Read8(3, w);
  }

  /** Writing the four bytes of `v` into their lanes, in any starting value, gives `v`. */
  lemma Write8All(w: bv32, v: bv32)
    ensures Write8(3, Write8(2, Write8(1, Write8(0, w, Read8(0, v)), Read8(1, v)), Read8(2, v)), Read8(3, v)) == v
  {
  }

  /** Reversing the bytes twice gives the value back. */
  lemma ByteSwapTwice(v: bv32)
    ensures ByteSwap(ByteSwap(v)) == v
  {
  }

  /** `ByteSwap` moves lane `i` to lane `3 - i`. */
  lemma ByteSwapLanes(v: bv32)
    ensures Read8(0, ByteSwap(v)) == Read8(3, v) && Read8(1, ByteSwap(v)) == Read8(2, v)
    ensures Read8(2, ByteSwap(v)) == Read8(1, v) && Read8(3, ByteSwap(v)) == Read8(0, v)
  {
  }

  /** Composing the four lanes of a value gives the value. */
  lemma ComposeLanes(v: bv32)
    ensures Compose32(Read8(0, v), Read8(1, v), Read8(2, v), Read8(3, v)) == v
  {
  }

  /** The lanes of a composed value are its parts. */
  lemma LanesOfCompose(b0: bv8, b1: bv8, b2: bv8, b3: bv8)
    ensures var v := Compose32(b0, b1, b2, b3);
            Read8(0, v) == b0 && Read8(1, v) == b1 && Read8(2, v) == b2 && Read8(3, v) == b3
  {
  }
}
