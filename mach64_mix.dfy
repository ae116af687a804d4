/*
 * The per-pixel combiner of the Mach64 drawing engine: the `MIX` raster
 * operations, the colour compare that can veto a write, and the write mask
 * that decides which destination bits the result may change.
 */
module Mach64Mix {
  import opened Mach64Lanes

  /** Colour-compare functions that compare (the others never or always veto). */
  const CmpTrue := 1
  const CmpNotEqual := 4
  const CmpEqual := 5

  /**
   * The `MIX` macro: raster operation `code` on destination `dst` and
   * source `src`. Codes 0x0-0xf are bitwise, 0x17 averages (the sum wraps
   * at 32 bits before the halving), and any other code leaves the
   * destination as it was.
   */
  function Mix(code: int, dst: bv32, src: bv32): bv32
  {
    if 0 <= code <= 0xf then Logic(code, dst, src)
    else if code == 0x17 then (dst + src) >> 1
    else dst
  }

  /** The sixteen bitwise codes of `Mix`. */
  function Logic(code: int, dst: bv32, src: bv32): bv32
    requires 0 <= code <= 0xf
  {
    match code
    case 0x0 => !dst
    case 0x1 => 0
    case 0x2 => 0xffffffff
    case 0x3 => dst
    case 0x4 => !src
    case 0x5 => src ^ dst
    case 0x6 => !(src ^ dst)
    case 0x7 => src
    case 0x8 => !(src & dst)
    case 0x9 => !src | dst
    case 0xa => src | !dst
    case 0xb => src | dst
    case 0xc => src & dst
    case 0xd => src & !dst
    case 0xe => !src & dst
    case 0xf => !(src | dst)
  }

  /** The codes `Mix` implements. */
  predicate MixDefined(code: int)
  {
    0 <= code <= 0xf || code == 0x17
  }

  /**
   * Whether the colour compare vetoes the write: function 1 always, 4 when
   * the compared colour (source or destination, under the compare mask)
   * differs from the compare colour, 5 when it equals it, others never.
   */
  function CompareHit(fn: int, useSrc: bool, src: bv32, dst: bv32, mask: bv32, clr: bv32): bool
  {
    var c := (if useSrc then src else dst) & mask;
    if fn == CmpTrue then true
    else if fn == CmpNotEqual then c != clr
    else if fn == CmpEqual then c == clr
    else false
  }

  /** `result` where `mask` has ones, `prev` elsewhere. */
  function WriteMasked(result: bv32, prev: bv32, mask: bv32): bv32
  {
    (result & mask) | (prev & !mask)
  }

  /**
   * One of the three bytes of a 24-bit colour, picked by the pixel's
   * position `xx` (0, 1 or 2) in its triple; right-to-left walks take the
   * bytes in the opposite order.
   */
  function Rot24(v: bv32, xinc: int, xx: int): bv32
  {
    if xinc == -1 then
      (if xx == 2 then v & 0xff else if xx == 1 then (v >> 8) & 0xff else (v >> 16) & 0xff)
    else
      (if xx == 2 then (v >> 16) & 0xff else if xx == 1 then (v >> 8) & 0xff else v & 0xff)
  }

  /**
   * The value a rectangle walk writes back: the destination unchanged when
   * the compare vetoes, else the mix under the write mask.
   */
  function Combined(hit: bool, code: int, dst: bv32, src: bv32, wmask: bv32): bv32
  {
    if hit then dst else WriteMasked(Mix(code, dst, src), dst, wmask)
  }

  /** Codes outside the table leave the destination unchanged. */
  lemma MixUndefined(code: int, dst: bv32, src: bv32)
    requires !MixDefined(code)
    ensures Mix(code, dst, src) == dst
  {
  }

  /** Code 3 keeps the destination, code 7 copies the source, codes 1 and 2 clear and set. */
  lemma MixConstants(dst: bv32, src: bv32)
    ensures Mix(3, dst, src) == dst && Mix(7, dst, src) == src
    ensures Mix(1, dst, src) == 0 && Mix(2, dst, src) == 0xffffffff
  {
  }

  /** Inverting (code 0) twice gives the destination back. */
  lemma InvertTwice(dst: bv32, src: bv32)
    ensures Mix(0, Mix(0, dst, src), src) == dst
  {
  }

  /** XOR with the source (code 5) twice gives the destination back. */
  lemma XorTwice(dst: bv32, src: bv32)
    ensures Mix(5, Mix(5, dst, src), src) == dst
  {
  }

  /** XNOR with the source (code 6) twice gives the destination back. */
  lemma XnorTwice(dst: bv32, src: bv32)
    ensures Mix(6, Mix(6, dst, src), src) == dst
  {
  }

  /** The average is symmetric in its operands. */
  lemma MixAverageSymmetric(dst: bv32, src: bv32)
    ensures Mix(0x17, dst, src) == Mix(0x17, src, dst)
  {
  }

  /** Bits outside the write mask keep their old value; bits inside take the result. */
  lemma WriteMaskedBits(result: bv32, prev: bv32, mask: bv32)
    ensures WriteMasked(result, prev, mask) & !mask == prev & !mask
    ensures WriteMasked(result, prev, mask) & mask == result & mask
  {
  }

  /** A full mask writes the result, an empty one keeps the old value. */
  lemma WriteMaskedExtremes(result: bv32, prev: bv32)
    ensures WriteMasked(result, prev, 0xffffffff) == result
    ensures WriteMasked(result, prev, 0) == prev
  {
  }

  /** Compare functions 4 and 5 are each other's negation; others than 1, 4 and 5 never veto. */
  lemma CompareComplement(useSrc: bool, src: bv32, dst: bv32, mask: bv32, clr: bv32)
    ensures CompareHit(CmpNotEqual, useSrc, src, dst, mask, clr) == !CompareHit(CmpEqual, useSrc, src, dst, mask, clr)
    ensures forall fn :: fn != CmpTrue && fn != CmpNotEqual && fn != CmpEqual ==> !CompareHit(fn, useSrc, src, dst, mask, clr)
  {
  }

  /** A vetoed pixel gets its own old value back. */
  lemma CombinedVeto(code: int, dst: bv32, src: bv32, wmask: bv32)
    ensures Combined(true, code, dst, src, wmask) == dst
  {
  }

  /** Whether vetoed or not, the bits outside the write mask keep their old value. */
  lemma CombinedMask(hit: bool, code: int, dst: bv32, src: bv32, wmask: bv32)
    ensures Combined(hit, code, dst, src, wmask) & !wmask == dst & !wmask
  {
    if !hit {
      WriteMaskedBits(Mix(code, dst, src), dst, wmask);
    }
  }

  /** An unvetoed pixel takes the mix inside the write mask. */
  lemma CombinedMix(code: int, dst: bv32, src: bv32, wmask: bv32)
    ensures Combined(false, code, dst, src, wmask) & wmask == Mix(code, dst, src) & wmask
  {
    WriteMaskedBits(Mix(code, dst, src), dst, wmask);
  }

  /** Each 24-bit colour byte is one of the low three bytes of the colour. */
  lemma Rot24Bytes(v: bv32, xinc: int, xx: int)
    ensures Rot24(v, xinc, xx) <= 0xff
    ensures Rot24(v, xinc, xx) == (v & 0xff) || Rot24(v, xinc, xx) == (v >> 8) & 0xff || Rot24(v, xinc, xx) == (v >> 16) & 0xff
  {
  }

  /** Walking left swaps the order of the first and last byte of the triple. */
  lemma Rot24Mirror(v: bv32, xx: int)
    requires 0 <= xx < 3
    ensures Rot24(v, -1, xx) == Rot24(v, 1, 2 - xx)
  {
  }

  /** Under a 24-bit write mask only the low byte of the destination can change. */
  lemma Rot24KeepsHighBytes(hit: bool, code: int, dst: bv32, src: bv32, v: bv32, xinc: int, xx: int)
    ensures Combined(hit, code, dst, src, Rot24(v, xinc, xx)) & 0xffffff00 == dst & 0xffffff00
  {
    var wm := Rot24(v, xinc, xx);
    Rot24Bytes(v, xinc, xx);
    CombinedMask(hit, code, dst, src, wm);
    ByteMaskKeepsHigh(Combined(hit, code, dst, src, wm), dst, wm);
  }

  /** Agreement outside a mask of the low byte is agreement on the upper three bytes. */
  lemma ByteMaskKeepsHigh(r: bv32, d: bv32, wm: bv32)
    requires wm <= 0xff && r & !wm == d & !wm
    ensures r & 0xffffff00 == d & 0xffffff00
  {
    calc {
      r & 0xffffff00;
      (r & !wm) & 0xffffff00;
      (d & !wm) & 0xffffff00;
      d & 0xffffff00;
    }
  }

  /** Walking right, the 24-bit colour byte at position `xx` of the triple is byte `xx` of the colour. */
  lemma Rot24Forward(v: bv32, xx: int)
    requires 0 <= xx < 3
    ensures Rot24(v, 1, xx) == GetLane(xx, v) as bv32
  {
    if xx == 0 {
      Rot24Lane0(v, xx);
    } else if xx == 1 {
      Rot24Lane1(v, xx);
    } else {
      Rot24Lane2(v, xx);
    }
  }

  lemma Rot24Lane0(v: bv32, xx: int) requires xx == 0 ensures Rot24(v, 1, xx) == GetLane(xx, v) as bv32 {}
  lemma Rot24Lane1(v: bv32, xx: int) requires xx == 1 ensures Rot24(v, 1, xx) == GetLane(xx, v) as bv32 {}
  lemma Rot24Lane2(v: bv32, xx: int) requires xx == 2 ensures Rot24(v, 1, xx) == GetLane(xx, v) as bv32 {}
}
