/*
 * Pure building blocks of the Cirrus Logic CL-GD54xx blitter and memory
 * router: chip-revision predicates, the raster operation table, the pixel
 * combiner (colour expansion, transparency, write decision), the values
 * worked out when a blit starts, aperture and byte-lane selection, and the
 * bank and mapping derivations.
 */
module Gd54xxOps {

  // Chip identifiers as read back from CR27.
  const Id5422: bv8 := 0x8c
  const Id5424: bv8 := 0x94
  const Id5426: bv8 := 0x90
  const Id5428: bv8 := 0x98
  const Id5429: bv8 := 0x9c
  const Id5434: bv8 := 0xa8
  const Id5436: bv8 := 0xac
  const Id5446: bv8 := 0xb8
  const Id5480: bv8 := 0xbc

  // Blit mode register (GR30) bits.
  const ModeBackwards: bv8 := 0x01
  const ModeMemSysDest: bv8 := 0x02
  const ModeMemSysSrc: bv8 := 0x04
  const ModeTransparentComp: bv8 := 0x08
  const ModePixelWidthMask: bv8 := 0x30
  const ModePatternCopy: bv8 := 0x40
  const ModeColorExpand: bv8 := 0x80

  // Blit status register (GR31) bits.
  const StatusBusy: bv8 := 0x01
  const StatusStart: bv8 := 0x02
  const StatusReset: bv8 := 0x04
  const StatusFifoUsed: bv8 := 0x10
  const StatusPaused: bv8 := 0x20
  const StatusAperture2: bv8 := 0x40
  const StatusAutoStart: bv8 := 0x80

  // Blit mode extension register (GR33) bits.
  const ExtDwordGranularity: bv8 := 0x01
  const ExtColorExpInv: bv8 := 0x02
  const ExtSolidFill: bv8 := 0x04
  const ExtBackgroundOnly: bv8 := 0x08

  // Sequencer bits.
  const Sr7Svga: bv8 := 0x01
  const Sr17MmioEnable: bv8 := 0x04
  const Sr17UsePciAddr: bv8 := 0x40

  // Graphics controller GR0B bits.
  const BankingDual: bv8 := 0x01
  const BankingGranularity16k: bv8 := 0x20

  /** 5422 or later. */
  predicate Is5422(id: bv8) { id >= Id5422 }

  /** 5434, 5436/46 or 5480. */
  predicate Is5434(id: bv8) { id >= Id5434 }

  /**
   * Whether the chip compares against the 8/16-bpp transparency colour
   * (`mask` false) or also applies the transparency mask (`mask` true).
   */
  function HasTransp(id: bv8, mask: bool): (b: bool)
    ensures b ==> id in {Id5426, Id5428, Id5446, Id5480}
    ensures mask && b ==> id in {Id5426, Id5428}
    ensures id in {Id5426, Id5428} ==> b
    ensures !mask && (id == Id5446 || id == Id5480) ==> b
  {
    if (id == Id5446 || id == Id5480) && !mask then true
    else id == Id5426 || id == Id5428
  }

  /** The 16 raster operation codes the blitter implements. */
  const RopCodes: seq<bv8> :=
    [0x00, 0x05, 0x06, 0x09, 0x0b, 0x0d, 0x0e, 0x50, 0x59, 0x6d, 0x90, 0x95, 0xad, 0xd0, 0xd6, 0xda]

  /**
   * The raster operation on one byte. An unknown code leaves the result
   * as it was, which is the destination since every caller passes the
   * destination as the result.
   */
  function Rop(rop: bv8, src: bv8, dst: bv8): (r: bv8)
    ensures rop !in RopCodes ==> r == dst
  {
    match rop
    case 0x00 => 0x00
    case 0x05 => src & dst
    case 0x06 => dst
    case 0x09 => src & !dst
    case 0x0b => !dst
    case 0x0d => src
    case 0x0e => 0xff
    case 0x50 => !src & dst
    case 0x59 => src ^ dst
    case 0x6d => src | dst
    case 0x90 => !(src | dst)
    case 0x95 => !(src ^ dst)
    case 0xad => src | !dst
    case 0xd0 => !src
    case 0xd6 => !src | dst
    case 0xda => !(src & dst)
    case _ => dst
  }

  /**
   * The truth table of a raster operation: bit (2*s + d) holds its value for
   * source bit s and destination bit d.
   */
  function TruthTable(rop: bv8): bv8
  {
    Rop(rop, 0x0c, 0x0a) & 0x0f
  }

  /** All ones when bit `k` of the truth table is set, all zeros otherwise. */
  function Fill(t: bv8, k: bv8): bv8
  {
    if t & k != 0 then 0xff else 0x00
  }

  /**
   * The byte a two-input boolean function with truth table `t` gives when
   * applied to every bit position of `s` and `d` independently: the OR of
   * the minterms the table selects.
   */
  function Minterms(t: bv8, s: bv8, d: bv8): bv8
  {
    (Fill(t, 8) & s & d) | (Fill(t, 4) & s & !d) | (Fill(t, 2) & !s & d) | (Fill(t, 1) & !s & !d)
  }

  /**
   * Every raster operation acts bit by bit: its result is the one its truth
   * table gives on each bit pair of source and destination.
   */
  lemma RopIsMinterms(rop: bv8, s: bv8, d: bv8)
    ensures Rop(rop, s, d) == Minterms(TruthTable(rop), s, d)
  {
    if rop == 0x00 { RopIsMinterms00(s, d); }
    else if rop == 0x05 { RopIsMinterms05(s, d); }
    else if rop == 0x06 { RopIsMinterms06(s, d); }
    else if rop == 0x09 { RopIsMinterms09(s, d); }
    else if rop == 0x0b { RopIsMinterms0b(s, d); }
    else if rop == 0x0d { RopIsMinterms0d(s, d); }
    else if rop == 0x0e { RopIsMinterms0e(s, d); }
    else if rop == 0x50 { RopIsMinterms50(s, d); }
    else if rop == 0x59 { RopIsMinterms59(s, d); }
    else if rop == 0x6d { RopIsMinterms6d(s, d); }
    else if rop == 0x90 { RopIsMinterms90(s, d); }
    else if rop == 0x95 { RopIsMinterms95(s, d); }
    else if rop == 0xad { RopIsMintermsad(s, d); }
    else if rop == 0xd0 { RopIsMintermsd0(s, d); }
    else if rop == 0xd6 { RopIsMintermsd6(s, d); }
    else if rop == 0xda { RopIsMintermsda(s, d); }
    else { RopIsMintermsOther(rop, s, d); }
  }

  lemma RopIsMintermsOther(rop: bv8, s: bv8, d: bv8)
    requires rop !in RopCodes
    ensures Rop(rop, s, d) == Minterms(TruthTable(rop), s, d)
  {
    assert Rop(rop, s, d) == d;
    assert TruthTable(rop) == 0x0a;
  }

  // One lemma per code keeps each bit-vector identity a separate, small proof.
  lemma RopIsMinterms00(s: bv8, d: bv8) ensures Rop(0x00, s, d) == Minterms(TruthTable(0x00), s, d) {}
  lemma RopIsMinterms05(s: bv8, d: bv8) ensures Rop(0x05, s, d) == Minterms(TruthTable(0x05), s, d) {}
  lemma RopIsMinterms06(s: bv8, d: bv8) ensures Rop(0x06, s, d) == Minterms(TruthTable(0x06), s, d) {}
  lemma RopIsMinterms09(s: bv8, d: bv8) ensures Rop(0x09, s, d) == Minterms(TruthTable(0x09), s, d) {}
  lemma RopIsMinterms0b(s: bv8, d: bv8) ensures Rop(0x0b, s, d) == Minterms(TruthTable(0x0b), s, d) {}
  lemma RopIsMinterms0d(s: bv8, d: bv8) ensures Rop(0x0d, s, d) == Minterms(TruthTable(0x0d), s, d) {}
  lemma RopIsMinterms0e(s: bv8, d: bv8) ensures Rop(0x0e, s, d) == Minterms(TruthTable(0x0e), s, d) {}
  lemma RopIsMinterms50(s: bv8, d: bv8) ensures Rop(0x50, s, d) == Minterms(TruthTable(0x50), s, d) {}
  lemma RopIsMinterms59(s: bv8, d: bv8) ensures Rop(0x59, s, d) == Minterms(TruthTable(0x59), s, d) {}
  lemma RopIsMinterms6d(s: bv8, d: bv8) ensures Rop(0x6d, s, d) == Minterms(TruthTable(0x6d), s, d) {}
  lemma RopIsMinterms90(s: bv8, d: bv8) ensures Rop(0x90, s, d) == Minterms(TruthTable(0x90), s, d) {}
  lemma RopIsMinterms95(s: bv8, d: bv8) ensures Rop(0x95, s, d) == Minterms(TruthTable(0x95), s, d) {}
  lemma RopIsMintermsad(s: bv8, d: bv8) ensures Rop(0xad, s, d) == Minterms(TruthTable(0xad), s, d) {}
  lemma RopIsMintermsd0(s: bv8, d: bv8) ensures Rop(0xd0, s, d) == Minterms(TruthTable(0xd0), s, d) {}
  lemma RopIsMintermsd6(s: bv8, d: bv8) ensures Rop(0xd6, s, d) == Minterms(TruthTable(0xd6), s, d) {}
  lemma RopIsMintermsda(s: bv8, d: bv8) ensures Rop(0xda, s, d) == Minterms(TruthTable(0xda), s, d) {}

  /** The code whose truth table is `t`. */
  function CodeForTable(t: bv8): bv8
    requires t < 16
  {
    match t
    case 0x0 => 0x00 case 0x1 => 0x90 case 0x2 => 0x50 case 0x3 => 0xd0
    case 0x4 => 0x09 case 0x5 => 0x0b case 0x6 => 0x59 case 0x7 => 0xda
    case 0x8 => 0x05 case 0x9 => 0x95 case 0xa => 0x06 case 0xb => 0xd6
    case 0xc => 0x0d case 0xd => 0xad case 0xe => 0x6d case 0xf => 0x0e
  }

  /** The 16 codes cover all 16 two-input boolean functions, each exactly once. */
  lemma RopTableComplete(t: bv8)
    requires t < 16
    ensures CodeForTable(t) in RopCodes && TruthTable(CodeForTable(t)) == t
  {
    match t
    case 0x0 => {} case 0x1 => {} case 0x2 => {} case 0x3 => {}
    case 0x4 => {} case 0x5 => {} case 0x6 => {} case 0x7 => {}
    case 0x8 => {} case 0x9 => {} case 0xa => {} case 0xb => {}
    case 0xc => {} case 0xd => {} case 0xe => {} case 0xf => {}
  }

  /** Byte lane `i` (0 = least significant) of a 32-bit value. */
  function Lane32(v: bv32, i: int): bv8
    requires 0 <= i < 4
  {
    match i
    case 0 => (v & 0xff) as bv8
    case 1 => ((v >> 8) & 0xff) as bv8
    case 2 => ((v >> 16) & 0xff) as bv8
    case 3 => ((v >> 24) & 0xff) as bv8
  }

  /** Byte lane `i` of a 16-bit value. */
  function Lane16(v: bv16, i: int): bv8
    requires 0 <= i < 2
  {
    if i == 0 then (v & 0xff) as bv8 else ((v >> 8) & 0xff) as bv8
  }

  /** A 32-bit value from its four bytes, least significant first. */
  function Compose32(b0: bv8, b1: bv8, b2: bv8, b3: bv8): bv32
  {
    (b0 as bv32) | ((b1 as bv32) << 8) | ((b2 as bv32) << 16) | ((b3 as bv32) << 24)
  }

  /** A 16-bit value from its two bytes. */
  function Compose16(b0: bv8, b1: bv8): bv16
  {
    (b0 as bv16) | ((b1 as bv16) << 8)
  }

  /** Composing four bytes and splitting the result gives them back. */
  lemma LanesOfCompose32(b0: bv8, b1: bv8, b2: bv8, b3: bv8)
    ensures var v := Compose32(b0, b1, b2, b3);
      Lane32(v, 0) == b0 && Lane32(v, 1) == b1 && Lane32(v, 2) == b2 && Lane32(v, 3) == b3
  {
  }

  lemma LanesOfCompose16(b0: bv8, b1: bv8)
    ensures Lane16(Compose16(b0, b1), 0) == b0 && Lane16(Compose16(b0, b1), 1) == b1
  {
  }

  /** Splitting a value into lanes and composing them gives it back. */
  lemma Compose32Lanes(v: bv32)
    ensures Compose32(Lane32(v, 0), Lane32(v, 1), Lane32(v, 2), Lane32(v, 3)) == v
  {
  }

  lemma Compose16Lanes(v: bv16)
    ensures Compose16(Lane16(v, 0), Lane16(v, 1)) == v
  {
  }

  /** Bytes per pixel from the pixel-width field (bits 4-5) of the blit mode. */
  function PixelWidth(mode: bv8): (pw: int)
    ensures 1 <= pw <= 4
    ensures mode & ModePixelWidthMask == 0x00 ==> pw == 1
    ensures mode & ModePixelWidthMask == 0x10 ==> pw == 2
    ensures mode & ModePixelWidthMask == 0x20 ==> pw == 3
    ensures mode & ModePixelWidthMask == 0x30 ==> pw == 4
  {
    match mode & ModePixelWidthMask
    case 0x00 => 1
    case 0x10 => 2
    case 0x20 => 3
    case 0x30 => 4
    case _ => 1
  }

  /** Different pixel-width fields give different widths. */
  lemma PixelWidthInjective(m1: bv8, m2: bv8)
    ensures PixelWidth(m1) == PixelWidth(m2) <==> m1 & ModePixelWidthMask == m2 & ModePixelWidthMask
  {
    var f1, f2 := m1 & ModePixelWidthMask, m2 & ModePixelWidthMask;
    assert f1 == 0x00 || f1 == 0x10 || f1 == 0x20 || f1 == 0x30;
    assert f2 == 0x00 || f2 == 0x10 || f2 == 0x20 || f2 == 0x30;
  }

  /**
   * The address step of a blit: backwards only for a plain copy (no pattern,
   * no colour expansion, no transparency) with the BACKWARDS bit set.
   */
  function Direction(mode: bv8): (dir: int)
    ensures dir == 1 || dir == -1
    ensures dir == -1 <==>
      mode & ModeBackwards != 0 && mode & (ModePatternCopy | ModeColorExpand) == 0
      && mode & ModeTransparentComp == 0
  {
    if mode & ModeBackwards != 0 && mode & (ModePatternCopy | ModeColorExpand) == 0
       && mode & ModeTransparentComp == 0 then -1
    else 1
  }

  /**
   * The left-skip of a pattern or colour-expand blit, in bytes: the low
   * five bits of the mask register at 24 bpp, whole pixels otherwise; no
   * skip in any other mode.
   */
  function PatternX(mode: bv8, mask: bv8): (px: int)
    ensures 0 <= px <= 31
    ensures mode & (ModePatternCopy | ModeColorExpand) == 0 ==> px == 0
  {
    if mode & (ModePatternCopy | ModeColorExpand) != 0 then
      (if PixelWidth(mode) == 3 then U8(mask & 0x1f)
       else U8(mask & 7) * PixelWidth(mode))
    else 0
  }

  /**
   * In a pattern or colour-expand blit the skip is a whole number of pixels,
   * the low three mask bits, except at 24 bpp where it is the low five mask
   * bits counted in bytes.
   */
  lemma PatternXSkip(mode: bv8, mask: bv8)
    requires mode & (ModePatternCopy | ModeColorExpand) != 0
    ensures PixelWidth(mode) != 3 ==>
      PatternX(mode, mask) % PixelWidth(mode) == 0 && PatternX(mode, mask) / PixelWidth(mode) == U8(mask & 7)
    ensures PixelWidth(mode) == 3 ==> PatternX(mode, mask) == U8(mask & 0x1f)
  {
    var pw := PixelWidth(mode);
    if pw != 3 {
      var k := U8(mask & 7);
      assert PatternX(mode, mask) == k * pw;
      assert (k * pw) % pw == 0 && (k * pw) / pw == k by {
        assert pw == 1 || pw == 2 || pw == 4;
      }
    }
  }

  /**
   * Colour expansion: byte `shift` of the foreground colour for a set mask
   * bit (always, with transparency on), of the background colour otherwise.
   */
  function ColorExpand(mode: bv8, fg: bv32, bg: bv32, mask: bool, shift: int): (c: bv8)
    requires 0 <= shift < 4
    ensures mode & ModeTransparentComp != 0 || mask ==> c == Lane32(fg, shift)
    ensures mode & ModeTransparentComp == 0 && !mask ==> c == Lane32(bg, shift)
  {
    if mode & ModeTransparentComp != 0 then Lane32(fg, shift)
    else if mask then Lane32(fg, shift) else Lane32(bg, shift)
  }

  /**
   * The mask a non-expanding blit passes to the write decision: true
   * unless the chip compares at 8/16 bpp, where it is true exactly when
   * byte `xx` of the source equals that byte of the transparency colour
   * outside the bits the transparency mask ignores.
   */
  function TransparentComp(id: bv8, pw: int, transCol: bv16, transMask: bv16, xx: int, src: bv8): (r: bool)
    requires 0 <= xx < pw <= 4
    ensures !(pw <= 2 && HasTransp(id, false)) ==> r
    ensures pw <= 2 && HasTransp(id, false) && !HasTransp(id, true) ==> (r <==> src == Lane16(transCol, xx))
    ensures pw <= 2 && HasTransp(id, true) ==>
      (r <==> (src ^ Lane16(transCol, xx)) & !Lane16(transMask, xx) == 0)
  {
    if pw <= 2 && HasTransp(id, false) then
      var diff := src ^ Lane16(transCol, xx);
      var masked := if HasTransp(id, true) then diff & !Lane16(transMask, xx) else diff;
      masked == 0
    else true
  }

  /**
   * Whether the blitter stores the combined byte. With the memory-to-system
   * destination bit set, skip, transparency and background-only are ignored.
   */
  function BlitWrites(mode: bv8, modeext: bv8, mask: bool, skip: bool): (w: bool)
    ensures mode & ModeMemSysDest != 0 ==> w
    ensures mode & ModeMemSysDest == 0 && mode & ModeTransparentComp != 0 ==>
      (w <==> !skip && (if mode & ModeColorExpand != 0 && modeext & ExtColorExpInv != 0 then !mask else mask))
    ensures mode & ModeMemSysDest == 0 && mode & ModeTransparentComp == 0
            && mode & ModeColorExpand != 0 && modeext & ExtBackgroundOnly != 0 ==>
      (w <==> mask || !skip)
    ensures mode & ModeMemSysDest == 0 && mode & ModeTransparentComp == 0
            && !(mode & ModeColorExpand != 0 && modeext & ExtBackgroundOnly != 0) ==>
      (w <==> !skip)
  {
    var isTransp := mode & ModeMemSysDest == 0 && mode & ModeTransparentComp != 0;
    var isBgOnly := mode & ModeMemSysDest == 0 && modeext & ExtBackgroundOnly != 0;
    var sk := mode & ModeMemSysDest == 0 && skip;
    if isTransp then
      var m := if mode & ModeColorExpand != 0 && modeext & ExtColorExpInv != 0 then !mask else mask;
      m && !sk
    else if mode & ModeColorExpand != 0 && isBgOnly then mask || !sk
    else !sk
  }

  /** A pixel that is not skipped is always written outside transparent mode. */
  lemma UnskippedOpaqueAlwaysWritten(mode: bv8, modeext: bv8, mask: bool)
    requires mode & ModeTransparentComp == 0
    ensures BlitWrites(mode, modeext, mask, false)
  {
  }

  /** The value the blitter leaves in a destination byte: the ROP result when it writes, the old byte otherwise. */
  function BlitByte(mode: bv8, modeext: bv8, rop: bv8, mask: bool, skip: bool, src: bv8, dst: bv8): (b: bv8)
    ensures b == dst || b == Rop(rop, src, dst)
    ensures BlitWrites(mode, modeext, mask, skip) ==> b == Rop(rop, src, dst)
    ensures !BlitWrites(mode, modeext, mask, skip) ==> b == dst
  {
    if BlitWrites(mode, modeext, mask, skip) then Rop(rop, src, dst) else dst
  }

  /**
   * Quadrant of the 16 MB linear window addressed by `addr`: bits 22-23
   * ANDed with the aperture mask, which the mapping recalculation only ever
   * sets to 0 or 3.
   */
  function Aperture(addr: int, apertureMask: int): (ap: int)
    requires 0 <= addr && (apertureMask == 0 || apertureMask == 3)
    ensures 0 <= ap < 4
    ensures apertureMask == 0 ==> ap == 0
    ensures apertureMask == 3 ==> ap == (addr / 0x400000) % 4
  {
    if apertureMask == 3 then (addr / 0x400000) % 4 else 0
  }

  /** `p ^ 1` on a non-negative integer. */
  function Xor1(p: int): (q: int)
    ensures q / 4 == p / 4 && (q % 4) / 2 == (p % 4) / 2 && q % 2 != p % 2 && (p >= 0 ==> q >= 0)
  {
    var r := p % 4;
    p - r + (if r == 0 then 1 else if r == 1 then 0 else if r == 2 then 3 else 2)
  }

  /** `p ^ 2` on a non-negative integer. */
  function Xor2(p: int): (q: int)
    ensures q / 4 == p / 4 && q % 2 == p % 2 && (q % 4) / 2 != (p % 4) / 2 && (p >= 0 ==> q >= 0)
  {
    var r := p % 4;
    p - r + (if r == 0 then 2 else if r == 1 then 3 else if r == 2 then 0 else 1)
  }

  /** `p ^ 3` on a non-negative integer: reverses the byte order inside a dword. */
  function Xor3(p: int): (q: int)
    ensures q / 4 == p / 4 && q % 4 == 3 - p % 4 && (p >= 0 ==> q >= 0)
  {
    p - p % 4 + (3 - p % 4)
  }

  /**
   * The byte lane used for position `pos` of the streaming buffers: swapped
   * inside a 16-bit word in quadrant 1 and inside a dword in quadrant 2, but
   * only for byte-granular colour expansion.
   */
  function PosAdj(mode: bv8, modeext: bv8, ap: int, pos: int): (q: int)
    ensures q / 4 == pos / 4
    ensures pos >= 0 ==> q >= 0
    ensures mode & ModeColorExpand == 0 || modeext & ExtDwordGranularity != 0 || (ap != 1 && ap != 2) ==> q == pos
  {
    if mode & ModeColorExpand != 0 && modeext & ExtDwordGranularity == 0 then
      (if ap == 1 then Xor1(pos) else if ap == 2 then Xor3(pos) else pos)
    else pos
  }

  /** Adjusting twice gives the position back, so the adjustment is a permutation of each dword. */
  lemma PosAdjInvolution(mode: bv8, modeext: bv8, ap: int, pos: int)
    requires pos >= 0
    ensures PosAdj(mode, modeext, ap, PosAdj(mode, modeext, ap, pos)) == pos
  {
  }

  /** A byte as a number. */
  function U8(b: bv8): (n: int)
    ensures 0 <= n < 256
  {
    b as int
  }

  /** The two 32 KB bank offsets of the banked window, from GR09, GR0A and GR0B. */
  function RecalcBanking(id: bv8, gr09: bv8, gr0a: bv8, gr0b: bv8): (banks: (int, int))
    ensures gr0b & BankingDual == 0 ==> banks.1 == banks.0 + 0x8000
    ensures 0 <= banks.0 < 0x400000 && banks.0 % 0x1000 == 0
    ensures gr0b & BankingDual != 0 ==> 0 <= banks.1 < 0x400000 && banks.1 % 0x1000 == 0
    ensures !Is5422(id) ==> banks.0 == U8(gr09 & 0x7f) * 0x1000
  {
    if !Is5422(id) then
      var b0 := U8(gr09 & 0x7f) * 0x1000;
      (b0, if gr0b & BankingDual != 0 then U8(gr0a & 0x7f) * 0x1000 else b0 + 0x8000)
    else if id >= Id5426 && id != Id5424 && gr0b & BankingGranularity16k != 0 then
      var b0 := U8(gr09) * 0x4000;
      (b0, if gr0b & BankingDual != 0 then U8(gr0a) * 0x4000 else b0 + 0x8000)
    else
      var b0 := U8(gr09) * 0x1000;
      (b0, if gr0b & BankingDual != 0 then U8(gr0a) * 0x1000 else b0 + 0x8000)
  }

  /**
   * Where a banked-window address lands in video memory: the offset inside
   * the 32 KB half plus the bank offset that half selects.
   */
  function BankedAddress(addr: int, bankedMask: int, banks: (int, int)): (a: int)
    requires 0 <= addr && (bankedMask == 0xffff || bankedMask == 0x7fff)
    ensures a - (addr % 0x8000) == (if bankedMask == 0xffff && (addr / 0x8000) % 2 == 1 then banks.1 else banks.0)
  {
    var masked := addr % (bankedMask + 1);
    masked % 0x8000 + (if (masked / 0x8000) % 2 == 1 then banks.1 else banks.0)
  }

  /** The values the mapping recalculation derives for the router. */
  datatype Mapping = Mapping(apertureMask: int, bankedMask: int, mmioVramOverlap: bool)

  /** Whether the linear window is in use instead of the banked one. */
  predicate LinearMode(id: bv8, sr07: bv8)
  {
    Is5422(id) && sr07 & 0xf0 != 0 && sr07 & Sr7Svga != 0
  }

  /** Size of the linear window in bytes. */
  function LinearSize(id: bv8, pci: bool, vlb: bool, gr0b: bv8): (size: int)
    ensures size in {0x100000, 0x200000, 0x400000, 0x1000000}
  {
    if id <= Id5429 || (!pci && !vlb) then
      (if gr0b & BankingGranularity16k != 0 then 0x100000 else 0x200000)
    else if id >= Id5436 then 0x1000000
    else 0x400000
  }

  /**
   * The aperture mask, banked mask and MMIO/VRAM overlap after the mapping
   * is recalculated; `memEnabled` is the PCI memory-enable bit (always set
   * off PCI). Fields the branch taken does not set keep their values.
   */
  function RecalcMapping(id: bv8, pci: bool, vlb: bool, memEnabled: bool, sr07: bv8,
                         gr06: bv8, gr0b: bv8, prev: Mapping): (m: Mapping)
    ensures m.apertureMask == 0 || m.apertureMask == 3
    ensures prev.bankedMask in {0x7fff, 0xffff} ==> m.bankedMask in {0x7fff, 0xffff}
    ensures m.mmioVramOverlap && !(pci && !memEnabled) ==> m.bankedMask == 0x7fff
  {
    if pci && !memEnabled then prev.(apertureMask := 0)
    else if !LinearMode(id, sr07) then
      var sel := gr06 & 0x0c;
      Mapping(0, if sel == 0x0 || sel == 0x4 then 0xffff else 0x7fff, sel == 0x0c)
    else
      Mapping(if LinearSize(id, pci, vlb, gr0b) >= 0x1000000 then 3 else 0, prev.bankedMask, false)
  }

  /**
   * The four-quadrant aperture (mask 3) is in force exactly when the linear
   * window is mapped, on a 5436 or later, on PCI or VESA local bus.
   */
  lemma ApertureMaskIff(id: bv8, pci: bool, vlb: bool, memEnabled: bool, sr07: bv8,
                        gr06: bv8, gr0b: bv8, prev: Mapping)
    ensures RecalcMapping(id, pci, vlb, memEnabled, sr07, gr06, gr0b, prev).apertureMask == 3 <==>
      !(pci && !memEnabled) && LinearMode(id, sr07) && id >= Id5436 && (pci || vlb)
  {
  }

  /** Recalculating a recalculated mapping changes nothing more. */
  lemma RecalcIdempotent(id: bv8, pci: bool, vlb: bool, memEnabled: bool, sr07: bv8, gr06: bv8, gr0b: bv8, prev: Mapping)
    ensures var m := RecalcMapping(id, pci, vlb, memEnabled, sr07, gr06, gr0b, prev);
      RecalcMapping(id, pci, vlb, memEnabled, sr07, gr06, gr0b, m) == m
  {
  }

  /** The B8000 window overlaps MMIO exactly when the banked window sits at B8000. */
  lemma OverlapIff(id: bv8, pci: bool, vlb: bool, memEnabled: bool, sr07: bv8, gr06: bv8, gr0b: bv8, prev: Mapping)
    requires !(pci && !memEnabled)
    ensures RecalcMapping(id, pci, vlb, memEnabled, sr07, gr06, gr0b, prev).mmioVramOverlap <==>
      !LinearMode(id, sr07) && gr06 & 0x0c == 0x0c
  {
  }

  /**
   * Whether a memory-mapped access hits the blitter registers: always when
   * SR17 selects the PCI address, else only in the 256 bytes at B8000.
   */
  predicate DoMmio(sr17: bv8, addr: int)
  {
    sr17 & Sr17UsePciAddr != 0 || 0xb8000 <= addr < 0xb8100
  }

  /** The MMIO register a graphics-controller index GR10-GR39 is forwarded to. */
  function GrToMmio(index: bv8): (off: int)
    ensures off == -1 || 0 <= off <= 0x40
  {
    match index
    case 0x10 => 0x01 case 0x11 => 0x05 case 0x12 => 0x02 case 0x13 => 0x06
    case 0x14 => 0x03 case 0x15 => 0x07
    case 0x20 => 0x08 case 0x21 => 0x09 case 0x22 => 0x0a case 0x23 => 0x0b
    case 0x24 => 0x0c case 0x25 => 0x0d case 0x26 => 0x0e case 0x27 => 0x0f
    case 0x28 => 0x10 case 0x29 => 0x11 case 0x2a => 0x12
    case 0x2c => 0x14 case 0x2d => 0x15 case 0x2e => 0x16 case 0x2f => 0x17
    case 0x30 => 0x18 case 0x31 => 0x40 case 0x32 => 0x1a case 0x33 => 0x1b
    case 0x34 => 0x1c case 0x35 => 0x1d case 0x38 => 0x20 case 0x39 => 0x21
    case _ => -1
  }

  /** The graphics-controller index that reaches MMIO register `off`, if any. */
  function MmioToGr(off: int): (index: bv8)
  {
    match off
    case 0x01 => 0x10 case 0x05 => 0x11 case 0x02 => 0x12 case 0x06 => 0x13
    case 0x03 => 0x14 case 0x07 => 0x15
    case 0x08 => 0x20 case 0x09 => 0x21 case 0x0a => 0x22 case 0x0b => 0x23
    case 0x0c => 0x24 case 0x0d => 0x25 case 0x0e => 0x26 case 0x0f => 0x27
    case 0x10 => 0x28 case 0x11 => 0x29 case 0x12 => 0x2a
    case 0x14 => 0x2c case 0x15 => 0x2d case 0x16 => 0x2e case 0x17 => 0x2f
    case 0x18 => 0x30 case 0x40 => 0x31 case 0x1a => 0x32 case 0x1b => 0x33
    case 0x1c => 0x34 case 0x1d => 0x35 case 0x20 => 0x38 case 0x21 => 0x39
    case _ => 0
  }

  /** The forwarding table is one-to-one: each forwarded index has its own MMIO register. */
  lemma GrForwardingInjective(index: bv8)
    requires GrToMmio(index) != -1
    ensures MmioToGr(GrToMmio(index)) == index
  {
  }
}
