/*
 * What one visit of a CL-GD54xx blit engine leaves in a destination byte.
 * Each engine fetches a byte (a source byte, a pattern byte, or the mask
 * byte that drives colour expansion), works out the source colour and the
 * write mask, and combines them with the old destination byte. These
 * functions are those per-byte decisions; the engines in `Gd54xx` walk the
 * rows and apply them.
 */
module Gd54xxVisit {
  import opened Gd54xxOps
  import opened Gd54xxRegs

  /** A 16-bit register as a number. */
  function U16(b: bv16): (n: int)
    ensures 0 <= n < 0x10000
  {
    b as int
  }

  /** A 32-bit register as a number. */
  function U32(b: bv32): (n: int)
    ensures 0 <= n < 0x1_0000_0000
  {
    b as int
  }

  /** `0x80 >> k`: the expansion bit for pixel `k` of a mask byte, most significant first. */
  function PixelBit(k: int): bv8
  {
    match k
    case 0 => 0x80 case 1 => 0x40 case 2 => 0x20 case 3 => 0x10
    case 4 => 0x08 case 5 => 0x04 case 6 => 0x02 case 7 => 0x01
    case _ => 0x00
  }

  /** Whether pixel `k` (0-7, most significant bit first) of a mask byte is set. */
  predicate ExpandBit(m: bv8, k: int)
  {
    m & PixelBit(k) != 0
  }

  /** Whether bit `i` (0 = least significant) of a data dword is set. */
  predicate DataBit(v: bv32, i: int)
    requires 0 <= i < 32
  {
    ExpandBit(Lane32(v, i / 8), 7 - i % 8)
  }

  /** Whether the blit mode expands a monochrome mask into colour. */
  predicate Expanding(r: Regs) { r.mode & ModeColorExpand != 0 }

  /** Whether the blit mode compares against the transparency colour. */
  predicate Transparent(r: Regs) { r.mode & ModeTransparentComp != 0 }

  // ---- normal blit (video to video) ----

  /**
   * The source byte of a normal-blit visit. In colour-expand mode `fetched`
   * is the mask byte and the expansion counter `xCount` picks its pixel bit
   * and the colour byte; otherwise `fetched` is the source byte itself.
   */
  function NormalSrc(r: Regs, pw: int, xCount: int, fetched: bv8): (src: bv8)
    requires 1 <= pw <= 4 && 0 <= xCount
    ensures !Expanding(r) ==> src == fetched
  {
    if Expanding(r) then ColorExpand(r.mode, r.fgCol, r.bgCol, ExpandBit(fetched, xCount / pw), xCount % pw)
    else fetched
  }

  /**
   * The write mask of a normal-blit visit: the expansion bit (inverted when
   * asked) in colour-expand mode, set otherwise, and cleared at 8 and 16 bpp
   * in transparent mode when the source byte differs from the low byte of
   * the transparency MASK register (the code compares against the mask, not
   * the colour).
   */
  predicate NormalKeeps(r: Regs, pw: int, xCount: int, fetched: bv8)
    requires 1 <= pw <= 4 && 0 <= xCount
  {
    var m0 := if Expanding(r) then ExpandBit(fetched, xCount / pw) else true;
    var m1 := if Expanding(r) && r.modeext & ExtColorExpInv != 0 then !m0 else m0;
    if Transparent(r) && !Expanding(r) && r.mode & ModePixelWidthMask <= 0x10
       && NormalSrc(r, pw, xCount, fetched) != Lane16(r.transMask, 0)
    then false
    else m1
  }

  /** Whether a normal-blit visit stores its result: past the left skip, and not masked out in transparent mode. */
  predicate NormalWrites(r: Regs, pw: int, patternX: int, col: int, xCount: int, fetched: bv8)
    requires 1 <= pw <= 4 && 0 <= xCount
  {
    col >= patternX && !(Transparent(r) && !NormalKeeps(r, pw, xCount, fetched))
  }

  /** The byte a normal-blit visit leaves at column `col` of its row, over the old byte `dst`. */
  function NormalByte(r: Regs, pw: int, patternX: int, col: int, xCount: int, fetched: bv8, dst: bv8): (b: bv8)
    requires 1 <= pw <= 4 && 0 <= xCount
    ensures NormalWrites(r, pw, patternX, col, xCount, fetched) ==> b == Rop(r.rop, NormalSrc(r, pw, xCount, fetched), dst)
    ensures !NormalWrites(r, pw, patternX, col, xCount, fetched) ==> b == dst
  {
    if NormalWrites(r, pw, patternX, col, xCount, fetched) then Rop(r.rop, NormalSrc(r, pw, xCount, fetched), dst)
    else dst
  }

  /** Columns left of the skip count keep their old value. */
  lemma NormalLeftSkip(r: Regs, pw: int, patternX: int, col: int, xCount: int, fetched: bv8, dst: bv8)
    requires 1 <= pw <= 4 && 0 <= xCount && col < patternX
    ensures NormalByte(r, pw, patternX, col, xCount, fetched, dst) == dst
  {
  }

  /** Without transparency every byte past the skip takes the raster operation's result. */
  lemma NormalOpaque(r: Regs, pw: int, patternX: int, col: int, xCount: int, fetched: bv8, dst: bv8)
    requires 1 <= pw <= 4 && 0 <= xCount && col >= patternX && !Transparent(r)
    ensures NormalByte(r, pw, patternX, col, xCount, fetched, dst) == Rop(r.rop, NormalSrc(r, pw, xCount, fetched), dst)
  {
  }

  /**
   * Transparent copy at 8 or 16 bpp writes a source byte exactly when it
   * EQUALS the low byte of the transparency mask register; the transparency
   * colour plays no part.
   */
  lemma NormalTransparencyUsesMask(r: Regs, pw: int, patternX: int, col: int, xCount: int, fetched: bv8, dst: bv8)
    requires 1 <= pw <= 4 && 0 <= xCount && col >= patternX
    requires Transparent(r) && !Expanding(r) && r.mode & ModePixelWidthMask <= 0x10
    ensures NormalByte(r, pw, patternX, col, xCount, fetched, dst)
            == if fetched == Lane16(r.transMask, 0) then Rop(r.rop, fetched, dst) else dst
  {
  }

  /** Transparent colour expansion writes exactly the set mask bits (the clear ones when inverted). */
  lemma NormalExpandTransparent(r: Regs, pw: int, patternX: int, col: int, xCount: int, fetched: bv8, dst: bv8)
    requires 1 <= pw <= 4 && 0 <= xCount && col >= patternX && Transparent(r) && Expanding(r)
    ensures NormalWrites(r, pw, patternX, col, xCount, fetched)
            <==> (ExpandBit(fetched, xCount / pw) != (r.modeext & ExtColorExpInv != 0))
  {
  }

  // ---- pattern copy ----

  /**
   * Whether a pattern-copy byte at pixel offset `x`, byte `xx` of the pixel,
   * falls in the left skip: at 24 bpp the skip is counted in bytes, so it
   * compares `x + xx`; at other widths it compares `x` alone.
   */
  predicate PatternSkip(pw: int, x: int, xx: int, patternX: int)
  {
    if pw == 3 then x + xx < patternX else x < patternX
  }

  /** Outside 24 bpp all bytes of a pixel share the skip decision; at 24 bpp it is made per byte. */
  lemma PatternSkipQuirk(pw: int, x: int, xx: int, patternX: int)
    requires 0 <= xx < pw
    ensures pw != 3 ==> (PatternSkip(pw, x, xx, patternX) <==> PatternSkip(pw, x, 0, patternX))
    ensures pw == 3 ==> (PatternSkip(pw, x, xx, patternX) <==> x + xx < patternX)
  {
  }

  /**
   * The byte pattern copy leaves at byte `xx` of the pixel at offset `x`.
   * In colour-expand mode `fetched` is the pattern mask byte (ignored for a
   * solid fill) and `pixel` its bit; otherwise it is the pattern colour byte.
   */
  function PatternByte(id: bv8, r: Regs, pw: int, patternX: int, x: int, xx: int, pixel: int, fetched: bv8, dst: bv8): (b: bv8)
    requires 1 <= pw <= 4 && 0 <= xx < pw
    ensures b == dst || Expanding(r) || b == Rop(r.rop, fetched, dst)
    ensures (PatternSkip(pw, x, xx, patternX) && r.mode & ModeMemSysDest == 0 && !Transparent(r)
             && !(Expanding(r) && r.modeext & ExtBackgroundOnly != 0)) ==> b == dst
  {
    if Expanding(r) then
      var bit := r.modeext & ExtSolidFill != 0 || ExpandBit(fetched, pixel);
      BlitByte(r.mode, r.modeext, r.rop, bit, PatternSkip(pw, x, xx, patternX),
               ColorExpand(r.mode, r.fgCol, r.bgCol, bit, xx), dst)
    else
      BlitByte(r.mode, r.modeext, r.rop, TransparentComp(id, pw, r.transCol, r.transMask, xx, fetched),
               PatternSkip(pw, x, xx, patternX), fetched, dst)
  }

  // ---- system-to-video streaming ----

  /**
   * Whether a system-to-video byte is in the left skip: at 24-bpp colour
   * expansion the skip is counted in bytes (`xCount + xxCount`), otherwise in
   * whole pixels.
   */
  predicate SysSrcSkip(r: Regs, pw: int, xCount: int, xxCount: int, patternX: int)
  {
    if pw == 3 && Expanding(r) then xCount + xxCount < patternX else xCount < patternX
  }

  /**
   * The byte a system-to-video step leaves over `dst`. In colour-expand
   * mode `bit` is the current data bit and `xxCount` the byte of the pixel;
   * otherwise `data` is the data byte itself.
   */
  function SysSrcByte(id: bv8, r: Regs, pw: int, patternX: int, xCount: int, xxCount: int, bit: bool, data: bv8, dst: bv8): (b: bv8)
    requires 1 <= pw <= 4 && 0 <= xxCount < pw
    ensures b == dst || Expanding(r) || b == Rop(r.rop, data, dst)
  {
    if Expanding(r) then
      BlitByte(r.mode, r.modeext, r.rop, bit, SysSrcSkip(r, pw, xCount, xxCount, patternX),
               ColorExpand(r.mode, r.fgCol, r.bgCol, bit, xxCount), dst)
    else
      BlitByte(r.mode, r.modeext, r.rop, TransparentComp(id, pw, r.transCol, r.transMask, xxCount, data),
               SysSrcSkip(r, pw, xCount, xxCount, patternX), data, dst)
  }
}
