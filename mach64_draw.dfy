/*
 * What one pixel of `mach64_blit` computes: the monochrome selector
 * (`mix`) that picks foreground or background, the source colour, the
 * colour compare and the value written back. The engine's loops read and
 * write video memory; the values come from here.
 */
module Mach64Draw {
  import opened Mach64Lanes
  import opened Mach64Mix
  import opened Mach64Setup
  import P = Mach64Pixels

  /** The pattern column a rectangle pixel at column `x` reads: `x / 3` under 24-bit rotation. */
  function PatCol(x: int, rot: bool): (c: int)
    ensures 0 <= c < 8
  {
    (if rot then x / 3 else x) % 8
  }

  /** Whether the 1-bit pixel at address `a` is set. */
  function MonoBit(m: seq<bv8>, a: int, lsbFirst: bool): bool
    requires P.Shape(|m|)
  {
    P.ReadPixel(m, a, P.Width1Bit, lsbFirst) != 0
  }

  /**
   * The source colour for selector `sel` (`DP_SRC`'s foreground or
   * background source): the host data, the source pixel `srcPix`, the
   * foreground or background colour (one byte of it under 24-bit
   * rotation), a colour-pattern byte (only where `withPat`: the 4x2 pattern
   * under PAT_CNTL bit 1, else the 8x1 under bit 2), and 0 otherwise.
   */
  function Source(s: Setup, sel: int, hostDat: bv32, srcPix: bv32, rot: bool, xx: int,
                  x: int, y: int, patCntl: bv32, withPat: bool): bv32
  {
    if sel == SrcHost then hostDat
    else if sel == SrcBlitsrc then srcPix
    else if sel == SrcFg then (if rot then Rot24(s.dpFrgdClr, s.xinc, xx) else s.dpFrgdClr)
    else if sel == SrcBg then (if rot then Rot24(s.dpBkgdClr, s.xinc, xx) else s.dpBkgdClr)
    else if sel == SrcPat && withPat && patCntl & 2 != 0 then s.clr4x2[(y % 2) * 4 + x % 4] as bv32
    else if sel == SrcPat && withPat && patCntl & 4 != 0 then s.clr8x1[x % 8] as bv32
    else 0
  }

  /** The source selector `DP_SRC` gives for monochrome value `mix`. */
  function Sel(s: Setup, mix: bool): int
  {
    if mix then s.sourceFg else s.sourceBg
  }

  /** The raster operation `DP_MIX` gives for monochrome value `mix`. */
  function MixCode(s: Setup, mix: bool): int
  {
    if mix then s.mixFg else s.mixBg
  }

  /** Whether the colour compare of `s` vetoes a pixel. */
  predicate Hit(s: Setup, src: bv32, dst: bv32)
  {
    CompareHit(s.clrCmpFn, s.clrCmpSrc, src, dst, s.clrCmpMask, s.clrCmpClr)
  }

  /** The write mask of a rectangle pixel: one byte of WRITE_MASK under 24-bit rotation. */
  function RectMask(s: Setup, rot: bool, xx: int): bv32
  {
    if rot then Rot24(s.writeMask, s.xinc, xx) else s.writeMask
  }

  /** The value a rectangle pixel writes back over `dst`. */
  function RectValue(s: Setup, mix: bool, src: bv32, dst: bv32, rot: bool, xx: int): bv32
  {
    Combined(Hit(s, src, dst), MixCode(s, mix), dst, src, RectMask(s, rot, xx))
  }

  /** The value a line pixel writes back over `dst`: lines have no write mask. */
  function LineValue(s: Setup, mix: bool, src: bv32, dst: bv32): bv32
  {
    Combined(Hit(s, src, dst), MixCode(s, mix), dst, src, 0xffffffff)
  }

  // ---------------------------------------------------------------- lemmas

  /** A vetoed rectangle pixel is written back with its own value, so memory is unchanged. */
  lemma RectVetoKeeps(m: seq<bv8>, a: int, size: int, lsbFirst: bool, s: Setup, mix: bool, src: bv32, rot: bool, xx: int)
    requires P.Shape(|m|)
    requires Hit(s, src, P.ReadPixel(m, a, size, lsbFirst))
    ensures P.WritePixel(m, a, size, lsbFirst, RectValue(s, mix, src, P.ReadPixel(m, a, size, lsbFirst), rot, xx)) == m
  {
    P.WriteBack(m, a, size, lsbFirst);
  }

  /** A vetoed line pixel leaves memory unchanged. */
  lemma LineVetoKeeps(m: seq<bv8>, a: int, size: int, lsbFirst: bool, s: Setup, mix: bool, src: bv32)
    requires P.Shape(|m|)
    requires Hit(s, src, P.ReadPixel(m, a, size, lsbFirst))
    ensures P.WritePixel(m, a, size, lsbFirst, LineValue(s, mix, src, P.ReadPixel(m, a, size, lsbFirst))) == m
  {
    P.WriteBack(m, a, size, lsbFirst);
  }

  /**
   * Whether or not the compare vetoes it, a rectangle pixel's value keeps
   * the old pixel in every bit outside the write mask (with
   * `P.ReadAfterWrite`, those bits read back unchanged).
   */
  lemma RectMaskKeeps(s: Setup, mix: bool, src: bv32, dst: bv32, rot: bool, xx: int)
    ensures RectValue(s, mix, src, dst, rot, xx) & !RectMask(s, rot, xx) == dst & !RectMask(s, rot, xx)
  {
    var h, c, wm := Hit(s, src, dst), MixCode(s, mix), RectMask(s, rot, xx);
    assert RectValue(s, mix, src, dst, rot, xx) == Combined(h, c, dst, src, wm);
    CombinedMask(h, c, dst, src, wm);
  }

  /** An unvetoed rectangle pixel's value is the mix inside the write mask. */
  lemma RectMixShows(s: Setup, mix: bool, src: bv32, dst: bv32, rot: bool, xx: int)
    requires !Hit(s, src, dst)
    ensures RectValue(s, mix, src, dst, rot, xx) & RectMask(s, rot, xx) == Mix(MixCode(s, mix), dst, src) & RectMask(s, rot, xx)
  {
    var h, c, wm := Hit(s, src, dst), MixCode(s, mix), RectMask(s, rot, xx);
    assert RectValue(s, mix, src, dst, rot, xx) == Combined(h, c, dst, src, wm);
    UnvetoedMix(h, c, dst, src, wm);
  }

  /** `CombinedMix` for a veto flag known to be clear. */
  lemma UnvetoedMix(hit: bool, code: int, dst: bv32, src: bv32, wm: bv32)
    requires !hit
    ensures Combined(hit, code, dst, src, wm) & wm == Mix(code, dst, src) & wm
  {
    CombinedMix(code, dst, src, wm);
  }

  /** An unvetoed line pixel reads back as the mix, cut to the pixel size. */
  lemma LineMixShows(m: seq<bv8>, a: int, size: int, lsbFirst: bool, s: Setup, mix: bool, src: bv32)
    requires P.Shape(|m|)
    requires !Hit(s, src, P.ReadPixel(m, a, size, lsbFirst))
    ensures var dst := P.ReadPixel(m, a, size, lsbFirst);
            P.ReadPixel(P.WritePixel(m, a, size, lsbFirst, LineValue(s, mix, src, dst)), a, size, lsbFirst)
            == P.Fit(Mix(MixCode(s, mix), dst, src), size)
  {
    var dst := P.ReadPixel(m, a, size, lsbFirst);
    P.ReadAfterWrite(m, a, size, lsbFirst, LineValue(s, mix, src, dst));
    WriteMaskedExtremes(Mix(MixCode(s, mix), dst, src), dst);
  }

  /** Under 24-bit rotation only the low byte of a pixel can change. */
  lemma RotKeepsHighBytes(s: Setup, mix: bool, src: bv32, dst: bv32, xx: int)
    ensures RectValue(s, mix, src, dst, true, xx) & 0xffffff00 == dst & 0xffffff00
  {
    var h, c, wm := Hit(s, src, dst), MixCode(s, mix), RectMask(s, true, xx);
    assert wm == Rot24(s.writeMask, s.xinc, xx);
    assert RectValue(s, mix, src, dst, true, xx) == Combined(h, c, dst, src, wm);
    Rot24KeepsHighBytes(h, c, dst, src, s.writeMask, s.xinc, xx);
  }

  /** The foreground or background byte under 24-bit rotation walks through the colour's three bytes. */
  lemma SourceRotates(s: Setup, sel: int, hostDat: bv32, srcPix: bv32, xx: int, x: int, y: int, patCntl: bv32)
    requires (sel == SrcFg || sel == SrcBg) && s.xinc == 1 && 0 <= xx < 3
    ensures var c := if sel == SrcFg then s.dpFrgdClr else s.dpBkgdClr;
            Source(s, sel, hostDat, srcPix, true, xx, x, y, patCntl, true) == GetLane(xx, c) as bv32
  {
    var c := if sel == SrcFg then s.dpFrgdClr else s.dpBkgdClr;
    assert Source(s, sel, hostDat, srcPix, true, xx, x, y, patCntl, true) == Rot24(c, s.xinc, xx);
    Rot24Forward(c, xx);
  }

  /** A pattern source repeats every four columns and two rows (4x2) or every eight columns (8x1). */
  lemma SourcePatternRepeats(s: Setup, hostDat: bv32, srcPix: bv32, xx: int, x: int, y: int, patCntl: bv32)
    ensures Source(s, SrcPat, hostDat, srcPix, false, xx, x, y, patCntl, true)
            == Source(s, SrcPat, hostDat, srcPix, false, xx, x + 8, y + 2, patCntl, true)
    ensures Source(s, SrcPat, hostDat, srcPix, false, xx, x, y, patCntl, false) == 0
  {
    assert (x + 8) % 4 == x % 4 && (x + 8) % 8 == x % 8 && (y + 2) % 2 == y % 2;
  }
}
