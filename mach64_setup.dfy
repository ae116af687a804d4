/*
 * Setting up a Mach64 drawing operation: `mach64_start_fill` and
 * `mach64_start_line` copy the drawing-engine registers into the engine's
 * working state (`accel`), sign-extending coordinates, picking pixel
 * sizes, scaling offsets and latching colours, masks and scissors. This
 * module holds that working state and the pure parts of the two setups.
 */
module Mach64Setup {
  import opened Mach64Lanes
  import opened Mach64Regs
  import Mach64Pixels

  /** The operation the engine runs. */
  datatype Op = Rect | Line

  /**
   * The part of the engine's working state (`mach64->accel`) a setup loads
   * and a walk only reads: where the start point is, which way the walk
   * goes, the surfaces, mixes, sources, colours, scissor and compare.
   */
  datatype Setup = Setup(
    dstXStart: int, dstYStart: int, xinc: int, yinc: int, dstWidth: int,
    srcWidth1: int, srcHeight1: int, srcWidth2: int, srcHeight2: int,
    srcOffset: bv32, srcPitch: bv32, dstOffset: bv32, dstPitch: bv32,
    mixBg: int, mixFg: int, sourceBg: int, sourceFg: int, sourceMix: int, sourceHost: bool,
    clr4x2: Row8, clr8x1: Row8,
    scLeft: int, scRight: int, scTop: int, scBottom: int,
    dstPixWidth: int, srcPixWidth: int, hostPixWidth: int,
    dstSize: int, srcSize: int, hostSize: int,
    dpBkgdClr: bv32, dpFrgdClr: bv32, writeMask: bv32,
    clrCmpClr: bv32, clrCmpMask: bv32, clrCmpFn: int, clrCmpSrc: bool)

  /** The eight bytes of a colour pattern (`clr4x2`, `clr8x1`). */
  type Row8 = s: seq<bv8> | |s| == 8 witness [0, 0, 0, 0, 0, 0, 0, 0]

  /** The part of the working state a walk steps: positions, counters, the line error and `busy`. */
  datatype Walk = Walk(
    dstX: int, dstY: int, srcX: int, srcY: int, srcXStart: int, srcYStart: int,
    xCount: int, xxCount: int, srcXCount: int, srcYCount: int, dstHeight: int,
    err: int, polyDraw: bool, busy: bool)

  /** The engine's working state: the operation, its setup and where the walk is. */
  datatype Accel = Accel(op: Op, s: Setup, w: Walk)

  /** Sources of the `DP_SRC` selectors. */
  const SrcBg := 0
  const SrcFg := 1
  const SrcHost := 2
  const SrcBlitsrc := 3
  const SrcPat := 4

  /** Sources of the monochrome selector. */
  const MonoSrc1 := 0
  const MonoSrcPat := 1
  const MonoSrcHost := 2
  const MonoSrcBlitsrc := 3

  /** `SRC_CNTL` bits. */
  const SrcPattEn: bv32 := 1
  const SrcPattRotEn: bv32 := 2
  const SrcLinearEn: bv32 := 4
  const SrcByteAlign: bv32 := 8

  /** `DST_CNTL` bits. */
  const DstXDir: bv32 := 0x01
  const DstYDir: bv32 := 0x02
  const DstYMajor: bv32 := 0x04
  const DstXTile: bv32 := 0x08
  const DstYTile: bv32 := 0x10
  const DstLastPel: bv32 := 0x20
  const DstPolygonEn: bv32 := 0x40
  const Dst24RotEn: bv32 := 0x80

  /** The `DP_BYTE_PIX_ORDER` bit of `DP_PIX_WIDTH`. */
  const DpBytePixOrder: bv32 := 0x100_0000

  /** The pixel size of each pixel-width code (the `mach64_width` table): 3 is 1-bit, 0 8-bit, 1 16-bit, 2 32-bit. */
  function WidthSize(w: int): (s: int)
    requires 0 <= w < 8
    ensures 0 <= s <= 3
    ensures s == 3 <==> w == 0
  {
    [3, 0, 0, 1, 1, 2, 2, 0][w]
  }

  /**
   * The signed value of a `2 * half`-wide two's-complement field `f`. The
   * source writes this as `f & (half - 1)`, or-ed with `~(half - 1)` when
   * bit `half` is set.
   */
  function Signed(f: int, half: int): int
  {
    if f >= half then f - 2 * half else f
  }

  /** A 13-bit signed X coordinate (bits 0-11, sign bit 12). */
  function SignExtend13(v: bv32): (s: int)
    ensures -0x1000 <= s < 0x1000 && s % (2 * 0x1000) == (v & 0x1fff) as int
    ensures s < 0 <==> (v & 0x1fff) as int >= 0x1000
  {
    var f := (v & 0x1fff) as int;
    SignedInverse(f, 0x1000);
    Signed(f, 0x1000)
  }

  /** A 15-bit signed Y coordinate (bits 0-13, sign bit 14). */
  function SignExtend15(v: bv32): (s: int)
    ensures -0x4000 <= s < 0x4000 && s % (2 * 0x4000) == (v & 0x7fff) as int
    ensures s < 0 <==> (v & 0x7fff) as int >= 0x4000
  {
    var f := (v & 0x7fff) as int;
    SignedInverse(f, 0x4000);
    Signed(f, 0x4000)
  }

  /** The 19-bit signed Bresenham error term of `DST_BRES_ERR` (bits 0-17, sign bit 18). */
  function SignExtend19(v: bv32): (s: int)
    ensures -0x40000 <= s < 0x40000 && s % (2 * 0x40000) == (v & 0x7ffff) as int
    ensures s < 0 <==> (v & 0x7ffff) as int >= 0x40000
  {
    var f := (v & 0x7ffff) as int;
    SignedInverse(f, 0x40000);
    Signed(f, 0x40000)
  }

  /** A sign-extended field lies in `-half .. half - 1`, is negative exactly when its sign bit is set, and re-encodes to the field. */
  lemma SignedInverse(f: int, half: int)
    requires 0 < half && 0 <= f < 2 * half
    ensures -half <= Signed(f, half) < half
    ensures Signed(f, half) < 0 <==> f >= half
    ensures Signed(f, half) % (2 * half) == f
  {
    if f >= half {
      Mach64Pixels.ModUnique(f - 2 * half, 2 * half, -1, f);
    } else {
      Mach64Pixels.ModUnique(f, 2 * half, 0, f);
    }
  }

  /** The pitch field of an `*_OFF_PITCH` register, in pixels (bits 22-31, times 8). */
  function Pitch(offPitch: bv32): bv32
  {
    (offPitch >> 22) << 3
  }

  /** The offset field of an `*_OFF_PITCH` register (bits 0-19, in units of 8 bytes) as a pixel address for pixels of size `size`. */
  function Offset(offPitch: bv32, size: int): bv32
    requires 0 <= size <= 3
  {
    var bytes := (offPitch & 0xfffff) << 3;
    if size == 3 then bytes << 3
    else if size == 0 then bytes
    else if size == 1 then bytes >> 1
    else bytes >> 2
  }

  /** The `DST_WIDTH` field (bits 16-28) of `DST_HEIGHT_WIDTH`. */
  function WidthField(hw: bv32): (w: int)
    ensures 0 <= w < 0x2000
  {
    ((hw >> 16) & 0x1fff) as int
  }

  /** Whether a fill rounds its width up: the monochrome source is the blit source, read linearly and byte-aligned. */
  predicate RoundsWidth(dpSrc: bv32, srcCntl: bv32)
  {
    (dpSrc >> 16) & 7 == 3 && srcCntl & (SrcLinearEn | SrcByteAlign) == SrcLinearEn | SrcByteAlign
  }

  /** The destination width of a fill: `w`, rounded up to a multiple of 8 when `round` holds. */
  function FillWidth(w: int, round: bool): int
  {
    if round && w % 8 != 0 then w - w % 8 + 8 else w
  }

  /** The rounding gives the least multiple of 8 at or above the width; without it the width is kept. */
  lemma FillWidthRounds(w: int, round: bool)
    requires 0 <= w
    ensures round ==> FillWidth(w, round) % 8 == 0 && w <= FillWidth(w, round) < w + 8
    ensures !round ==> FillWidth(w, round) == w
  {
  }

  /** The step of the X or Y direction bit: +1 when set, -1 when clear. */
  function Dir(on: bool): int
  {
    if on then 1 else -1
  }

  /** The eight bytes of the colour patterns: `PAT_REG0`'s bytes, then `PAT_REG1`'s, least significant first. */
  function PatternBytes(r0: bv32, r1: bv32): Row8
  {
    [GetLane(0, r0), GetLane(1, r0), GetLane(2, r0), GetLane(3, r0),
     GetLane(0, r1), GetLane(1, r1), GetLane(2, r1), GetLane(3, r1)]
  }

  /** The colour-pattern bytes give back both pattern registers. */
  lemma PatternBytesInverse(r0: bv32, r1: bv32)
    ensures var s := PatternBytes(r0, r1);
            Compose32(s[0], s[1], s[2], s[3]) == r0 && Compose32(s[4], s[5], s[6], s[7]) == r1
  {
    ComposeLanes(r0);
    ComposeLanes(r1);
  }

  /**
   * The monochrome pattern bit at row `y`, bit `x`: bit `x + 8 * (y & 3)`
   * of `PAT_REG1` for rows 4-7, of `PAT_REG0` for rows 0-3. The source
   * stores it at column `7 - x`.
   */
  function PatternBit(r0: bv32, r1: bv32, y: int, x: int): bool
    requires 0 <= y < 8 && 0 <= x < 8
  {
    var t := if y >= 4 then r1 else r0;
    Bit(t, x + 8 * (y % 4))
  }

  /** Bit `i` of `t`. */
  predicate Bit(t: bv32, i: int)
    requires 0 <= i < 32
  {
    (t >> i) & 1 == 1
  }

  /** Row `y` of the pattern is byte `y & 3` of its register, bit `x` of the byte at column `7 - x`. */
  lemma PatternRowIsLane(r0: bv32, r1: bv32, y: int, x: int)
    requires 0 <= y < 8 && 0 <= x < 8
    ensures PatternBit(r0, r1, y, x) == Bit(GetLane(y % 4, if y >= 4 then r1 else r0) as bv32, x)
  {
    var t := if y >= 4 then r1 else r0;
    var k := y % 4;
    var i := x + 8 * k;
    assert PatternBit(r0, r1, y, x) == Bit(t, i);
    if k == 0 {
      assert i == x;
      RowBit0(t, x);
    } else if k == 1 {
      assert i == x + 8;
      RowBit1(t, x);
    } else if k == 2 {
      assert i == x + 16;
      RowBit2(t, x);
    } else {
      assert i == x + 24;
      RowBit3(t, x);
    }
  }

  lemma RowBit0(t: bv32, x: int)
    requires 0 <= x < 8
    ensures Bit(t, x) == Bit(GetLane(0, t) as bv32, x)
  {
    if x == 0 {} else if x == 1 {} else if x == 2 {} else if x == 3 {}
    else if x == 4 {} else if x == 5 {} else if x == 6 {} else {}
  }

  lemma RowBit1(t: bv32, x: int)
    requires 0 <= x < 8
    ensures Bit(t, x + 8) == Bit(GetLane(1, t) as bv32, x)
  {
    if x == 0 {} else if x == 1 {} else if x == 2 {} else if x == 3 {}
    else if x == 4 {} else if x == 5 {} else if x == 6 {} else {}
  }

  lemma RowBit2(t: bv32, x: int)
    requires 0 <= x < 8
    ensures Bit(t, x + 16) == Bit(GetLane(2, t) as bv32, x)
  {
    if x == 0 {} else if x == 1 {} else if x == 2 {} else if x == 3 {}
    else if x == 4 {} else if x == 5 {} else if x == 6 {} else {}
  }

  lemma RowBit3(t: bv32, x: int)
    requires 0 <= x < 8
    ensures Bit(t, x + 24) == Bit(GetLane(3, t) as bv32, x)
  {
    if x == 0 {} else if x == 1 {} else if x == 2 {} else if x == 3 {}
    else if x == 4 {} else if x == 5 {} else if x == 6 {} else {}
  }

  /** The pixel-width codes of `DP_PIX_WIDTH`: destination (bits 0-2), source (8-10), host (16-18). */
  function DstPixWidth(dp: bv32): (w: int) ensures 0 <= w < 8 { (dp & 7) as int }
  function SrcPixWidth(dp: bv32): (w: int) ensures 0 <= w < 8 { ((dp >> 8) & 7) as int }
  function HostPixWidth(dp: bv32): (w: int) ensures 0 <= w < 8 { ((dp >> 16) & 7) as int }

  /** The background, foreground and monochrome selectors of `DP_SRC`. */
  function SourceBg(dpSrc: bv32): int { (dpSrc & 7) as int }
  function SourceFg(dpSrc: bv32): int { ((dpSrc >> 8) & 7) as int }
  function SourceMix(dpSrc: bv32): int { ((dpSrc >> 16) & 7) as int }

  /**
   * The part of the setup both operations load the same way: pixel sizes,
   * offsets and pitches, mixes and sources, directions, scissors, colours,
   * write mask and colour compare.
   */
  function Common(s: Setup, r: RegFile): (t: Setup)
    requires Full(r)
  {
    var dp := r[DpPixWidth];
    var ds := WidthSize(DstPixWidth(dp));
    var ss := WidthSize(SrcPixWidth(dp));
    var src := r[DpSrc];
    s.(dstPixWidth := DstPixWidth(dp), srcPixWidth := SrcPixWidth(dp), hostPixWidth := HostPixWidth(dp),
       dstSize := ds, srcSize := ss, hostSize := WidthSize(HostPixWidth(dp)),
       srcPitch := Pitch(r[SrcOffPitch]), srcOffset := Offset(r[SrcOffPitch], ss),
       dstPitch := Pitch(r[DstOffPitch]), dstOffset := Offset(r[DstOffPitch], ds),
       mixFg := ((r[DpMix] >> 16) & 0x1f) as int, mixBg := (r[DpMix] & 0x1f) as int,
       sourceBg := SourceBg(src), sourceFg := SourceFg(src), sourceMix := SourceMix(src),
       sourceHost := SourceBg(src) == SrcHost || SourceFg(src) == SrcHost,
       xinc := Dir(r[DstCntl] & DstXDir != 0), yinc := Dir(r[DstCntl] & DstYDir != 0),
       scLeft := (r[ScLeftRight] & 0x1fff) as int, scRight := ((r[ScLeftRight] >> 16) & 0x1fff) as int,
       scTop := (r[ScTopBottom] & 0x7fff) as int, scBottom := ((r[ScTopBottom] >> 16) & 0x7fff) as int,
       dpFrgdClr := r[DpFrgdClr], dpBkgdClr := r[DpBkgdClr], writeMask := r[WriteMask],
       clrCmpClr := r[ClrCmpClr] & r[ClrCmpMask], clrCmpMask := r[ClrCmpMask],
       clrCmpFn := (r[ClrCmpCntl] & 7) as int, clrCmpSrc := r[ClrCmpCntl] & 0x100_0000 != 0)
  }

  /** The setup of a fill: the common part, the start point, the size, the source rectangles and the colour patterns `PAT_CNTL` asks for. */
  function FillSetup(s: Setup, r: RegFile): (t: Setup)
    requires Full(r)
  {
    var c := Common(s, r);
    var s1 := r[SrcHeight1Width1];
    var s2 := r[SrcHeight2Width2];
    var pc := r[PatCntl];
    var bytes := PatternBytes(r[PatReg0], r[PatReg1]);
    c.(dstXStart := SignExtend13(r[DstYX] >> 16), dstYStart := SignExtend15(r[DstYX]),
       dstWidth := FillWidth(WidthField(r[DstHeightWidth]), RoundsWidth(r[DpSrc], r[SrcCntl])),
       srcWidth1 := ((s1 >> 16) & 0x7fff) as int, srcHeight1 := (s1 & 0x1fff) as int,
       srcWidth2 := ((s2 >> 16) & 0x7fff) as int, srcHeight2 := (s2 & 0x1fff) as int,
       clr4x2 := if pc & 2 != 0 then bytes else s.clr4x2,
       clr8x1 := if pc & 4 != 0 then bytes else s.clr8x1)
  }

  /**
   * The working state `mach64_start_fill` sets up from the registers `r`
   * (all but the monochrome pattern, which the engine unpacks): a rectangle
   * at the sign-extended `DST_Y_X`, `DST_WIDTH` by `DST_HEIGHT`, with the
   * source walk at the sign-extended `SRC_Y_X`.
   */
  function FillAccel(a: Accel, r: RegFile): (b: Accel)
    requires Full(r)
  {
    var t := FillSetup(a.s, r);
    var s1 := r[SrcHeight1Width1];
    var sc := r[SrcCntl];
    Accel(Rect, t, Walk(
      dstX := 0, dstY := 0, srcX := 0, srcY := 0,
      srcXStart := SignExtend13(r[SrcYX] >> 16), srcYStart := SignExtend15(r[SrcYX]),
      xCount := t.dstWidth, xxCount := 0,
      srcXCount := if sc & SrcLinearEn != 0 then 0x7ffffff else ((s1 >> 16) & 0x7fff) as int,
      srcYCount := if sc & SrcPattEn == 0 then 0x7ffffff else (s1 & 0x1fff) as int,
      dstHeight := (r[DstHeightWidth] & 0x1fff) as int,
      err := a.w.err, polyDraw := false, busy := true))
  }

  /**
   * The working state `mach64_start_line` sets up from the registers `r`:
   * a line from the sign-extended `DST_Y_X` (and source `SRC_Y_X`) of
   * `DST_BRES_LNTH` pixels with the sign-extended 19-bit error term; the
   * rectangle counters keep their values.
   */
  function LineAccel(a: Accel, r: RegFile): (b: Accel)
    requires Full(r)
  {
    Accel(Line, Common(a.s, r), a.w.(
      dstX := SignExtend13(r[DstYX] >> 16), dstY := SignExtend15(r[DstYX]),
      srcX := SignExtend13(r[SrcYX] >> 16), srcY := SignExtend15(r[SrcYX]),
      xCount := (r[DstBresLnth] & 0x7fff) as int,
      err := SignExtend19(r[DstBresErr]), busy := true))
  }

  /** Both setups walk in the directions of DST_X_DIR and DST_Y_DIR, latch a compare colour inside the compare mask, and pick pixel sizes from the width table. */
  lemma SetupCommon(s: Setup, r: RegFile)
    requires Full(r)
    ensures var t := Common(s, r);
            t.xinc == (if r[DstCntl] & DstXDir != 0 then 1 else -1)
            && t.yinc == (if r[DstCntl] & DstYDir != 0 then 1 else -1)
            && t.clrCmpClr & !t.clrCmpMask == 0
            && t.sourceHost == (SourceBg(r[DpSrc]) == SrcHost || SourceFg(r[DpSrc]) == SrcHost)
            && 0 <= t.dstSize <= 3 && 0 <= t.srcSize <= 3 && 0 <= t.hostSize <= 3
  {
  }

  /** A fill starts busy at the first pixel of the first row, with the row length the width. */
  lemma FillStarts(a: Accel, r: RegFile)
    requires Full(r)
    ensures var b := FillAccel(a, r);
            b.op == Rect && b.w.busy && b.w.dstX == 0 && b.w.dstY == 0 && b.w.xxCount == 0 && !b.w.polyDraw
            && b.w.xCount == b.s.dstWidth
  {
  }

  /** A fill's width is the (possibly rounded) `DST_WIDTH`, its height `DST_HEIGHT`, and its start a sign-extended point. */
  lemma FillExtent(a: Accel, r: RegFile)
    requires Full(r)
    ensures var b := FillAccel(a, r);
            var w := WidthField(r[DstHeightWidth]);
            w <= b.s.dstWidth < w + 8 && 0 <= b.w.dstHeight < 0x2000
            && (RoundsWidth(r[DpSrc], r[SrcCntl]) ==> b.s.dstWidth % 8 == 0)
            && -0x1000 <= b.s.dstXStart < 0x1000 && -0x4000 <= b.s.dstYStart < 0x4000
  {
    FillWidthRounds(WidthField(r[DstHeightWidth]), RoundsWidth(r[DpSrc], r[SrcCntl]));
  }

  /** A line starts busy at the sign-extended destination, with an error term in the 19-bit range. */
  lemma LineStarts(a: Accel, r: RegFile)
    requires Full(r)
    ensures var b := LineAccel(a, r);
            b.op == Line && b.w.busy && 0 <= b.w.xCount < 0x8000
            && -0x1000 <= b.w.dstX < 0x1000 && -0x4000 <= b.w.dstY < 0x4000
            && -0x40000 <= b.w.err < 0x40000
  {
  }
}
