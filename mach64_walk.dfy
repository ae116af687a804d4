/*
 * How `mach64_blit` moves through an operation, one pixel at a time: the
 * rectangle walker (with its source wrap and row ends), the Bresenham line
 * walkers, the host data each pixel consumes, and the end-of-fill tiling of
 * `DST_Y_X`. Everything here is a function of the working state; the
 * engine's methods apply them.
 */
module Mach64Walk {
  import opened Mach64Lanes
  import opened Mach64Setup
  import Mach64Pixels

  /** C's conversion of an `int` sum with a `uint32_t` back to a 32-bit `int`: two's-complement wrap-around. */
  function I32(x: int): (r: int)
    ensures -0x8000_0000 <= r < 0x8000_0000
  {
    (x + 0x8000_0000) % 0x1_0000_0000 - 0x8000_0000
  }

  /** Sums that stay in range are not wrapped. */
  lemma I32InRange(x: int)
    requires -0x8000_0000 <= x < 0x8000_0000
    ensures I32(x) == x
  {
    Mach64Pixels.ModUnique(x + 0x8000_0000, 0x1_0000_0000, 0, x + 0x8000_0000);
  }

  // ---------------------------------------------------------------- host data

  /** What one pixel takes from the host word: its own data, the rest of the word, and the bit count left. */
  datatype Feed = Feed(hostDat: bv32, cpu: bv32, count: int)

  /**
   * The host data of one pixel. With a host source the pixel takes the
   * whole word and the word moves on by the host pixel size (8, 16 or 32
   * bits; the 1-bit size takes nothing); otherwise one is counted off.
   */
  function Consume(sourceHost: bool, hostSize: int, cpu: bv32, count: int): (f: Feed)
    ensures !sourceHost ==> f.count == count - 1 && f.cpu == cpu && f.hostDat == 0
    ensures sourceHost ==> f.hostDat == cpu
  {
    if !sourceHost then Feed(0, cpu, count - 1)
    else if hostSize == 0 then Feed(cpu, cpu >> 8, count - 8)
    else if hostSize == 1 then Feed(cpu, cpu >> 16, count - 16)
    else if hostSize == 2 then Feed(cpu, cpu, count - 32)
    else Feed(cpu, cpu, count)
  }

  /** The number of bits a host pixel of size `hostSize` uses up. */
  function HostBits(hostSize: int): int
  {
    if hostSize == 0 then 8 else if hostSize == 1 then 16 else if hostSize == 2 then 32 else 0
  }

  /** With 8-bit host pixels a 32-bit host word gives four pixels whose low bytes are its bytes, lowest first. */
  lemma HostBytesInOrder(cpu: bv32, count: int)
    ensures var f0 := Consume(true, 0, cpu, count);
            var f1 := Consume(true, 0, f0.cpu, f0.count);
            var f2 := Consume(true, 0, f1.cpu, f1.count);
            var f3 := Consume(true, 0, f2.cpu, f2.count);
            GetLane(0, f0.hostDat) == GetLane(0, cpu) && GetLane(0, f1.hostDat) == GetLane(1, cpu)
            && GetLane(0, f2.hostDat) == GetLane(2, cpu) && GetLane(0, f3.hostDat) == GetLane(3, cpu)
            && f3.count == count - 32
  {
  }

  /** With 16-bit host pixels a 32-bit host word gives two pixels, its low half first. */
  lemma HostHalvesInOrder(cpu: bv32, count: int)
    ensures var f0 := Consume(true, 1, cpu, count);
            var f1 := Consume(true, 1, f0.cpu, f0.count);
            f0.hostDat & 0xffff == cpu & 0xffff && f1.hostDat & 0xffff == cpu >> 16 && f1.count == count - 32
  {
  }

  /** A host pixel uses up its size in bits. */
  lemma ConsumeCounts(hostSize: int, cpu: bv32, count: int)
    ensures Consume(true, hostSize, cpu, count).count == count - HostBits(hostSize)
  {
  }

  /**
   * The monochrome host bit of the next pixel and the rest of the word:
   * the lowest bit first under DP_BYTE_PIX_ORDER, otherwise the highest.
   */
  function HostBit(lsbFirst: bool, cpu: bv32): (bool, bv32)
  {
    if lsbFirst then (cpu & 1 == 1, cpu >> 1) else (cpu >> 31 == 1, cpu << 1)
  }

  /** Eight host bits taken most significant first are the top byte of the word, high bit first. */
  lemma HostBitsMsbFirst(cpu: bv32)
    ensures var b0 := HostBit(false, cpu);
            b0.0 == Bit(cpu, 31) && HostBit(false, b0.1).0 == Bit(cpu, 30)
  {
  }

  // ---------------------------------------------------------------- rectangles

  /** Whether the source is read linearly (`SRC_LINEAR_EN`). */
  predicate Linear(srcCntl: bv32) { srcCntl & SrcLinearEn != 0 }

  /** Whether the source wraps to its second rectangle (`SRC_PATT_EN` and `SRC_PATT_ROT_EN`). */
  predicate Rotates(srcCntl: bv32) { srcCntl & (SrcPattRotEn | SrcPattEn) == SrcPattRotEn | SrcPattEn }

  /** The destination column and row of the current rectangle pixel (12 and 14 bits). */
  function RectX(s: Setup, w: Walk): (x: int) ensures 0 <= x < 0x1000 { (w.dstX + s.dstXStart) % 0x1000 }
  function RectY(s: Setup, w: Walk): (y: int) ensures 0 <= y < 0x4000 { (w.dstY + s.dstYStart) % 0x4000 }

  /** The source column (unmasked when linear) and row of the current rectangle pixel. */
  function RectSrcX(w: Walk, srcCntl: bv32): int
  {
    if Linear(srcCntl) then w.srcX else (w.srcX + w.srcXStart) % 0x1000
  }
  function RectSrcY(w: Walk): (y: int) ensures 0 <= y < 0x4000 { (w.srcY + w.srcYStart) % 0x4000 }

  /** The source column wrap: at the end of the source width the column restarts, at the second rectangle when rotating. */
  function SrcXWrap(s: Setup, w: Walk, rot: bool, srcYXStart: bv32): (v: Walk)
    ensures v.xCount == w.xCount && v.dstHeight == w.dstHeight && v.busy == w.busy
  {
    var c := w.srcXCount - 1;
    if c > 0 then w.(srcXCount := c)
    else if rot then w.(srcX := 0, srcXStart := SignExtend13(srcYXStart >> 16), srcXCount := s.srcWidth2)
    else w.(srcX := 0, srcXCount := s.srcWidth1)
  }

  /** The source row wrap, the same for rows. */
  function SrcYWrap(s: Setup, w: Walk, rot: bool, srcYXStart: bv32): (v: Walk)
    ensures v.xCount == w.xCount && v.dstHeight == w.dstHeight && v.busy == w.busy
  {
    var c := w.srcYCount - 1;
    if c > 0 then w.(srcYCount := c)
    else if rot then w.(srcY := 0, srcYStart := SignExtend15(srcYXStart), srcYCount := s.srcHeight2)
    else w.(srcY := 0, srcYCount := s.srcHeight1)
  }

  /**
   * The end of a rectangle row: the next row starts at column 0 with a full
   * row count, the source column start is reloaded from `SRC_Y_X` (without
   * sign extension), the source row advances and wraps unless linear, and
   * the operation finishes when no row is left.
   */
  function RowEnd(s: Setup, w: Walk, srcCntl: bv32, srcYX: bv32, srcYXStart: bv32): Walk
  {
    var r := w.(xCount := s.dstWidth, xxCount := 0, dstX := 0, dstY := w.dstY + s.yinc,
                srcXStart := ((srcYX >> 16) & 0xfff) as int, srcXCount := s.srcWidth1);
    var q := if Linear(srcCntl) then r
             else SrcYWrap(s, r.(srcX := 0, srcY := r.srcY + s.yinc), Rotates(srcCntl), srcYXStart);
    var t := q.(polyDraw := false, dstHeight := q.dstHeight - 1);
    if t.dstHeight <= 0 then t.(busy := false) else t
  }

  /** The step after one rectangle pixel: one column on, and a row end when the row is done. */
  function RectAdvance(s: Setup, w: Walk, srcCntl: bv32, srcYX: bv32, srcYXStart: bv32): Walk
  {
    var c := w.(srcX := w.srcX + s.xinc, dstX := w.dstX + s.xinc);
    var d := if Linear(srcCntl) then c else SrcXWrap(s, c, Rotates(srcCntl), srcYXStart);
    var e := d.(xCount := d.xCount - 1, xxCount := (d.xxCount + 1) % 3);
    if e.xCount > 0 then e else RowEnd(s, e, srcCntl, srcYX, srcYXStart)
  }

  /** `x` if positive, else 1: a row always takes at least one step. */
  function AtLeast1(x: int): (r: int) ensures r >= 1 { if x >= 1 then x else 1 }

  /** The rows left after the current one. */
  function RowsAfter(h: int): (r: int) ensures r >= 0 { if h >= 2 then h - 1 else 0 }

  /**
   * The number of pixels a busy rectangle walk still visits, the current
   * one included: the rest of this row and `dst_height - 1` full rows.
   */
  function Total(s: Setup, w: Walk): (t: int)
    ensures t >= 1
  {
    AtLeast1(w.xCount) + RowsAfter(w.dstHeight) * AtLeast1(s.dstWidth)
  }

  /** `(h - 1) * w == w + (h - 2) * w`. */
  lemma PeelRow(h: int, w: int)
    requires h >= 2
    ensures RowsAfter(h) * w == w + RowsAfter(h - 1) * w
  {
    if h > 2 {
      assert RowsAfter(h) * w == (h - 1) * w;
      assert RowsAfter(h - 1) * w == (h - 2) * w;
      assert (h - 1) * w == w + (h - 2) * w;
    }
  }

  /** What a step does to the row counters: one column fewer, or at a row end a full row and one row fewer, finishing with the last row. */
  lemma AdvanceCounters(s: Setup, w: Walk, srcCntl: bv32, srcYX: bv32, srcYXStart: bv32)
    ensures var v := RectAdvance(s, w, srcCntl, srcYX, srcYXStart);
            (w.xCount > 1 ==> v.xCount == w.xCount - 1 && v.dstHeight == w.dstHeight && v.busy == w.busy)
            && (w.xCount <= 1 ==> v.xCount == s.dstWidth && v.dstHeight == w.dstHeight - 1
                                  && v.busy == (w.busy && w.dstHeight > 1))
  {
    var c := w.(srcX := w.srcX + s.xinc, dstX := w.dstX + s.xinc);
    var d := if Linear(srcCntl) then c else SrcXWrap(s, c, Rotates(srcCntl), srcYXStart);
    assert d.xCount == w.xCount && d.dstHeight == w.dstHeight && d.busy == w.busy;
  }

  /**
   * Each step of a rectangle walk visits one pixel: it stays busy with one
   * pixel fewer to go, or, on the last pixel, finishes.
   */
  lemma RectProgress(s: Setup, w: Walk, srcCntl: bv32, srcYX: bv32, srcYXStart: bv32)
    ensures var v := RectAdvance(s, w, srcCntl, srcYX, srcYXStart);
            (Total(s, w) == 1 ==> !v.busy)
            && (Total(s, w) > 1 ==> v.busy == w.busy && Total(s, v) == Total(s, w) - 1)
  {
    var v := RectAdvance(s, w, srcCntl, srcYX, srcYXStart);
    AdvanceCounters(s, w, srcCntl, srcYX, srcYXStart);
    var k := AtLeast1(s.dstWidth);
    if w.xCount <= 1 && w.dstHeight >= 2 {
      PeelRow(w.dstHeight, k);
    }
  }

  /** The walk after `k` steps. */
  function RectRun(s: Setup, w: Walk, srcCntl: bv32, srcYX: bv32, srcYXStart: bv32, k: nat): Walk
    decreases k
  {
    if k == 0 then w else RectAdvance(s, RectRun(s, w, srcCntl, srcYX, srcYXStart, k - 1), srcCntl, srcYX, srcYXStart)
  }

  /** A busy rectangle walk stays busy for `Total - 1` steps, with one pixel fewer to go after each. */
  lemma {:induction false} RectBusy(s: Setup, w: Walk, srcCntl: bv32, srcYX: bv32, srcYXStart: bv32, k: nat)
    requires w.busy && k < Total(s, w)
    ensures RectRun(s, w, srcCntl, srcYX, srcYXStart, k).busy
    ensures Total(s, RectRun(s, w, srcCntl, srcYX, srcYXStart, k)) == Total(s, w) - k
    decreases k
  {
    if k > 0 {
      RectBusy(s, w, srcCntl, srcYX, srcYXStart, k - 1);
      RectProgress(s, RectRun(s, w, srcCntl, srcYX, srcYXStart, k - 1), srcCntl, srcYX, srcYXStart);
    }
  }

  /** The step from the last pixel, the `Total`-th, ends a busy rectangle walk. */
  lemma RectEnds(s: Setup, w: Walk, srcCntl: bv32, srcYX: bv32, srcYXStart: bv32)
    requires w.busy
    ensures !RectRun(s, w, srcCntl, srcYX, srcYXStart, Total(s, w)).busy
  {
    var t := Total(s, w);
    RectBusy(s, w, srcCntl, srcYX, srcYXStart, t - 1);
    RectProgress(s, RectRun(s, w, srcCntl, srcYX, srcYXStart, t - 1), srcCntl, srcYX, srcYXStart);
  }

  /** A fill visits `DST_HEIGHT` rows of `DST_WIDTH` pixels (at least one of each) before it finishes. */
  lemma FillTotal(s: Setup, w: Walk)
    requires w.xCount == s.dstWidth && w.dstHeight >= 0
    ensures Total(s, w) == AtLeast1(w.dstHeight) * AtLeast1(s.dstWidth)
  {
    var k := AtLeast1(s.dstWidth);
    if w.dstHeight >= 2 {
      assert RowsAfter(w.dstHeight) * k == (w.dstHeight - 1) * k;
      assert (w.dstHeight - 1) * k + k == w.dstHeight * k;
    }
  }

  // ---------------------------------------------------------------- tiling

  /**
   * `DST_Y_X` after a fill finishes: DST_X_TILE moves X (bits 16-27) on by
   * the width, DST_Y_TILE moves Y (bits 0-11) on by DST_HEIGHT; each keeps
   * only the 12-bit fields.
   */
  function Tile(v: bv32, dstCntl: bv32, width: bv32, hw: bv32): bv32
  {
    var x := if dstCntl & DstXTile != 0 then (v & 0xfff) | ((v + (width << 16)) & 0xfff0000) else v;
    if dstCntl & DstYTile != 0 then (x & 0xfff0000) | ((x + (hw & 0x1fff)) & 0xfff) else x
  }

  /** X tiling adds the width to the 12-bit X field and keeps the 12-bit Y field. */
  lemma TileX(v: bv32, dstCntl: bv32, width: bv32, hw: bv32)
    requires dstCntl & DstXTile != 0 && dstCntl & DstYTile == 0
    ensures var t := Tile(v, dstCntl, width, hw);
            (t >> 16) & 0xfff == ((v >> 16) + width) & 0xfff && t & 0xffff == v & 0xfff && t >> 28 == 0
  {
  }

  /** Y tiling adds DST_HEIGHT to the 12-bit Y field and keeps the 12-bit X field. */
  lemma TileY(v: bv32, dstCntl: bv32, width: bv32, hw: bv32)
    requires dstCntl & DstXTile == 0 && dstCntl & DstYTile != 0
    ensures var t := Tile(v, dstCntl, width, hw);
            t & 0xffff == (v + (hw & 0x1fff)) & 0xfff && t >> 16 == (v >> 16) & 0xfff
  {
  }

  /** Without a tile bit the register is left alone. */
  lemma TileNone(v: bv32, dstCntl: bv32, width: bv32, hw: bv32)
    requires dstCntl & (DstXTile | DstYTile) == 0
    ensures Tile(v, dstCntl, width, hw) == v
  {
  }

  // ---------------------------------------------------------------- lines

  /** The major-axis step for the octant `o` (`DST_CNTL & 7`); the source moves with the destination. */
  function LineMajor(w: Walk, o: bv32): (v: Walk)
    ensures v.err == w.err && v.xCount == w.xCount && v.busy == w.busy
  {
    if o == 0 || o == 2 then w.(srcX := w.srcX - 1, dstX := w.dstX - 1)
    else if o == 1 || o == 3 then w.(srcX := w.srcX + 1, dstX := w.dstX + 1)
    else if o == 4 || o == 5 then w.(srcY := w.srcY - 1, dstY := w.dstY - 1)
    else w.(srcY := w.srcY + 1, dstY := w.dstY + 1)
  }

  /** The minor-axis step for the octant `o`. */
  function LineMinor(w: Walk, o: bv32): (v: Walk)
    ensures v.err == w.err && v.xCount == w.xCount && v.busy == w.busy
  {
    if o == 0 || o == 1 then w.(srcY := w.srcY - 1, dstY := w.dstY - 1)
    else if o == 2 || o == 3 then w.(srcY := w.srcY + 1, dstY := w.dstY + 1)
    else if o == 4 || o == 6 then w.(srcX := w.srcX - 1, dstX := w.dstX - 1)
    else w.(srcX := w.srcX + 1, dstX := w.dstX + 1)
  }

  /**
   * The move after one pixel of a line that goes on: along the major axis,
   * and, when the error term is not negative, also along the minor axis
   * with `DST_BRES_DEC` added to the error, else `DST_BRES_INC` is added.
   * The error wraps as a 32-bit `int`.
   */
  function LineMove(w: Walk, o: bv32, inc: bv32, dec: bv32): Walk
  {
    var m := LineMajor(w, o);
    if m.err >= 0 then LineMinor(m.(err := I32(m.err + dec as int)), o)
    else m.(err := I32(m.err + inc as int))
  }

  /** The step after one pixel of a line (other than at 24 bits per pixel): the pixel count drops, and the line finishes at zero or moves on. */
  function LineStep(w: Walk, dstCntl: bv32, inc: bv32, dec: bv32): Walk
  {
    var c := w.xCount - 1;
    if c <= 0 then w.(xCount := c, busy := false)
    else LineMove(w.(xCount := c), dstCntl & 7, inc, dec)
  }

  /** The direction of DST_X_DIR and DST_Y_DIR. */
  function XDir(dstCntl: bv32): int { Dir(dstCntl & DstXDir != 0) }
  function YDir(dstCntl: bv32): int { Dir(dstCntl & DstYDir != 0) }

  /** The major and minor steps DST_Y_MAJOR and the direction bits describe. */
  function MajorDx(dstCntl: bv32): int { if dstCntl & DstYMajor != 0 then 0 else XDir(dstCntl) }
  function MajorDy(dstCntl: bv32): int { if dstCntl & DstYMajor != 0 then YDir(dstCntl) else 0 }
  function MinorDx(dstCntl: bv32): int { if dstCntl & DstYMajor != 0 then XDir(dstCntl) else 0 }
  function MinorDy(dstCntl: bv32): int { if dstCntl & DstYMajor != 0 then 0 else YDir(dstCntl) }

  /** The octant `DST_CNTL & 7` holds the three direction bits. */
  lemma OctantBits(dstCntl: bv32)
    ensures var o := dstCntl & 7;
            o < 8 && (dstCntl & DstXDir != 0) == (o & 1 != 0) && (dstCntl & DstYDir != 0) == (o & 2 != 0)
            && (dstCntl & DstYMajor != 0) == (o & 4 != 0)
  {
  }

  /** The octant's major step is the one the direction bits describe. */
  lemma OctantMajor(dstCntl: bv32, w: Walk)
    ensures LineMajor(w, dstCntl & 7).dstX == w.dstX + MajorDx(dstCntl)
    ensures LineMajor(w, dstCntl & 7).dstY == w.dstY + MajorDy(dstCntl)
  {
    OctantBits(dstCntl);
  }

  /** The octant's minor step is the one the direction bits describe. */
  lemma OctantMinor(dstCntl: bv32, w: Walk)
    ensures LineMinor(w, dstCntl & 7).dstX == w.dstX + MinorDx(dstCntl)
    ensures LineMinor(w, dstCntl & 7).dstY == w.dstY + MinorDy(dstCntl)
  {
    OctantBits(dstCntl);
  }

  /** The source point moves with the destination point on every line step. */
  lemma LineSourceFollows(w: Walk, o: bv32)
    ensures LineMajor(w, o).srcX - w.srcX == LineMajor(w, o).dstX - w.dstX
    ensures LineMajor(w, o).srcY - w.srcY == LineMajor(w, o).dstY - w.dstY
    ensures LineMinor(w, o).srcX - w.srcX == LineMinor(w, o).dstX - w.dstX
    ensures LineMinor(w, o).srcY - w.srcY == LineMinor(w, o).dstY - w.dstY
  {
  }

  /**
   * A line step that does not finish moves by the major step, plus the
   * minor step exactly when the error term was not negative, and adds the
   * matching Bresenham increment to the error.
   */
  lemma LineStepMoves(w: Walk, dstCntl: bv32, inc: bv32, dec: bv32)
    requires w.xCount > 1
    ensures var v := LineStep(w, dstCntl, inc, dec);
            var minor := w.err >= 0;
            v.dstX == w.dstX + MajorDx(dstCntl) + (if minor then MinorDx(dstCntl) else 0)
            && v.dstY == w.dstY + MajorDy(dstCntl) + (if minor then MinorDy(dstCntl) else 0)
            && v.err == I32(w.err + (if minor then dec else inc) as int)
            && v.xCount == w.xCount - 1 && v.busy == w.busy
  {
    var o := dstCntl & 7;
    var c := w.(xCount := w.xCount - 1);
    var m := LineMajor(c, o);
    OctantMajor(dstCntl, c);
    var v := LineStep(w, dstCntl, inc, dec);
    assert v == LineMove(c, o, inc, dec);
    if w.err >= 0 {
      var e := m.(err := I32(m.err + dec as int));
      OctantMinor(dstCntl, e);
      assert v == LineMinor(e, o);
    } else {
      assert v == m.(err := I32(m.err + inc as int));
    }
  }

  /** The line after `k` steps. */
  function LineRun(w: Walk, dstCntl: bv32, inc: bv32, dec: bv32, k: nat): Walk
    decreases k
  {
    if k == 0 then w else LineStep(LineRun(w, dstCntl, inc, dec, k - 1), dstCntl, inc, dec)
  }

  /**
   * A busy line of `x_count` pixels visits pixel `k` (for `k < x_count`)
   * still busy with `x_count - k` pixels to go, so the last pixel is the
   * one with a count of 1.
   */
  lemma {:induction false} LineBusy(w: Walk, dstCntl: bv32, inc: bv32, dec: bv32, k: nat)
    requires w.busy && k < w.xCount
    ensures LineRun(w, dstCntl, inc, dec, k).busy && LineRun(w, dstCntl, inc, dec, k).xCount == w.xCount - k
    decreases k
  {
    if k > 0 {
      LineBusy(w, dstCntl, inc, dec, k - 1);
    }
  }

  /** The step from the pixel with a count of 1 ends the line. */
  lemma LineEnds(w: Walk, dstCntl: bv32, inc: bv32, dec: bv32)
    requires w.xCount <= 1
    ensures !LineStep(w, dstCntl, inc, dec).busy
  {
  }

  /**
   * Whether a line (other than at 24 bits per pixel) draws its current
   * pixel: always without DST_POLYGON_EN; with it, for Y-major lines, for
   * rightward lines while the unsigned error is below `dec + inc`, and for
   * leftward lines while the error is not negative. The last pixel is left
   * out unless DST_LAST_PEL.
   */
  predicate LineDraws(w: Walk, dstCntl: bv32, inc: bv32, dec: bv32)
  {
    var poly := dstCntl & DstPolygonEn != 0;
    var d := !poly || dstCntl & DstYMajor != 0
             || (dstCntl & DstXDir != 0 && Mach64Pixels.U32(w.err) < Mach64Pixels.U32(dec as int + inc as int))
             || (dstCntl & DstXDir == 0 && w.err >= 0);
    d && !(w.xCount == 1 && dstCntl & DstLastPel == 0)
  }

  /** The last pixel of a line is drawn only under DST_LAST_PEL; the others always are without DST_POLYGON_EN. */
  lemma LastPixel(w: Walk, dstCntl: bv32, inc: bv32, dec: bv32, k: nat)
    requires w.busy && k < w.xCount
    ensures var v := LineRun(w, dstCntl, inc, dec, k);
            (k == w.xCount - 1 && dstCntl & DstLastPel == 0 ==> !LineDraws(v, dstCntl, inc, dec))
            && (k < w.xCount - 1 && dstCntl & DstPolygonEn == 0 ==> LineDraws(v, dstCntl, inc, dec))
  {
    LineBusy(w, dstCntl, inc, dec, k);
  }

  /**
   * The step after one pixel of a 24-bit line: along the major axis by
   * `xinc` or `yinc` (DST_Y_MAJOR picks), and along the minor axis when the
   * error is not negative. The source point does not move.
   */
  function Line24Step(s: Setup, w: Walk, yMajor: bool, inc: bv32, dec: bv32): Walk
  {
    if yMajor then
      var m := w.(dstY := w.dstY + s.yinc);
      if m.err >= 0 then m.(err := I32(m.err + dec as int), dstX := m.dstX + s.xinc)
      else m.(err := I32(m.err + inc as int))
    else
      var m := w.(dstX := w.dstX + s.xinc);
      if m.err >= 0 then m.(err := I32(m.err + dec as int), dstY := m.dstY + s.yinc)
      else m.(err := I32(m.err + inc as int))
  }

  /** The 24-bit line after `k` steps. */
  function Line24Run(s: Setup, w: Walk, yMajor: bool, inc: bv32, dec: bv32, k: nat): Walk
    decreases k
  {
    if k == 0 then w else Line24Step(s, Line24Run(s, w, yMajor, inc, dec, k - 1), yMajor, inc, dec)
  }

  /** The 24-bit walk takes its major step every pixel and its minor step when the error is not negative. */
  lemma Line24Moves(s: Setup, w: Walk, yMajor: bool, inc: bv32, dec: bv32)
    ensures var u := Line24Step(s, w, yMajor, inc, dec);
            var minor := w.err >= 0;
            u.dstX == w.dstX + (if yMajor then (if minor then s.xinc else 0) else s.xinc)
            && u.dstY == w.dstY + (if yMajor then s.yinc else (if minor then s.yinc else 0))
            && u.err == I32(w.err + (if minor then dec else inc) as int)
  {
    var m := if yMajor then w.(dstY := w.dstY + s.yinc) else w.(dstX := w.dstX + s.xinc);
    assert m.err == w.err;
    if w.err >= 0 {
      assert Line24Step(s, w, yMajor, inc, dec).err == I32(w.err + dec as int);
    }
  }

  /** With directions loaded from DST_CNTL, the 24-bit walk moves the destination exactly as the general line walk. */
  lemma Line24AgreesWithLine(s: Setup, w: Walk, dstCntl: bv32, inc: bv32, dec: bv32)
    requires w.xCount > 1
    requires s.xinc == XDir(dstCntl) && s.yinc == YDir(dstCntl)
    ensures var u := Line24Step(s, w, dstCntl & DstYMajor != 0, inc, dec);
            var v := LineStep(w, dstCntl, inc, dec);
            u.dstX == v.dstX && u.dstY == v.dstY && u.err == v.err
  {
    LineStepMoves(w, dstCntl, inc, dec);
    Line24Moves(s, w, dstCntl & DstYMajor != 0, inc, dec);
  }

  /** The value a 24-bit line writes: bit 0 cleared on its first pixel (X-major) or its last (Y-major). */
  function Line24Value(v: bv32, x: int, xCount: int, yMajor: bool): bv32
  {
    if (!yMajor && x == 0) || (yMajor && x == xCount - 1) then v & !1 else v
  }

  // ---------------------------------------------------------------- scissor

  /** Whether the point `(x, y)` lies in the scissor rectangle. */
  predicate InScissor(s: Setup, x: int, y: int)
  {
    s.scLeft <= x <= s.scRight && s.scTop <= y <= s.scBottom
  }

  /** The pixel address of destination point `(x, y)`. */
  function DstAddr(s: Setup, x: int, y: int): int
  {
    Mach64Pixels.PixelAddr(s.dstOffset, s.dstPitch, x, y)
  }

  /** Whether byte `k` of an `n`-byte memory belongs to a destination pixel inside the scissor. */
  ghost predicate Covered(s: Setup, n: int, k: int)
    requires Mach64Pixels.Shape(n)
  {
    exists x: int, y: int :: InScissor(s, x, y)
      && Mach64Pixels.Base(DstAddr(s, x, y), s.dstSize, n) <= k < Mach64Pixels.Base(DstAddr(s, x, y), s.dstSize, n) + Mach64Pixels.Span(s.dstSize)
  }

  /** `m1` differs from `m0` only in bytes of destination pixels inside the scissor. */
  ghost predicate KeepsOutside(s: Setup, m0: seq<bv8>, m1: seq<bv8>)
  {
    |m0| == |m1| && Mach64Pixels.Shape(|m0|)
    && forall k :: 0 <= k < |m0| && !Covered(s, |m0|, k) ==> m1[k] == m0[k]
  }

  lemma KeepsOutsideRefl(s: Setup, m: seq<bv8>)
    requires Mach64Pixels.Shape(|m|)
    ensures KeepsOutside(s, m, m)
  {
  }

  lemma KeepsOutsideTrans(s: Setup, m0: seq<bv8>, m1: seq<bv8>, m2: seq<bv8>)
    requires KeepsOutside(s, m0, m1) && KeepsOutside(s, m1, m2)
    ensures KeepsOutside(s, m0, m2)
  {
  }

  /** Writing a destination pixel inside the scissor changes nothing outside it. */
  lemma WriteInside(s: Setup, m: seq<bv8>, x: int, y: int, lsbFirst: bool, v: bv32)
    requires Mach64Pixels.Shape(|m|) && InScissor(s, x, y)
    ensures KeepsOutside(s, m, Mach64Pixels.WritePixel(m, DstAddr(s, x, y), s.dstSize, lsbFirst, v))
  {
    var m' := Mach64Pixels.WritePixel(m, DstAddr(s, x, y), s.dstSize, lsbFirst, v);
    forall k | 0 <= k < |m| && !Covered(s, |m|, k)
      ensures m'[k] == m[k]
    {
      Mach64Pixels.WriteFrame(m, DstAddr(s, x, y), s.dstSize, lsbFirst, v, k);
    }
  }

  /** The walk without the polygon flip-flop, which a pixel's own source data toggles. */
  function Strip(w: Walk): Walk
  {
    w.(polyDraw := false)
  }

  /** The monochrome selector a pixel takes and the host word left after it. */
  datatype Pick = Pick(mix: bool, cpu: bv32)

  /**
   * The selector of a rectangle pixel for `DP_SRC`'s monochrome source
   * `sourceMix`: the next host bit (in DP_BYTE_PIX_ORDER's order), the
   * pattern bit `patBit` (with 24-bit rotation only on the first byte of a
   * pixel, otherwise the previous selector stays), 1, or the 1-bit source
   * pixel `blitBit`; any other source keeps the previous selector.
   */
  function RectMono(sourceMix: int, prev: bool, cpu: bv32, lsbFirst: bool, rot: bool, xx: int,
                    patBit: bool, blitBit: bool): Pick
  {
    if sourceMix == MonoSrcHost then
      var (b, c) := HostBit(lsbFirst, cpu); Pick(b, c)
    else if sourceMix == MonoSrcPat then Pick(if rot && xx != 0 then prev else patBit, cpu)
    else if sourceMix == MonoSrc1 then Pick(true, cpu)
    else if sourceMix == MonoSrcBlitsrc then Pick(blitBit, cpu)
    else Pick(prev, cpu)
  }

  /** The selector of a pixel of a line other than at 24 bits: host bits most significant first, the pattern, else 1. */
  function LineMono(sourceMix: int, cpu: bv32, patBit: bool): Pick
  {
    if sourceMix == MonoSrcHost then
      var (b, c) := HostBit(false, cpu); Pick(b, c)
    else if sourceMix == MonoSrcPat then Pick(patBit, cpu)
    else Pick(true, cpu)
  }

  /** The polygon flip-flop and the position are the only parts of the walk a pixel changes; the advance does not look at the flip-flop except to clear it. */
  lemma AdvanceIgnoresPoly(s: Setup, w: Walk, v: Walk, srcCntl: bv32, srcYX: bv32, srcYXStart: bv32)
    requires Strip(w) == Strip(v)
    ensures Strip(RectAdvance(s, w, srcCntl, srcYX, srcYXStart)) == Strip(RectAdvance(s, v, srcCntl, srcYX, srcYXStart))
  {
    assert v == w.(polyDraw := v.polyDraw);
  }

  /** `Total` does not look at the flip-flop. */
  lemma TotalIgnoresPoly(s: Setup, w: Walk)
    ensures Total(s, Strip(w)) == Total(s, w)
  {
  }

  /** A step from any walk that agrees with the run up to the flip-flop continues the run. */
  lemma RectRunStep(s: Setup, w0: Walk, srcCntl: bv32, srcYX: bv32, srcYXStart: bv32, k: nat, v: Walk)
    requires Strip(v) == Strip(RectRun(s, w0, srcCntl, srcYX, srcYXStart, k))
    ensures Strip(RectAdvance(s, v, srcCntl, srcYX, srcYXStart)) == Strip(RectRun(s, w0, srcCntl, srcYX, srcYXStart, k + 1))
  {
    AdvanceIgnoresPoly(s, v, RectRun(s, w0, srcCntl, srcYX, srcYXStart, k), srcCntl, srcYX, srcYXStart);
  }

  /** The part of `count` one pixel uses up: 1 without a host source, else the bits of a host pixel (none at host size 3). */
  function PixelBits(s: Setup): (d: int)
    ensures d >= 0
  {
    if !s.sourceHost then 1 else HostBits(s.hostSize)
  }

  /** What is left of `count` after `k` pixels that each use up `PixelBits`: the count of a line walk. */
  function CountLeft(s: Setup, count: int, k: nat): int
    decreases k
  {
    if k == 0 then count else CountLeft(s, count, k - 1) - PixelBits(s)
  }

  /** `CountLeft` in closed form: `k` pixels use up `k * PixelBits`. */
  lemma {:induction false} CountLeftIs(s: Setup, count: int, k: nat)
    ensures CountLeft(s, count, k) == count - k * PixelBits(s)
    decreases k
  {
    if k > 0 {
      CountLeftIs(s, count, k - 1);
      assert k * PixelBits(s) == (k - 1) * PixelBits(s) + PixelBits(s);
    }
  }

  /** `x_count` after `k` steps of a rectangle walk that starts with `x0`: one less each step, and `dst_width` after a row end. */
  function XAt(s: Setup, x0: int, k: nat): int
    decreases k
  {
    if k == 0 then x0
    else
      var x := XAt(s, x0, k - 1);
      if x > 1 then x - 1 else s.dstWidth
  }

  /** The walk's own `x_count` follows `XAt`. */
  lemma {:induction false} RectRunX(s: Setup, w: Walk, srcCntl: bv32, srcYX: bv32, srcYXStart: bv32, k: nat)
    ensures RectRun(s, w, srcCntl, srcYX, srcYXStart, k).xCount == XAt(s, w.xCount, k)
    decreases k
  {
    if k > 0 {
      RectRunX(s, w, srcCntl, srcYX, srcYXStart, k - 1);
      AdvanceCounters(s, RectRun(s, w, srcCntl, srcYX, srcYXStart, k - 1), srcCntl, srcYX, srcYXStart);
    }
  }

  /**
   * What is left of `count` after `k` pixels of a rectangle walk whose
   * `x_count` starts at `x0`: each pixel uses up `PixelBits`, and when
   * `align` (HOST_BYTE_ALIGN with a monochrome host source) a pixel that
   * ends a row also rounds the count down to whole bytes, as `HostAlign`
   * does.
   */
  function RectCount(s: Setup, x0: int, align: bool, count: int, k: nat): int
    decreases k
  {
    if k == 0 then count
    else
      var n := RectCount(s, x0, align, count, k - 1) - PixelBits(s);
      if align && XAt(s, x0, k - 1) <= 1 then n - n % 8 else n
  }

  /** Whether the rectangle count was not yet used up before any of the first `k` pixels. */
  ghost predicate RectCountsLeft(s: Setup, x0: int, align: bool, count: int, k: nat)
    decreases k
  {
    k == 0 || (RectCountsLeft(s, x0, align, count, k - 1) && RectCount(s, x0, align, count, k - 1) != 0)
  }

  /** `RectCountsLeft` as a statement about every earlier pixel. */
  lemma {:induction false} RectCountsLeftAll(s: Setup, x0: int, align: bool, count: int, k: nat)
    requires RectCountsLeft(s, x0, align, count, k)
    ensures forall j | 0 <= j < k :: RectCount(s, x0, align, count, j) != 0
    decreases k
  {
    if k > 0 {
      RectCountsLeftAll(s, x0, align, count, k - 1);
    }
  }

  /** One more rectangle pixel while `n`, the count left after `k` pixels, is not yet used up. */
  lemma RectCountNext(s: Setup, x0: int, align: bool, count: int, k: nat, n: int)
    requires n == RectCount(s, x0, align, count, k) && n != 0
    requires RectCountsLeft(s, x0, align, count, k)
    ensures RectCountsLeft(s, x0, align, count, k + 1)
    ensures var n' := n - PixelBits(s);
            RectCount(s, x0, align, count, k + 1) == if align && XAt(s, x0, k) <= 1 then n' - n' % 8 else n'
  {
  }

  /** Without byte alignment a rectangle walk uses up its count as a line does. */
  lemma {:induction false} RectCountUnaligned(s: Setup, x0: int, count: int, k: nat)
    ensures RectCount(s, x0, false, count, k) == CountLeft(s, count, k)
    decreases k
  {
    if k > 0 {
      RectCountUnaligned(s, x0, count, k - 1);
    }
  }

  /**
   * The byte alignment of monochrome host data at a row end under
   * HOST_BYTE_ALIGN: the host word drops the bits left over from its
   * current byte and the bit count is rounded down to whole bytes.
   */
  function HostAlign(lsbFirst: bool, cpu: bv32, count: int): (f: Feed)
    ensures f.count % 8 == 0 && count - 8 < f.count <= count
  {
    var k := count % 8;
    Feed(0, if lsbFirst then cpu >> k else cpu << k, count - k)
  }
}
