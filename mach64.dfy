/*
 * The Mach64 drawing engine as one object: the register file the
 * accelerator write path stores, the working state of the running
 * operation, the 8x8 monochrome pattern, video memory and the set of 4 KB
 * blocks marked as changed. `mach64_blit` is `Blit`, its three walkers
 * `BlitRect`, `BlitLine24` and `BlitLine`; the per-pixel effects are
 * specified here by functions of the state before the pixel.
 */
module Mach64 {
  import opened Mach64Lanes
  import opened Mach64Regs
  import opened Mach64Mix
  import opened Mach64Setup
  import opened Mach64Walk
  import opened Mach64Draw
  import P = Mach64Pixels
  import M = Mach64Memory

  /** Whether DP_PIX_WIDTH orders 1-bit pixels least significant bit first. */
  predicate LsbFirst(r: RegFile)
    requires Full(r)
  {
    r[DpPixWidth] & DpBytePixOrder != 0
  }

  /** Whether DST_CNTL asks for 24-bit rotation. */
  predicate Rot(r: RegFile)
    requires Full(r)
  {
    r[DstCntl] & Dst24RotEn != 0
  }

  /** The source pixel address of the current rectangle pixel. */
  function RectSrcAddr(s: Setup, w: Walk, srcCntl: bv32): int
  {
    P.PixelAddr(s.srcOffset, s.srcPitch, RectSrcX(w, srcCntl), RectSrcY(w))
  }

  /** The 1-bit source address of the current rectangle pixel: linear sources ignore the row. */
  function MonoAddr(s: Setup, w: Walk, srcCntl: bv32): int
  {
    if Linear(srcCntl) then P.U32(s.srcOffset as int + w.srcX) else RectSrcAddr(s, w, srcCntl)
  }

  /** The source pixel address of the current line pixel. */
  function LineSrcAddr(s: Setup, w: Walk): int
  {
    P.PixelAddr(s.srcOffset, s.srcPitch, w.srcX, w.srcY)
  }

  /** What one pixel leaves behind: the polygon flip-flop, memory and the 4 KB blocks it marks as changed. */
  datatype Effect = Effect(polyDraw: bool, mem: seq<bv8>, marked: set<int>)

  /**
   * One rectangle pixel with monochrome selector `mix` and host data
   * `hostDat`: nothing outside the scissor; inside, the polygon flip-flop
   * toggles on a set source pixel under DST_POLYGON_EN, and unless the
   * flip-flop is off the destination pixel is read, mixed, compared and
   * masked, and written back.
   */
  function RectEffect(s: Setup, w: Walk, r: RegFile, m: seq<bv8>, mix: bool, hostDat: bv32): (e: Effect)
    requires Full(r) && P.Shape(|m|)
    ensures |e.mem| == |m|
  {
    var x, y, lsb, rot := RectX(s, w), RectY(s, w), LsbFirst(r), Rot(r);
    if !InScissor(s, x, y) then Effect(w.polyDraw, m, {})
    else
      var srcPix := P.ReadPixel(m, RectSrcAddr(s, w, r[SrcCntl]), s.srcSize, lsb);
      var poly := r[DstCntl] & DstPolygonEn != 0;
      var pd := if poly && srcPix != 0 then !w.polyDraw else w.polyDraw;
      if poly && !pd then Effect(pd, m, {})
      else
        var src := Source(s, Sel(s, mix), hostDat, srcPix, rot, w.xxCount, x, y, r[PatCntl], true);
        var a := DstAddr(s, x, y);
        var dst := P.ReadPixel(m, a, s.dstSize, lsb);
        Effect(pd, P.WritePixel(m, a, s.dstSize, lsb, RectValue(s, mix, src, dst, rot, w.xxCount)),
               {P.Block(a, s.dstSize, |m|)})
  }

  /** A rectangle pixel changes memory only inside the scissor. */
  lemma RectEffectOutside(s: Setup, w: Walk, r: RegFile, m: seq<bv8>, mix: bool, hostDat: bv32)
    requires Full(r) && P.Shape(|m|)
    ensures KeepsOutside(s, m, RectEffect(s, w, r, m, mix, hostDat).mem)
  {
    var x, y := RectX(s, w), RectY(s, w);
    var e := RectEffect(s, w, r, m, mix, hostDat);
    if e.mem == m {
      KeepsOutsideRefl(s, m);
    } else {
      var lsb, rot := LsbFirst(r), Rot(r);
      var srcPix := P.ReadPixel(m, RectSrcAddr(s, w, r[SrcCntl]), s.srcSize, lsb);
      var src := Source(s, Sel(s, mix), hostDat, srcPix, rot, w.xxCount, x, y, r[PatCntl], true);
      var dst := P.ReadPixel(m, DstAddr(s, x, y), s.dstSize, lsb);
      WriteInside(s, m, x, y, lsb, RectValue(s, mix, src, dst, rot, w.xxCount));
    }
  }

  /**
   * When the colour compare vetoes a rectangle pixel, memory is unchanged
   * (the pixel's own value is written back), though its block is still
   * marked.
   */
  lemma RectEffectVeto(s: Setup, w: Walk, r: RegFile, m: seq<bv8>, mix: bool, hostDat: bv32)
    requires Full(r) && P.Shape(|m|)
    requires var lsb := LsbFirst(r);
             var x, y := RectX(s, w), RectY(s, w);
             var srcPix := P.ReadPixel(m, RectSrcAddr(s, w, r[SrcCntl]), s.srcSize, lsb);
             var src := Source(s, Sel(s, mix), hostDat, srcPix, Rot(r), w.xxCount, x, y, r[PatCntl], true);
             Hit(s, src, P.ReadPixel(m, DstAddr(s, x, y), s.dstSize, lsb))
    ensures RectEffect(s, w, r, m, mix, hostDat).mem == m
  {
    var x, y, lsb, rot := RectX(s, w), RectY(s, w), LsbFirst(r), Rot(r);
    var srcPix := P.ReadPixel(m, RectSrcAddr(s, w, r[SrcCntl]), s.srcSize, lsb);
    var src := Source(s, Sel(s, mix), hostDat, srcPix, rot, w.xxCount, x, y, r[PatCntl], true);
    RectVetoKeeps(m, DstAddr(s, x, y), s.dstSize, lsb, s, mix, src, rot, w.xxCount);
  }

  /** The octant, error increment and decrement of a line: DST_CNTL, DST_BRES_INC and DST_BRES_DEC. */
  function Octant(r: RegFile): bv32 requires Full(r) { r[DstCntl] }
  function Inc(r: RegFile): bv32 requires Full(r) { r[DstBresInc] }
  function Dec(r: RegFile): bv32 requires Full(r) { r[DstBresDec] }

  /** Whether DST_CNTL makes a 24-bit line Y-major. */
  predicate YMajor(r: RegFile) requires Full(r) { r[DstCntl] & DstYMajor != 0 }

  /**
   * One pixel of a line other than at 24 bits: inside the scissor and when
   * the line draws it, the destination pixel is read, mixed with the source
   * (host data, source pixel or a colour; no colour pattern) unless the
   * colour compare vetoes it, and written back.
   */
  function LineEffect(s: Setup, w: Walk, r: RegFile, m: seq<bv8>, mix: bool, hostDat: bv32): (e: Effect)
    requires Full(r) && P.Shape(|m|)
    ensures |e.mem| == |m|
  {
    if !(InScissor(s, w.dstX, w.dstY) && LineDraws(w, Octant(r), Inc(r), Dec(r))) then Effect(w.polyDraw, m, {})
    else
      var lsb := LsbFirst(r);
      var srcPix := P.ReadPixel(m, LineSrcAddr(s, w), s.srcSize, lsb);
      var src := Source(s, Sel(s, mix), hostDat, srcPix, false, 0, w.dstX, w.dstY, r[PatCntl], false);
      var a := DstAddr(s, w.dstX, w.dstY);
      var dst := P.ReadPixel(m, a, s.dstSize, lsb);
      Effect(w.polyDraw, P.WritePixel(m, a, s.dstSize, lsb, LineValue(s, mix, src, dst)), {P.Block(a, s.dstSize, |m|)})
  }

  /**
   * Pixel `x` of a 24-bit line: inside the scissor the destination pixel
   * is read, mixed with the source (which here includes the colour
   * patterns) unless vetoed, has bit 0 cleared on the first pixel of an
   * X-major line or the last of a Y-major one, and is written back.
   */
  function Line24Effect(s: Setup, w: Walk, r: RegFile, m: seq<bv8>, mix: bool, hostDat: bv32, x: int): (e: Effect)
    requires Full(r) && P.Shape(|m|)
    ensures |e.mem| == |m|
  {
    if !InScissor(s, w.dstX, w.dstY) then Effect(w.polyDraw, m, {})
    else
      var lsb := LsbFirst(r);
      var srcPix := P.ReadPixel(m, LineSrcAddr(s, w), s.srcSize, lsb);
      var src := Source(s, Sel(s, mix), hostDat, srcPix, false, 0, w.dstX, w.dstY, r[PatCntl], true);
      var a := DstAddr(s, w.dstX, w.dstY);
      var dst := P.ReadPixel(m, a, s.dstSize, lsb);
      var v := Line24Value(LineValue(s, mix, src, dst), x, w.xCount, YMajor(r));
      Effect(w.polyDraw, P.WritePixel(m, a, s.dstSize, lsb, v), {P.Block(a, s.dstSize, |m|)})
  }

  /** A line pixel changes memory only inside the scissor. */
  lemma LineEffectOutside(s: Setup, w: Walk, r: RegFile, m: seq<bv8>, mix: bool, hostDat: bv32)
    requires Full(r) && P.Shape(|m|)
    ensures KeepsOutside(s, m, LineEffect(s, w, r, m, mix, hostDat).mem)
  {
    if InScissor(s, w.dstX, w.dstY) && LineDraws(w, Octant(r), Inc(r), Dec(r)) {
      var lsb := LsbFirst(r);
      var srcPix := P.ReadPixel(m, LineSrcAddr(s, w), s.srcSize, lsb);
      var src := Source(s, Sel(s, mix), hostDat, srcPix, false, 0, w.dstX, w.dstY, r[PatCntl], false);
      var dst := P.ReadPixel(m, DstAddr(s, w.dstX, w.dstY), s.dstSize, lsb);
      WriteInside(s, m, w.dstX, w.dstY, lsb, LineValue(s, mix, src, dst));
    } else {
      KeepsOutsideRefl(s, m);
    }
  }

  /** A 24-bit line pixel changes memory only inside the scissor. */
  lemma Line24EffectOutside(s: Setup, w: Walk, r: RegFile, m: seq<bv8>, mix: bool, hostDat: bv32, x: int)
    requires Full(r) && P.Shape(|m|)
    ensures KeepsOutside(s, m, Line24Effect(s, w, r, m, mix, hostDat, x).mem)
  {
    if InScissor(s, w.dstX, w.dstY) {
      var lsb := LsbFirst(r);
      var srcPix := P.ReadPixel(m, LineSrcAddr(s, w), s.srcSize, lsb);
      var src := Source(s, Sel(s, mix), hostDat, srcPix, false, 0, w.dstX, w.dstY, r[PatCntl], true);
      var dst := P.ReadPixel(m, DstAddr(s, w.dstX, w.dstY), s.dstSize, lsb);
      WriteInside(s, m, w.dstX, w.dstY, lsb, Line24Value(LineValue(s, mix, src, dst), x, w.xCount, YMajor(r)));
    } else {
      KeepsOutsideRefl(s, m);
    }
  }

  /** A line pixel the colour compare vetoes leaves memory unchanged. */
  lemma LineEffectVeto(s: Setup, w: Walk, r: RegFile, m: seq<bv8>, mix: bool, hostDat: bv32)
    requires Full(r) && P.Shape(|m|)
    requires var lsb := LsbFirst(r);
             var srcPix := P.ReadPixel(m, LineSrcAddr(s, w), s.srcSize, lsb);
             var src := Source(s, Sel(s, mix), hostDat, srcPix, false, 0, w.dstX, w.dstY, r[PatCntl], false);
             Hit(s, src, P.ReadPixel(m, DstAddr(s, w.dstX, w.dstY), s.dstSize, lsb))
    ensures LineEffect(s, w, r, m, mix, hostDat).mem == m
  {
    var lsb := LsbFirst(r);
    var srcPix := P.ReadPixel(m, LineSrcAddr(s, w), s.srcSize, lsb);
    var src := Source(s, Sel(s, mix), hostDat, srcPix, false, 0, w.dstX, w.dstY, r[PatCntl], false);
    LineVetoKeeps(m, DstAddr(s, w.dstX, w.dstY), s.dstSize, lsb, s, mix, src);
  }

  /** Whether CRTC_GEN_CNTL's pixel depth is 24 bits (`BPP_24`). */
  predicate Bpp24(crtcGenCntl: bv32)
  {
    (crtcGenCntl >> 8) & 7 == 5
  }

  /** The low 32 bits of `n`, as the source adds an `int` to a `uint32_t` register. */
  function Bits(n: int): bv32
  {
    (n % 0x1_0000_0000) as bv32
  }

  /** The registers after a fill finishes: DST_Y_X tiled by the fill's width and DST_HEIGHT. */
  function Tiled(r: RegFile, s: Setup): (r': RegFile)
    requires Full(r)
    ensures Full(r')
  {
    r[DstYX := Tile(r[DstYX], r[DstCntl], Bits(s.dstWidth), r[DstHeightWidth])]
  }

  /**
   * Whether a rectangle's pixel count is plain: one per pixel, with no host
   * colour data and no byte alignment of monochrome host data at row ends.
   */
  predicate Plain(s: Setup, r: RegFile)
    requires Full(r)
  {
    !s.sourceHost && !HostAligned(s, r)
  }

  /** Whether a rectangle aligns its monochrome host data to whole bytes at row ends: HOST_BYTE_ALIGN with a monochrome host source. */
  predicate HostAligned(s: Setup, r: RegFile)
    requires Full(r)
  {
    r[HostCntl] & HostByteAlign != 0 && s.sourceMix == MonoSrcHost
  }

  /**
   * The host count of a rectangle walk of `steps` pixels from `w0`: it was
   * not yet used up before any of them, and a walk that is still busy
   * stopped because it was.
   */
  ghost predicate RectCounted(s: Setup, w0: Walk, r: RegFile, busy: bool, count: int, steps: nat)
    requires Full(r)
  {
    (forall j | 0 <= j < steps :: RectCount(s, w0.xCount, HostAligned(s, r), count, j) != 0)
    && (busy ==> RectCount(s, w0.xCount, HostAligned(s, r), count, steps) == 0)
  }

  /** The host count of a line walk of `steps` pixels, as `RectCounted` with `CountLeft`. */
  ghost predicate LineCounted(s: Setup, busy: bool, count: int, steps: nat)
  {
    (forall j | 0 <= j < steps :: CountLeft(s, count, j) != 0) && (busy ==> CountLeft(s, count, steps) == 0)
  }

  /** One more line pixel, drawn while the count was not yet used up. */
  lemma LineCountedNext(s: Setup, count: int, k: nat)
    requires LineCounted(s, false, count, k) && CountLeft(s, count, k) != 0
    ensures LineCounted(s, false, count, k + 1)
  {
  }

  /**
   * A host dword (`mach64_blit(val, 32)`) draws 4, 2 or 1 pixels at host
   * sizes 0, 1 and 2, or fewer when the walk has fewer left.
   */
  lemma HostDwordPixels(s: Setup, steps: nat, t: int, busy: bool)
    requires s.sourceHost && 0 <= s.hostSize <= 2
    requires steps <= t && (!busy <==> steps == t) && LineCounted(s, busy, 32, steps)
    ensures steps == Min(if s.hostSize == 0 then 4 else if s.hostSize == 1 then 2 else 1, t)
  {
    CallSteps(s, 32, steps, t, busy);
  }

  /**
   * A host write whose bit count never reaches 0 runs the walk to its end:
   * any write at a host size other than 0-2, and a 16-bit word at host
   * size 2.
   */
  lemma HostRunsOn(s: Setup, count: int, steps: nat, t: int, busy: bool)
    requires s.sourceHost && ((!(0 <= s.hostSize <= 2) && count != 0) || (s.hostSize == 2 && count == 16))
    requires steps <= t && (!busy <==> steps == t) && LineCounted(s, busy, count, steps)
    ensures steps == t && !busy
  {
    CallSteps(s, count, steps, t, busy);
  }

  /** The smaller of `a` and `b`. */
  function Min(a: int, b: int): int { if a < b then a else b }

  /**
   * How many pixels one call of a walk with `t` pixels left draws from
   * `count`: `count / PixelBits` of them when the count divides into whole
   * pixels (a host dword gives 4, 2 or 1 pixels at host sizes 0-2), and
   * otherwise the whole rest of the walk, because the count never reaches
   * 0 (host size 3, a negative count, or a 16-bit word at host size 2).
   */
  lemma CallSteps(s: Setup, count: int, steps: nat, t: int, busy: bool)
    requires steps <= t && (!busy <==> steps == t)
    requires LineCounted(s, busy, count, steps)
    ensures PixelBits(s) > 0 && count >= 0 && count % PixelBits(s) == 0 ==> steps == Min(count / PixelBits(s), t)
    ensures count != 0 && (PixelBits(s) == 0 || count < 0 || count % PixelBits(s) != 0) ==> steps == t
  {
    var d := PixelBits(s);
    if busy {
      CountLeftIs(s, count, steps);
      assert count == steps * d && steps * d >= 0;
      if d > 0 {
        DivExact(steps, d);
      }
    } else if d > 0 && count >= 0 && count % d == 0 && count / d < t {
      CountLeftIs(s, count, count / d);
      assert false;
    }
  }

  /** `(q * d) % d == 0` and `(q * d) / d == q` for a positive `d`. */
  lemma DivExact(q: int, d: int)
    requires d > 0
    ensures (q * d) % d == 0 && (q * d) / d == q
  {
    var p, r := (q * d) / d, (q * d) % d;
    assert (q - p) * d == r by {
      assert q * d == p * d + r;
    }
    if q - p >= 1 {
      assert false;
    } else if q - p <= -1 {
      assert false;
    }
  }

  /**
   * The rectangle form of `CallSteps` without HOST_BYTE_ALIGN; in
   * particular with no host source a call draws `count` pixels, or the whole
   * rest of the walk for a negative count.
   */
  lemma RectSteps(s: Setup, x0: int, align: bool, count: int, steps: nat, t: int, busy: bool)
    requires steps <= t && (!busy <==> steps == t)
    requires RectCountsLeft(s, x0, align, count, steps)
    requires busy ==> RectCount(s, x0, align, count, steps) == 0
    ensures !align && PixelBits(s) > 0 && count >= 0 && count % PixelBits(s) == 0 ==> steps == Min(count / PixelBits(s), t)
    ensures !align && count != 0 && (PixelBits(s) == 0 || count < 0 || count % PixelBits(s) != 0) ==> steps == t
    ensures !s.sourceHost && !align && count >= 0 ==> steps == Min(count, t)
    ensures !s.sourceHost && !align && count < 0 ==> steps == t
  {
    if align {
      return;
    }
    RectCountsLeftAll(s, x0, false, count, steps);
    forall j | 0 <= j <= steps
      ensures RectCount(s, x0, false, count, j) == CountLeft(s, count, j)
    {
      RectCountUnaligned(s, x0, count, j);
    }
    CallSteps(s, count, steps, t, busy);
  }

  // ------------------------------------------------------- register writes

  /** Whether DP_SRC leaves the host out of a started operation: the test before `mach64_blit(0, -1)`, on the low two bits of the mono source. */
  predicate NoHostSource(dpSrc: bv32)
  {
    SourceBg(dpSrc) != SrcHost && SourceFg(dpSrc) != SrcHost && (dpSrc >> 16) & 3 != MonoSrcHost as bv32
  }

  /** Whether a started fill is drawn at once: a width, a height and no host source. */
  predicate FillBlits(r: RegFile)
    requires Full(r)
  {
    r[DstHeightWidth] & 0x7ff != 0 && r[DstHeightWidth] & 0x7ff_0000 != 0 && NoHostSource(r[DpSrc])
  }

  /** Whether a started line is drawn at once: a length and no host source. */
  predicate LineBlits(r: RegFile)
    requires Full(r)
  {
    r[DstBresLnth] & 0x7fff != 0 && NoHostSource(r[DpSrc])
  }

  /** An operation started without a host source counts one pixel per step, so `mach64_blit(0, -1)` draws all of it. */
  lemma NoHostSourcePlain(a: Accel, r: RegFile)
    requires Full(r) && NoHostSource(r[DpSrc])
    ensures Plain(FillAccel(a, r).s, r) && Plain(LineAccel(a, r).s, r)
  {
    var d := r[DpSrc];
    MonoNotHost(d >> 16);
    StartSources(a, r);
  }

  /** Both setups take their sources from DP_SRC. */
  lemma StartSources(a: Accel, r: RegFile)
    requires Full(r)
    ensures var d := r[DpSrc];
            var f, l := FillAccel(a, r).s, LineAccel(a, r).s;
            f.sourceHost == l.sourceHost == (SourceBg(d) == SrcHost || SourceFg(d) == SrcHost)
            && f.sourceMix == l.sourceMix == SourceMix(d)
  {
  }

  /**
   * What a fill started by a byte write leaves: the fill's setup, with the
   * registers kept or DST_Y_X tiled; unless it is drawn at once nothing
   * else changes, and if it is, it finishes.
   */
  ghost predicate Filled(a0: Accel, r0: RegFile, m0: seq<bv8>, a: Accel, r: RegFile, m: seq<bv8>)
    requires Full(r0)
  {
    var b := FillAccel(a0, r0);
    a.op == Rect && a.s == b.s
    && (r == r0 || r == Tiled(r0, b.s))
    && (!FillBlits(r0) ==> r == r0 && a == b && m == m0)
    && (FillBlits(r0) ==> !a.w.busy)
  }

  /**
   * What a line started by a byte write leaves: the line's setup with the
   * registers kept; unless it is drawn at once nothing else changes, and if
   * it is, it finishes.
   */
  ghost predicate Lined(a0: Accel, r0: RegFile, m0: seq<bv8>, a: Accel, r: RegFile, m: seq<bv8>)
    requires Full(r0)
  {
    var b := LineAccel(a0, r0);
    a.op == Line && a.s == b.s && r == r0
    && (!LineBlits(r0) ==> a == b && m == m0)
    && (LineBlits(r0) ==> !a.w.busy)
  }

  /** A mono source field whose low two bits are not MONO_SRC_HOST is not MONO_SRC_HOST. */
  lemma MonoNotHost(x: bv32)
    requires x & 3 != MonoSrcHost as bv32
    ensures (x & 7) as int != MonoSrcHost
  {
  }

  /** A 16-bit value held in 32 bits, as C promotes a `uint16_t` operand. */
  type Word16 = x: bv32 | x <= 0xffff

  /** The low and high halves of a 32-bit value. */
  function Low(v: bv32): Word16 { v & 0xffff }
  function High(v: bv32): Word16 { v >> 16 }

  /** Byte `i` (0 or 1) of a 16-bit value. */
  function ByteOf(v: Word16, i: int): bv8
    requires i == 0 || i == 1
  {
    GetLane(i, v)
  }

  /** The load bits of CONTEXT_LOAD_CNTL: while either is set, `mach64_load_context` loads another context. */
  const ContextLoadBits: bv32 := 0x3_0000

  /** CONTEXT_LOAD_CNTL with its low half replaced by `val`. */
  function LowHalf(cntl: bv32, val: Word16): bv32
  {
    (cntl & 0xffff_0000) | val
  }

  /** CONTEXT_LOAD_CNTL with its high half replaced by `val`. */
  function HighHalf(cntl: bv32, val: Word16): bv32
  {
    (cntl & 0xffff) | (val << 16)
  }

  /**
   * The test `mach64_accel_write_fifo_w` applies after a word write at
   * 0x32e, as written: the 16-bit value itself against the load bits, which
   * lie above any 16-bit value.
   */
  predicate HighWordLoadsAsWritten(val: Word16)
  {
    val & ContextLoadBits != 0
  }

  /** The test as evidently intended: the load bits of the register once its high half is `val`. */
  predicate HighWordLoads(cntl: bv32, val: Word16)
  {
    HighHalf(cntl, val) & ContextLoadBits != 0
  }

  /** A low-half write sets the low half and keeps the high one. */
  lemma LowHalfSets(cntl: bv32, val: Word16)
    ensures LowHalf(cntl, val) & 0xffff == val
  {
  }

  lemma LowHalfKeeps(cntl: bv32, val: Word16)
    ensures LowHalf(cntl, val) >> 16 == cntl >> 16
  {
  }

  /** A high-half write sets the high half and keeps the low one. */
  lemma HighHalfSets(cntl: bv32, val: Word16)
    ensures HighHalf(cntl, val) >> 16 == val
  {
  }

  lemma HighHalfKeeps(cntl: bv32, val: Word16)
    ensures HighHalf(cntl, val) & 0xffff == cntl & 0xffff
  {
    KeepsLowBits(cntl, val);
  }

  lemma KeepsLowBits(cntl: bv32, val: bv32)
    requires val <= 0xffff
    ensures ((cntl & 0xffff) | (val << 16)) & 0xffff == cntl & 0xffff
  {
  }

  /** As written, a word write at 0x32e never loads a context, whatever its value. */
  lemma HighWordNeverLoads(val: Word16)
    ensures !HighWordLoadsAsWritten(val)
  {
  }

  /** With the intended test a word write at 0x32e loads a context exactly when bit 0 or 1 of the word is set. */
  lemma HighWordLoadsBits(cntl: bv32, val: Word16)
    ensures HighWordLoads(cntl, val) <==> val & 3 != 0
  {
  }

  /**
   * Writing CONTEXT_LOAD_CNTL as two words, low then high, stores the same
   * value as one dword write, so with the intended test the word pair loads
   * a context exactly when the dword write does.
   */
  lemma WordPairIsDword(cntl: bv32, v: bv32)
    ensures HighHalf(LowHalf(cntl, Low(v)), High(v)) == v
    ensures HighWordLoads(LowHalf(cntl, Low(v)), High(v)) <==> v & ContextLoadBits != 0
  {
    PairBits(cntl, v);
  }

  lemma PairBits(cntl: bv32, v: bv32)
    ensures (((cntl & 0xffff_0000) | (v & 0xffff)) & 0xffff) | ((v >> 16) << 16) == v
  {
  }

  /** The word pair 0x0000, 0x0001 stores 0x10000, which a dword write would load, yet as written the high word does not. */
  lemma HighWordMissesLoad()
    ensures HighHalf(LowHalf(0, 0), 1) == 0x1_0000 && 0x1_0000 & ContextLoadBits != 0
    ensures !HighWordLoadsAsWritten(1)
  {
  }

  /**
   * The register offset context-mask bit `b` (2-27) loads, in order:
   * DST_OFF_PITCH, DST_Y_X, DST_HEIGHT_WIDTH, the Bresenham error,
   * increments and length... up to DST_CNTL at 0x330.
   */
  function ContextSlot(b: int): (o: int)
    requires 2 <= b < 28
  {
    match b
    case 2 => 0x100
    case 3 => 0x10c
    case 4 => 0x118
    case 5 => 0x124
    case 6 => 0x128
    case 7 => 0x12c
    case 8 => 0x180
    case 9 => 0x18c
    case 10 => 0x198
    case 11 => 0x1a4
    case 12 => 0x1b0
    case 13 => 0x280
    case 14 => 0x284
    case 15 => 0x2a8
    case 16 => 0x2b4
    case 17 => 0x2c0
    case 18 => 0x2c4
    case 19 => 0x2c8
    case 20 => 0x2cc
    case 21 => 0x2d0
    case 22 => 0x2d4
    case 23 => 0x2d8
    case 24 => 0x300
    case 25 => 0x304
    case 26 => 0x308
    case _ => 0x330
  }

  /**
   * Every context slot is a dword-aligned register offset that feeds no
   * host data and reaches neither CONTEXT_MASK nor CONTEXT_LOAD_CNTL, so
   * loading a context never starts another load from inside.
   */
  lemma ContextSlotSafe(b: int)
    requires 2 <= b < 28
    ensures var o := ContextSlot(b);
            o % 4 == 0 && 0x100 <= o < 0x334 && !HostData(o) && !(0x31d <= o <= 0x323) && o != ContextLow
  {
  }

  /** The slots are loaded at increasing offsets, so no register is loaded twice. */
  lemma ContextSlotsIncrease(b: int)
    requires 2 <= b < 27
    ensures ContextSlot(b) < ContextSlot(b + 1)
  {
  }

  /** The memory address of the context CONTEXT_LOAD_CNTL points at: 256-byte blocks counted down from 0x3fff, masked to memory of `n` bytes. */
  function ContextAddr(cntl: bv32, n: int): int
    requires n > 0
  {
    (ContextBlock(cntl) * 256) % n
  }

  /** Dword `k` of the context at `a`: the little-endian 32-bit value at `a + 4 * k`. */
  function ContextWord(m: seq<bv8>, a: int, k: int): bv32
    requires P.Shape(|m|)
  {
    P.ReadPixel(m, a / 4 + k, 2, false)
  }

  /** The 256-byte block number CONTEXT_LOAD_CNTL names, counted down from 0x3fff. */
  function ContextBlock(cntl: bv32): (x: int)
    ensures 0 <= x <= 0x3fff
  {
    0x3fff - (cntl & 0x3fff) as int
  }

  /** In memory of whole 256-byte blocks a context starts on a block and lies inside memory. */
  lemma ContextAddrFits(cntl: bv32, n: int)
    requires n >= 256 && n % 256 == 0
    ensures var a := ContextAddr(cntl, n);
            a % 256 == 0 && a + 256 <= n
  {
    BlockFits(ContextBlock(cntl), n);
  }

  lemma BlockFits(x: int, n: int)
    requires x >= 0 && n >= 256 && n % 256 == 0
    ensures (x * 256) % n % 256 == 0 && (x * 256) % n + 256 <= n
  {
    var q := n / 256;
    assert n == q * 256;
    BlockMod(x, q);
    assert (x * 256) % n == (x % q) * 256;
    assert x % q < q;
    assert (x % q) * 256 <= (q - 1) * 256;
  }

  /**
   * There, dword `k` of a context (the mask at 0, the registers at 2-27,
   * the next CONTEXT_LOAD_CNTL at 28) is the four bytes at `a + 4 * k`.
   */
  lemma ContextWordAt(m: seq<bv8>, cntl: bv32, k: int)
    requires P.Shape(|m|) && |m| % 256 == 0 && 0 <= k < 64
    ensures 0 <= ContextAddr(cntl, |m|) && ContextAddr(cntl, |m|) + 256 <= |m|
    ensures var a := ContextAddr(cntl, |m|);
            ContextWord(m, a, k) == Compose32(m[a + 4 * k], m[a + 4 * k + 1], m[a + 4 * k + 2], m[a + 4 * k + 3])
  {
    var n := |m|;
    var a := ContextAddr(cntl, n);
    ContextAddrFits(cntl, n);
    DwordBase(a, k, n);
  }

  lemma DwordBase(a: int, k: int, n: int)
    requires P.Shape(n) && a % 256 == 0 && 0 <= a && a + 256 <= n && 0 <= k < 64
    ensures P.Base(a / 4 + k, 2, n) == a + 4 * k
  {
    var i := a / 4 + k;
    var m := n / 4;
    var c := P.Two32 / n;
    assert n == 4 * m && P.Two32 == n * c;
    assert P.Two32 == m * (4 * c);
    P.ModOfMultiple(i, m, 4 * c);
    assert 0 <= i < m;
    P.ModUnique(i, m, 0, i);
  }

  /** Multiples of 256 stay multiples of 256 modulo memory of `q` 256-byte blocks. */
  lemma BlockMod(x: int, q: int)
    requires x >= 0 && q > 0
    ensures (x * 256) % (q * 256) == (x % q) * 256
  {
    var r := x % q;
    assert x == (x / q) * q + r;
    assert x * 256 == (x / q) * (q * 256) + r * 256;
    assert 0 <= r * 256 < q * 256;
    P.ModUnique(x * 256, q * 256, x / q, r * 256);
  }

  // ------------------------------------------------- word and dword stores

  /** The register file after the default case of `mach64_accel_write_fifo_w`: the word's two bytes stored, low first. */
  function StoreWord(r: RegFile, o: int, val: Word16): (r': RegFile)
    requires Full(r)
    ensures Full(r')
  {
    StoreByte(StoreByte(r, o, ByteOf(val, 0)), (o + 1) % 0x400, ByteOf(val, 1))
  }

  /** The register file after the default case of `mach64_accel_write_fifo_l`: the dword's two halves stored as words, low first. */
  function StoreDword(r: RegFile, o: int, val: bv32): (r': RegFile)
    requires Full(r)
    ensures Full(r')
  {
    StoreWord(StoreWord(r, o, Low(val)), (o + 2) % 0x400, High(val))
  }

  /** Whether a byte of the word at `o` starts a fill or a line. */
  predicate WordStarts(o: int, val: Word16)
  {
    var next := (o + 1) % 0x400;
    StartsFill(o, ByteOf(val, 0)) || StartsLine(o, ByteOf(val, 0))
    || StartsFill(next, ByteOf(val, 1)) || StartsLine(next, ByteOf(val, 1))
  }

  /** Whether a byte of the word at `o` starts a fill, the one start that moves a register (DST_Y_X). */
  predicate WordFills(o: int, val: Word16)
  {
    StartsFill(o, ByteOf(val, 0)) || StartsFill((o + 1) % 0x400, ByteOf(val, 1))
  }

  /** Whether a byte of the dword at `o` starts a fill. */
  predicate DwordFills(o: int, val: bv32)
  {
    WordFills(o, Low(val)) || WordFills((o + 2) % 0x400, High(val))
  }

  /** Whether a byte of the dword at `o` starts a fill or a line. */
  predicate DwordStarts(o: int, val: bv32)
  {
    WordStarts(o, Low(val)) || WordStarts((o + 2) % 0x400, High(val))
  }

  /**
   * A word at `o` that `mach64_accel_write_fifo_w` writes as two register
   * bytes: neither it nor its second byte is host data, and it is not a
   * half of CONTEXT_LOAD_CNTL.
   */
  predicate PlainWord(o: int)
  {
    var a := o - o % 2;
    !HostData(a) && a != ContextLow && a != ContextHigh && !HostData((o + 1) % 0x400)
  }

  /** Where the word holding offset `o` and the word two bytes on start, as multiples of 2 within the dword at `o - o % 4`. */
  lemma Halves(o: int)
    requires 0 <= o < 0x400
    ensures (o - o % 4) % 4 == 0 && o - o % 4 <= o < o - o % 4 + 4
    ensures o - o % 2 == o - o % 4 || o - o % 2 == o - o % 4 + 2
    ensures ((o + 2) % 0x400) % 2 == o % 2
    ensures (o + 2) % 0x400 == if o < 0x3fe then o + 2 else o + 2 - 0x400
  {
  }

  /** Two register files that agree except perhaps on DST_Y_X, the one register a fill moves. */
  predicate AgreeBeyondDstYX(r: RegFile, r': RegFile)
    requires Full(r) && Full(r')
  {
    forall g {:trigger r[g]} :: g != DstYX ==> r[g] == r'[g]
  }

  /** Agreement beyond DST_Y_X is transitive. */
  lemma AgreeTrans(r1: RegFile, r2: RegFile, r3: RegFile)
    requires Full(r1) && Full(r2) && Full(r3)
    requires AgreeBeyondDstYX(r1, r2) || r1 == r2
    requires AgreeBeyondDstYX(r2, r3)
    ensures AgreeBeyondDstYX(r1, r3)
  {
  }

  /**
   * The register files a word's two byte writes pass through, each equal to
   * the byte store or, when that byte starts a fill, agreeing with it beyond
   * DST_Y_X, end as the word store does.
   */
  lemma TwoBytes(r0: RegFile, r1: RegFile, r2: RegFile, o: int, val: Word16)
    requires Full(r0) && Full(r1) && Full(r2)
    requires StartsFill(o, ByteOf(val, 0)) ==> AgreeBeyondDstYX(r1, StoreByte(r0, o, ByteOf(val, 0)))
    requires !StartsFill(o, ByteOf(val, 0)) ==> r1 == StoreByte(r0, o, ByteOf(val, 0))
    requires StartsFill((o + 1) % 0x400, ByteOf(val, 1)) ==> AgreeBeyondDstYX(r2, StoreByte(r1, (o + 1) % 0x400, ByteOf(val, 1)))
    requires !StartsFill((o + 1) % 0x400, ByteOf(val, 1)) ==> r2 == StoreByte(r1, (o + 1) % 0x400, ByteOf(val, 1))
    ensures WordFills(o, val) ==> AgreeBeyondDstYX(r2, StoreWord(r0, o, val))
    ensures !WordFills(o, val) ==> r2 == StoreWord(r0, o, val)
  {
    var next, b0, b1 := (o + 1) % 0x400, ByteOf(val, 0), ByteOf(val, 1);
    if StartsFill(o, b0) {
      StoreByteAgree(r1, StoreByte(r0, o, b0), next, b1);
      AgreeTrans(r2, StoreByte(r1, next, b1), StoreWord(r0, o, val));
    }
  }

  /** As `TwoBytes`, for the two word writes of a dword. */
  lemma TwoWords(r0: RegFile, r1: RegFile, r2: RegFile, o: int, val: bv32)
    requires Full(r0) && Full(r1) && Full(r2)
    requires WordFills(o, Low(val)) ==> AgreeBeyondDstYX(r1, StoreWord(r0, o, Low(val)))
    requires !WordFills(o, Low(val)) ==> r1 == StoreWord(r0, o, Low(val))
    requires WordFills((o + 2) % 0x400, High(val)) ==> AgreeBeyondDstYX(r2, StoreWord(r1, (o + 2) % 0x400, High(val)))
    requires !WordFills((o + 2) % 0x400, High(val)) ==> r2 == StoreWord(r1, (o + 2) % 0x400, High(val))
    ensures DwordFills(o, val) ==> AgreeBeyondDstYX(r2, StoreDword(r0, o, val))
    ensures !DwordFills(o, val) ==> r2 == StoreDword(r0, o, val)
  {
    var o2 := (o + 2) % 0x400;
    if WordFills(o, Low(val)) {
      StoreWordAgree(r1, StoreWord(r0, o, Low(val)), o2, High(val));
      AgreeTrans(r2, StoreWord(r1, o2, High(val)), StoreDword(r0, o, val));
    }
  }

  /** A byte store reads and writes each register on its own, so it keeps two files agreeing beyond DST_Y_X. */
  lemma StoreByteAgree(r: RegFile, r': RegFile, o: int, val: bv8)
    requires Full(r) && Full(r') && AgreeBeyondDstYX(r, r')
    ensures AgreeBeyondDstYX(StoreByte(r, o, val), StoreByte(r', o, val))
  {
    forall g | g != DstYX
      ensures StoreByte(r, o, val)[g] == StoreByte(r', o, val)[g]
    {
      StoreByteOne(r, o, val, g);
      StoreByteOne(r', o, val, g);
    }
  }

  /** Register `g` after a byte store depends only on `g` before it. */
  lemma StoreByteOne(r: RegFile, o: int, val: bv8, g: Reg)
    requires Full(r)
    ensures StoreByte(r, o, val)[g] == StoredReg(r[g], o, val, g)
  {
  }

  /** Register `g`, holding `x`, after a byte store at `o`. */
  function StoredReg(x: bv32, o: int, val: bv8, g: Reg): bv32
  {
    var t := ByteTarget(o);
    var x1 := if t.Some? && t.value.reg == g then Write8(t.value.at, x, StoredByte(o, val)) else x;
    if o == 0x333 && g == HostCntl then AlignedHostCntl(x1, val) else x1
  }

  /** So does a word store. */
  lemma StoreWordAgree(r: RegFile, r': RegFile, o: int, val: Word16)
    requires Full(r) && Full(r') && AgreeBeyondDstYX(r, r')
    ensures AgreeBeyondDstYX(StoreWord(r, o, val), StoreWord(r', o, val))
  {
    StoreByteAgree(r, r', o, ByteOf(val, 0));
    StoreByteAgree(StoreByte(r, o, ByteOf(val, 0)), StoreByte(r', o, ByteOf(val, 0)), (o + 1) % 0x400, ByteOf(val, 1));
  }

  /** So does a dword store. */
  lemma StoreDwordAgree(r: RegFile, r': RegFile, o: int, val: bv32)
    requires Full(r) && Full(r') && AgreeBeyondDstYX(r, r')
    ensures AgreeBeyondDstYX(StoreDword(r, o, val), StoreDword(r', o, val))
  {
    StoreWordAgree(r, r', o, Low(val));
    StoreWordAgree(StoreWord(r, o, Low(val)), StoreWord(r', o, Low(val)), (o + 2) % 0x400, High(val));
  }

  // ------------------------------------------------------------ context load

  /** The mask bit of the DST_HEIGHT_WIDTH slot, the one slot whose top byte can start a fill. */
  const FillSlot := 4

  /** The register each context slot 2-26 loads whole (slot 27 at 0x330 is split over the GUI_TRAJ_CNTL aliases). */
  function SlotReg(b: int): Reg
    requires 2 <= b < 27
  {
    match b
    case 2 => DstOffPitch
    case 3 => DstYX
    case 4 => DstHeightWidth
    case 5 => DstBresErr
    case 6 => DstBresInc
    case 7 => DstBresDec
    case 8 => SrcOffPitch
    case 9 => SrcYX
    case 10 => SrcHeight1Width1
    case 11 => SrcYXStart
    case 12 => SrcHeight2Width2
    case 13 => PatReg0
    case 14 => PatReg1
    case 15 => ScLeftRight
    case 16 => ScTopBottom
    case 17 => DpBkgdClr
    case 18 => DpFrgdClr
    case 19 => WriteMask
    case 20 => ChainMask
    case 21 => DpPixWidth
    case 22 => DpMix
    case 23 => DpSrc
    case 24 => ClrCmpClr
    case 25 => ClrCmpMask
    case _ => ClrCmpCntl
  }

  /**
   * The registers after slots 2 to `n - 1` are loaded under `mask`: each
   * slot `b` whose mask bit is set stores dword `w[b]` as
   * `mach64_accel_write_fifo_l` would.
   */
  function LoadedSlots(r: RegFile, mask: bv32, w: seq<bv32>, n: int): (r': RegFile)
    requires Full(r) && |w| == 28 && 2 <= n <= 28
    ensures Full(r')
  {
    if n == 2 then r
    else
      var r0 := LoadedSlots(r, mask, w, n - 1);
      var b := n - 1;
      if Bit(mask, b) then StoreDword(r0, ContextSlot(b), w[b]) else r0
  }

  /**
   * Dwords 0-27 of the context at `a` as `mach64_load_context` reads them:
   * up to `FillSlot` from memory `m0`, the later ones from `m1`, memory as
   * the fill that slot may start leaves it.
   */
  function SlotWords(m0: seq<bv8>, m1: seq<bv8>, a: int): (w: seq<bv32>)
    requires P.Shape(|m0|) && P.Shape(|m1|)
    ensures |w| == 28
  {
    seq(28, k => ContextWord(if k <= FillSlot then m0 else m1, a, k))
  }

  /**
   * The registers after one pass of `mach64_load_context` over the context
   * at `a`: CONTEXT_MASK from dword 0, the masked slots, then
   * CONTEXT_LOAD_CNTL from dword 28 as memory then stands.
   */
  function LoadedContext(r: RegFile, m0: seq<bv8>, m1: seq<bv8>, a: int): (r': RegFile)
    requires Full(r) && P.Shape(|m0|) && P.Shape(|m1|)
    ensures Full(r')
  {
    var mask := ContextWord(m0, a, 0);
    LoadedSlots(r[ContextMask := mask], mask, SlotWords(m0, m1, a), 28)[ContextLoadCntl := ContextWord(m1, a, 28)]
  }

  /**
   * Writing CONTEXT_LOAD_CNTL from dword 28 after the slot loop completes
   * `LoadedContext`: up to DST_Y_X in general, exactly when the context
   * starts no fill and so leaves memory alone.
   */
  lemma LoadedContextDone(r: RegFile, m0: seq<bv8>, m1: seq<bv8>, a: int, r1: RegFile)
    requires Full(r) && Full(r1) && P.Shape(|m0|) && |m1| == |m0|
    requires r1[ContextMask] == ContextWord(m0, a, 0)
    requires SlotsLoaded(r[ContextMask := ContextWord(m0, a, 0)], m0, a, 28, r1, m1)
    ensures ContextLoaded(r, m0, m1, a, r1[ContextLoadCntl := ContextWord(m1, a, 28)])
  {
  }

  /**
   * Slots 2 to `n - 1` of the context at `a` loaded into `r'` over `r0`:
   * up to DST_Y_X in general, and exactly, with memory untouched, when the
   * context starts no fill.
   */
  ghost predicate SlotsLoaded(r0: RegFile, m0: seq<bv8>, a: int, n: int, r': RegFile, m': seq<bv8>)
    requires Full(r0) && Full(r') && P.Shape(|m0|) && |m'| == |m0| && 2 <= n <= 28
  {
    AgreeBeyondDstYX(r', LoadedSlots(r0, ContextWord(m0, a, 0), SlotWords(m0, m', a), n))
    && (!ContextStartsFill(m0, a) ==> r' == LoadedSlots(r0, ContextWord(m0, a, 0), SlotWords(m0, m0, a), n) && m' == m0)
  }

  /**
   * The whole context at `a` loaded into `r'` over `r`, memory going from
   * `m0` to `m1`: CONTEXT_MASK from dword 0 and CONTEXT_LOAD_CNTL from dword
   * 28, the rest as `LoadedContext` up to DST_Y_X, and exactly, with memory
   * untouched, when the context starts no fill.
   */
  ghost predicate ContextLoaded(r: RegFile, m0: seq<bv8>, m1: seq<bv8>, a: int, r': RegFile)
    requires Full(r) && Full(r') && P.Shape(|m0|) && |m1| == |m0|
  {
    r'[ContextMask] == ContextWord(m0, a, 0) && r'[ContextLoadCntl] == ContextWord(m1, a, 28)
    && AgreeBeyondDstYX(r', LoadedContext(r, m0, m1, a))
    && (!ContextStartsFill(m0, a) ==> r' == LoadedContext(r, m0, m1, a) && m1 == m0)
  }

  /** Whether the context at `a` starts a fill: its DST_HEIGHT_WIDTH slot is masked in and starts one. */
  predicate ContextStartsFill(m0: seq<bv8>, a: int)
    requires P.Shape(|m0|)
  {
    Bit(ContextWord(m0, a, 0), FillSlot) && DwordStarts(ContextSlot(FillSlot), ContextWord(m0, a, FillSlot))
  }

  /** The slot a register is loaded from, or 0 for a register no slot 2-26 loads whole. */
  function RegSlot(g: Reg): int
  {
    match g
    case DstOffPitch => 2
    case DstYX => 3
    case DstHeightWidth => 4
    case DstBresErr => 5
    case DstBresInc => 6
    case DstBresDec => 7
    case SrcOffPitch => 8
    case SrcYX => 9
    case SrcHeight1Width1 => 10
    case SrcYXStart => 11
    case SrcHeight2Width2 => 12
    case PatReg0 => 13
    case PatReg1 => 14
    case ScLeftRight => 15
    case ScTopBottom => 16
    case DpBkgdClr => 17
    case DpFrgdClr => 18
    case WriteMask => 19
    case ChainMask => 20
    case DpPixWidth => 21
    case DpMix => 22
    case DpSrc => 23
    case ClrCmpClr => 24
    case ClrCmpMask => 25
    case ClrCmpCntl => 26
    case _ => 0
  }

  /** `RegSlot` undoes `SlotReg`, so different slots load different registers. */
  lemma SlotRegInverse(b: int)
    requires 2 <= b < 27
    ensures RegSlot(SlotReg(b)) == b
  {
    if b == 2 {} else if b == 3 {} else if b == 4 {} else if b == 5 {} else if b == 6 {} else if b == 7 {} else if b == 8 {} else if b == 9 {} else if b == 10 {} else if b == 11 {} else if b == 12 {} else if b == 13 {} else if b == 14 {} else if b == 15 {} else if b == 16 {} else if b == 17 {} else if b == 18 {} else if b == 19 {} else if b == 20 {} else if b == 21 {} else if b == 22 {} else if b == 23 {} else if b == 24 {} else if b == 25 {} else {}
  }

  /** Byte `i` of slot `b` (2-26) is lane `i` of the slot's register. */
  lemma SlotTarget(b: int, i: int)
    requires 2 <= b < 27 && 0 <= i < 4
    ensures ByteTarget(ContextSlot(b) + i) == Some(Target(SlotReg(b), ContextSlot(b) + i))
  {
    if b == 2 {} else if b == 3 {} else if b == 4 {} else if b == 5 {} else if b == 6 {} else if b == 7 {} else if b == 8 {} else if b == 9 {} else if b == 10 {} else if b == 11 {} else if b == 12 {} else if b == 13 {} else if b == 14 {} else if b == 15 {} else if b == 16 {} else if b == 17 {} else if b == 18 {} else if b == 19 {} else if b == 20 {} else if b == 21 {} else if b == 22 {} else if b == 23 {} else if b == 24 {} else if b == 25 {} else {}
  }

  /** A byte that lands in lane `o & 3` of register `g` changes that lane of `g` and no other register. */
  lemma StoreByteAt(r: RegFile, o: int, g: Reg, val: bv8)
    requires Full(r) && ByteTarget(o) == Some(Target(g, o)) && o != 0x333
    ensures StoreByte(r, o, val)[g] == SetLane(o % 4, r[g], val)
    ensures forall h :: h != g ==> StoreByte(r, o, val)[h] == r[h]
  {
  }

  /** A byte store leaves alone a register it does not reach. */
  lemma StoreByteOther(r: RegFile, o: int, val: bv8, h: Reg)
    requires Full(r) && (ByteTarget(o).None? || ByteTarget(o).value.reg != h) && (o == 0x333 ==> h != HostCntl)
    ensures StoreByte(r, o, val)[h] == r[h]
  {
  }

  lemma SlotByte(r: RegFile, b: int, i: int, val: bv8)
    requires Full(r) && 2 <= b < 27 && 0 <= i < 4
    ensures var o := ContextSlot(b) + i;
            StoreByte(r, o, val)[SlotReg(b)] == SetLane(i, r[SlotReg(b)], val)
            && forall h :: h != SlotReg(b) ==> StoreByte(r, o, val)[h] == r[h]
  {
    ContextSlotSafe(b);
    var o := ContextSlot(b);
    SlotTarget(b, i);
    assert (o + i) % 4 == i;
    StoreByteAt(r, o + i, SlotReg(b), val);
  }

  /** The four byte lanes of a dword, stored low half first, make up the dword whatever the register held. */
  lemma DwordLanes(v: bv32, x: bv32)
    ensures SetLane(3, SetLane(2, SetLane(1, SetLane(0, x, ByteOf(Low(v), 0)), ByteOf(Low(v), 1)), ByteOf(High(v), 0)), ByteOf(High(v), 1)) == v
  {
  }

  /** Loading slot `b` (2-26) sets its register to the dword and leaves every other register alone. */
  lemma SlotStore(r: RegFile, b: int, v: bv32)
    requires Full(r) && 2 <= b < 27
    ensures StoreDword(r, ContextSlot(b), v)[SlotReg(b)] == v
    ensures forall h :: h != SlotReg(b) ==> StoreDword(r, ContextSlot(b), v)[h] == r[h]
  {
    var o, g := ContextSlot(b), SlotReg(b);
    ContextSlotSafe(b);
    var b0, b1, b2, b3 := ByteOf(Low(v), 0), ByteOf(Low(v), 1), ByteOf(High(v), 0), ByteOf(High(v), 1);
    assert (o + 1) % 0x400 == o + 1 && (o + 2) % 0x400 == o + 2 && ((o + 2) % 0x400 + 1) % 0x400 == o + 3;
    var r1 := StoreByte(r, o, b0);
    var r2 := StoreByte(r1, o + 1, b1);
    var r3 := StoreByte(r2, o + 2, b2);
    var r4 := StoreByte(r3, o + 3, b3);
    assert StoreDword(r, o, v) == r4;
    SlotByte(r, b, 0, b0);
    SlotByte(r1, b, 1, b1);
    SlotByte(r2, b, 2, b2);
    SlotByte(r3, b, 3, b3);
    DwordLanes(v, r[g]);
  }

  /** The bytes of slot 27: DST_CNTL's low half, SRC_CNTL's low byte and PAT_CNTL's low byte (GUI_TRAJ_CNTL). */
  lemma TrajTargets()
    ensures ByteTarget(0x330) == Some(Target(DstCntl, 0x330)) && ByteTarget(0x331) == Some(Target(DstCntl, 0x331))
    ensures ByteTarget(0x332) == Some(Target(SrcCntl, 0x330)) && ByteTarget(0x333) == Some(Target(PatCntl, 0x330))
  {
  }

  /** Slot 27 at 0x330 reaches only DST_CNTL, SRC_CNTL, PAT_CNTL and HOST_CNTL. */
  lemma LastSlotFrame(r: RegFile, v: bv32, h: Reg)
    requires Full(r) && h != DstCntl && h != SrcCntl && h != PatCntl && h != HostCntl
    ensures StoreDword(r, 0x330, v)[h] == r[h]
  {
    var b0, b1, b2, b3 := ByteOf(Low(v), 0), ByteOf(Low(v), 1), ByteOf(High(v), 0), ByteOf(High(v), 1);
    TrajTargets();
    assert (0x330 + 1) % 0x400 == 0x331 && (0x330 + 2) % 0x400 == 0x332 && (0x332 + 1) % 0x400 == 0x333;
    var r1 := StoreByte(r, 0x330, b0);
    var r2 := StoreByte(r1, 0x331, b1);
    var r3 := StoreByte(r2, 0x332, b2);
    StoreByteOther(r, 0x330, b0, h);
    StoreByteOther(r1, 0x331, b1, h);
    StoreByteOther(r2, 0x332, b2, h);
    StoreByteOther(r3, 0x333, b3, h);
  }

  /**
   * After slots 2 to `n - 1`, slot register `b` holds dword `w[b]` when
   * `b` is among them and masked in, and its old value otherwise.
   */
  lemma {:induction false} LoadedSlotsAt(r: RegFile, mask: bv32, w: seq<bv32>, n: int, b: int)
    requires Full(r) && |w| == 28 && 2 <= n <= 28 && 2 <= b < 27
    ensures LoadedSlots(r, mask, w, n)[SlotReg(b)] == if b < n && Bit(mask, b) then w[b] else r[SlotReg(b)]
  {
    if n > 2 {
      LoadedSlotsAt(r, mask, w, n - 1, b);
      var c := n - 1;
      if Bit(mask, c) {
        var r0 := LoadedSlots(r, mask, w, n - 1);
        SlotRegInverse(b);
        if c < 27 {
          SlotRegInverse(c);
          SlotStore(r0, c, w[c]);
        } else {
          assert ContextSlot(c) == 0x330;
          LastSlotFrame(r0, w[c], SlotReg(b));
        }
      }
    }
  }

  /** No slot reaches CONTEXT_MASK. */
  lemma {:induction false} LoadedSlotsMask(r: RegFile, mask: bv32, w: seq<bv32>, n: int)
    requires Full(r) && |w| == 28 && 2 <= n <= 28
    ensures LoadedSlots(r, mask, w, n)[ContextMask] == r[ContextMask]
  {
    if n > 2 {
      LoadedSlotsMask(r, mask, w, n - 1);
      var c := n - 1;
      if Bit(mask, c) {
        var r0 := LoadedSlots(r, mask, w, n - 1);
        if c < 27 {
          SlotRegInverse(c);
          assert SlotReg(c) != ContextMask;
          SlotStore(r0, c, w[c]);
        } else {
          assert ContextSlot(c) == 0x330;
          LastSlotFrame(r0, w[c], ContextMask);
        }
      }
    }
  }

  /**
   * The partner of `LoadedContext`: after a context load, slot register `b`
   * (2-26) holds dword `b` of the context when CONTEXT_MASK bit `b` is set
   * and its old value otherwise; CONTEXT_MASK holds dword 0 and
   * CONTEXT_LOAD_CNTL dword 28.
   */
  lemma LoadedContextSlot(r: RegFile, m0: seq<bv8>, m1: seq<bv8>, a: int, b: int)
    requires Full(r) && P.Shape(|m0|) && P.Shape(|m1|) && 2 <= b < 27
    ensures var mask := ContextWord(m0, a, 0);
            LoadedContext(r, m0, m1, a)[SlotReg(b)]
            == if Bit(mask, b) then ContextWord(if b <= FillSlot then m0 else m1, a, b) else r[SlotReg(b)]
    ensures LoadedContext(r, m0, m1, a)[ContextMask] == ContextWord(m0, a, 0)
    ensures LoadedContext(r, m0, m1, a)[ContextLoadCntl] == ContextWord(m1, a, 28)
  {
    var mask := ContextWord(m0, a, 0);
    SlotRegInverse(b);
    LoadedSlotsAt(r[ContextMask := mask], mask, SlotWords(m0, m1, a), 28, b);
    LoadedSlotsMask(r[ContextMask := mask], mask, SlotWords(m0, m1, a), 28);
  }

  /** Slots 2 to `n - 1` depend only on dwords 2 to `n - 1`. */
  lemma {:induction false} LoadedSlotsPrefix(r: RegFile, mask: bv32, w: seq<bv32>, w': seq<bv32>, n: int)
    requires Full(r) && |w| == 28 && |w'| == 28 && 2 <= n <= 28
    requires forall k | 2 <= k < n :: w[k] == w'[k]
    ensures LoadedSlots(r, mask, w, n) == LoadedSlots(r, mask, w', n)
  {
    if n > 2 {
      LoadedSlotsPrefix(r, mask, w, w', n - 1);
      var r0 := LoadedSlots(r, mask, w, n - 1);
      assert w[n - 1] == w'[n - 1];
      assert LoadedSlots(r, mask, w', n) == if Bit(mask, n - 1) then StoreDword(r0, ContextSlot(n - 1), w[n - 1]) else r0;
    }
  }

  /** Only the DST_HEIGHT_WIDTH slot holds the top byte of a destination size. */
  lemma SlotAwayFromStarts(b: int)
    requires 2 <= b < 28 && b != FillSlot
    ensures ContextSlot(b) != 0x110 && ContextSlot(b) != 0x118 && ContextSlot(b) != 0x11c && ContextSlot(b) != 0x120
  {
    if b == 2 {} else if b == 3 {} else if b == 4 {} else if b == 5 {} else if b == 6 {} else if b == 7 {} else if b == 8 {} else if b == 9 {} else if b == 10 {} else if b == 11 {} else if b == 12 {} else if b == 13 {} else if b == 14 {} else if b == 15 {} else if b == 16 {} else if b == 17 {} else if b == 18 {} else if b == 19 {} else if b == 20 {} else if b == 21 {} else if b == 22 {} else if b == 23 {} else if b == 24 {} else if b == 25 {} else if b == 26 {} else {}
  }

  /**
   * Every context slot is a plain dword (see `PlainWord`), and only the
   * DST_HEIGHT_WIDTH slot can start anything.
   */
  lemma SlotPlain(b: int, v: bv32)
    requires 2 <= b < 28
    ensures PlainWord(ContextSlot(b)) && PlainWord((ContextSlot(b) + 2) % 0x400)
    ensures b != FillSlot ==> !DwordStarts(ContextSlot(b), v)
  {
    ContextSlotSafe(b);
    var o := ContextSlot(b);
    assert (o + 1) % 0x400 == o + 1 && (o + 2) % 0x400 == o + 2 && ((o + 2) % 0x400 + 1) % 0x400 == o + 3;
    if b != FillSlot {
      SlotAwayFromStarts(b);
    }
  }

  /**
   * A masked slot of a context that starts no fill starts nothing: the
   * DST_HEIGHT_WIDTH slot by the definition of `ContextStartsFill` (while
   * memory is still as the pass found it), any other by `SlotPlain`.
   */
  lemma SlotQuiet(m0: seq<bv8>, m: seq<bv8>, a: int, b: int)
    requires P.Shape(|m0|) && P.Shape(|m|) && 2 <= b < 28 && (b <= FillSlot ==> m == m0)
    requires Bit(ContextWord(m0, a, 0), b) && !ContextStartsFill(m0, a)
    ensures !DwordStarts(ContextSlot(b), ContextWord(m, a, b))
  {
    SlotPlain(b, ContextWord(m, a, b));
  }

  /** The slot words before slot `b` do not depend on memory as it stands after slot `b`, when only the fill slot can have changed it. */
  lemma SlotWordsPrefix(m0: seq<bv8>, m: seq<bv8>, m': seq<bv8>, a: int, b: int)
    requires P.Shape(|m0|) && P.Shape(|m|) && P.Shape(|m'|) && 2 <= b <= 28
    requires m' == m || b <= FillSlot
    ensures forall k | 2 <= k < b :: SlotWords(m0, m, a)[k] == SlotWords(m0, m', a)[k]
  {
    if m' != m {
      forall k | 2 <= k < b
        ensures SlotWords(m0, m, a)[k] == SlotWords(m0, m', a)[k]
      {
        assert SlotWords(m0, m, a)[k] == ContextWord(m0, a, k);
      }
    }
  }

  /** Loading slot `b` on top of the first `b` slots, read from `w'` which agrees with `w` below `b`. */
  lemma SlotNext(r0: RegFile, mask: bv32, w: seq<bv32>, w': seq<bv32>, b: int)
    requires Full(r0) && |w| == 28 && |w'| == 28 && 2 <= b < 28
    requires forall k | 2 <= k < b :: w[k] == w'[k]
    ensures var before := LoadedSlots(r0, mask, w, b);
            LoadedSlots(r0, mask, w', b + 1) == if Bit(mask, b) then StoreDword(before, ContextSlot(b), w'[b]) else before
  {
    LoadedSlotsPrefix(r0, mask, w, w', b);
  }

  /**
   * What one slot `b` of `mach64_load_context` does, from registers `r` and
   * memory `m` to `r'` and `m'`: if the slot is masked in, `r'` is the dword
   * store of the slot's word (up to DST_Y_X when it starts a fill) and memory
   * changes only if it starts something; otherwise nothing changes.
   */
  ghost predicate SlotLoaded(mask: bv32, a: int, b: int, r: RegFile, m: seq<bv8>, r': RegFile, m': seq<bv8>)
    requires Full(r) && Full(r') && P.Shape(|m|) && 2 <= b < 28
  {
    var o, w := ContextSlot(b), ContextWord(m, a, b);
    if Bit(mask, b) then
      (DwordFills(o, w) ==> AgreeBeyondDstYX(r', StoreDword(r, o, w)))
      && (!DwordFills(o, w) ==> r' == StoreDword(r, o, w))
      && (!DwordStarts(o, w) ==> m' == m)
    else r' == r && m' == m
  }

  /** After a slot, the registers still agree beyond DST_Y_X with `LoadedSlots` one slot further. */
  lemma LoadStep(r0: RegFile, m0: seq<bv8>, a: int, b: int, r: RegFile, m: seq<bv8>, r': RegFile, m': seq<bv8>)
    requires Full(r0) && Full(r) && Full(r') && P.Shape(|m0|) && |m| == |m0| && |m'| == |m0| && 2 <= b < 28
    requires b <= FillSlot ==> m == m0
    requires AgreeBeyondDstYX(r, LoadedSlots(r0, ContextWord(m0, a, 0), SlotWords(m0, m, a), b))
    requires SlotLoaded(ContextWord(m0, a, 0), a, b, r, m, r', m')
    ensures b + 1 <= FillSlot ==> m' == m0
    ensures AgreeBeyondDstYX(r', LoadedSlots(r0, ContextWord(m0, a, 0), SlotWords(m0, m', a), b + 1))
  {
    var mask, o, w := ContextWord(m0, a, 0), ContextSlot(b), ContextWord(m, a, b);
    var ws, ws' := SlotWords(m0, m, a), SlotWords(m0, m', a);
    if Bit(mask, b) {
      SlotPlain(b, w);
    }
    SlotWordsPrefix(m0, m, m', a, b);
    SlotNext(r0, mask, ws, ws', b);
    if Bit(mask, b) {
      var before := LoadedSlots(r0, mask, ws, b);
      assert ws'[b] == w;
      StoreDwordAgree(r, before, o, w);
      AgreeTrans(r', StoreDword(r, o, w), StoreDword(before, o, w));
    }
  }

  /** After a slot of a context that starts no fill, the registers are `LoadedSlots` one slot further and memory is as it was. */
  lemma LoadStepExact(r0: RegFile, m0: seq<bv8>, a: int, b: int, r: RegFile, r': RegFile, m': seq<bv8>)
    requires Full(r0) && Full(r) && Full(r') && P.Shape(|m0|) && |m'| == |m0| && 2 <= b < 28
    requires !ContextStartsFill(m0, a)
    requires r == LoadedSlots(r0, ContextWord(m0, a, 0), SlotWords(m0, m0, a), b)
    requires SlotLoaded(ContextWord(m0, a, 0), a, b, r, m0, r', m')
    ensures m' == m0 && r' == LoadedSlots(r0, ContextWord(m0, a, 0), SlotWords(m0, m0, a), b + 1)
  {
    var mask := ContextWord(m0, a, 0);
    if Bit(mask, b) {
      SlotQuiet(m0, m0, a, b);
    }
    assert SlotWords(m0, m0, a)[b] == ContextWord(m0, a, b);
  }

  /** One call of `mach64_blit`: the host data handed on and its bit count (-1 for none). */
  datatype HostFeed = HostFeed(cpu: bv32, count: int)

  class Engine {
    /** The drawing-engine registers. */
    var regs: RegFile
    /** The working state of the current operation (`mach64->accel`). */
    var accel: Accel
    /** The unpacked 8x8 monochrome pattern, `pattern[row, column]`. */
    const pattern: array2<bool>
    /** Video memory. */
    const vram: array<bv8>
    /** The 4 KB blocks of video memory marked as changed (`changedvram`). */
    var changed: set<int>
    /** CRTC_GEN_CNTL, whose pixel depth picks the 24-bit line walker. */
    var crtcGenCntl: bv32
    /** The banks the two 32 KB halves of the A0000 window read from (`bank_r`). */
    const bankR: array<int>
    /** The banks the two halves write to (`bank_w`). */
    const bankW: array<int>
    /** The SVGA core's `decode_mask` and `vram_max`, which the linear aperture honours. */
    var decodeMask: bv32
    var vramMax: int
    /** Every call of `mach64_blit` so far, in order. */
    ghost var feeds: seq<HostFeed>

    ghost predicate Valid()
      reads this
    {
      Full(regs) && pattern.Length0 == 8 && pattern.Length1 == 8 && P.Shape(vram.Length)
    }

    /** The `WRITE` macro: store `v`, cut to the pixel size, at pixel address `a`, and mark its block. */
    method PutPixel(a: int, size: int, lsb: bool, v: bv32)
      requires P.Shape(vram.Length)
      modifies vram, this`changed
      ensures vram[..] == P.WritePixel(old(vram[..]), a, size, lsb, v)
      ensures changed == old(changed) + {P.Block(a, size, vram.Length)}
    {
      if size == 0 {
        PutByte(a, size, lsb, v);
      } else if size == 1 {
        PutHalf(a, size, lsb, v);
      } else if size == 2 {
        PutWord(a, size, lsb, v);
      } else {
        PutBit(a, size, lsb, v);
      }
      changed := changed + {P.Base(a, size, vram.Length) / 4096};
    }

    method PutByte(a: int, size: int, lsb: bool, v: bv32)
      requires P.Shape(vram.Length) && size == 0
      modifies vram
      ensures vram[..] == P.WritePixel(old(vram[..]), a, size, lsb, v)
    {
      vram[P.Base(a, size, vram.Length)] := GetLane(0, v);
    }

    method PutHalf(a: int, size: int, lsb: bool, v: bv32)
      requires P.Shape(vram.Length) && size == 1
      modifies vram
      ensures vram[..] == P.WritePixel(old(vram[..]), a, size, lsb, v)
    {
      var i := P.Base(a, size, vram.Length);
      vram[i] := GetLane(0, v);
      vram[i + 1] := GetLane(1, v);
    }

    method PutWord(a: int, size: int, lsb: bool, v: bv32)
      requires P.Shape(vram.Length) && size == 2
      modifies vram
      ensures vram[..] == P.WritePixel(old(vram[..]), a, size, lsb, v)
    {
      var i := P.Base(a, size, vram.Length);
      vram[i] := GetLane(0, v);
      vram[i + 1] := GetLane(1, v);
      vram[i + 2] := GetLane(2, v);
      vram[i + 3] := GetLane(3, v);
    }

    method PutBit(a: int, size: int, lsb: bool, v: bv32)
      requires P.Shape(vram.Length) && size != 0 && size != 1 && size != 2
      modifies vram
      ensures vram[..] == P.WritePixel(old(vram[..]), a, size, lsb, v)
    {
      var i := P.Base(a, size, vram.Length);
      vram[i] := P.SetBit(vram[i], P.BitPos(a, lsb), v & 1 != 0);
    }

    /** The drawing part of one rectangle pixel (after its selector is known). */
    method DrawRect(mix: bool, hostDat: bv32)
      requires Valid()
      modifies this`accel, vram, this`changed
      ensures Valid()
      ensures var e := RectEffect(old(accel.s), old(accel.w), regs, old(vram[..]), mix, hostDat);
              accel == old(accel).(w := old(accel.w).(polyDraw := e.polyDraw))
              && vram[..] == e.mem && changed == old(changed) + e.marked
    ensures KeepsOutside(old(accel.s), old(vram[..]), vram[..])
    {
      var s, w := accel.s, accel.w;
      RectEffectOutside(s, w, regs, vram[..], mix, hostDat);
      var x, y, lsb, rot := RectX(s, w), RectY(s, w), LsbFirst(regs), Rot(regs);
      if InScissor(s, x, y) {
        var srcPix := P.ReadPixel(vram[..], RectSrcAddr(s, w, regs[SrcCntl]), s.srcSize, lsb);
        var src := Source(s, Sel(s, mix), hostDat, srcPix, rot, w.xxCount, x, y, regs[PatCntl], true);
        var poly := regs[DstCntl] & DstPolygonEn != 0;
        if poly && srcPix != 0 {
          accel := accel.(w := w.(polyDraw := !w.polyDraw));
        }
        if !poly || accel.w.polyDraw {
          var a := DstAddr(s, x, y);
          var dst := P.ReadPixel(vram[..], a, s.dstSize, lsb);
          PutPixel(a, s.dstSize, lsb, RectValue(s, mix, src, dst, rot, w.xxCount));
        }
      }
    }

    /**
     * One rectangle pixel: the host data it takes, its monochrome selector
     * (a host bit, a pattern bit, 1, a 1-bit source pixel or the previous
     * selector) and its drawing. The walk does not move.
     */
    method RectPixel(cpu: bv32, count: int, mix: bool) returns (cpu': bv32, count': int, mix': bool)
      requires Valid()
      modifies this`accel, vram, this`changed
      ensures Valid()
      ensures var s, w, lsb, rot := old(accel.s), old(accel.w), LsbFirst(regs), Rot(regs);
              var f := Consume(s.sourceHost, s.hostSize, cpu, count);
              var p := RectMono(s.sourceMix, mix, f.cpu, lsb, rot, w.xxCount,
                                pattern[RectY(s, w) % 8, PatCol(RectX(s, w), rot)],
                                MonoBit(old(vram[..]), MonoAddr(s, w, regs[SrcCntl]), lsb));
              var e := RectEffect(s, w, regs, old(vram[..]), p.mix, f.hostDat);
              cpu' == p.cpu && count' == f.count && mix' == p.mix
              && accel == old(accel).(w := w.(polyDraw := e.polyDraw))
              && vram[..] == e.mem && changed == old(changed) + e.marked
      ensures KeepsOutside(old(accel.s), old(vram[..]), vram[..])
    {
      var s, w, lsb, rot := accel.s, accel.w, LsbFirst(regs), Rot(regs);
      var f := Consume(s.sourceHost, s.hostSize, cpu, count);
      var p := RectMono(s.sourceMix, mix, f.cpu, lsb, rot, w.xxCount,
                        pattern[RectY(s, w) % 8, PatCol(RectX(s, w), rot)],
                        MonoBit(vram[..], MonoAddr(s, w, regs[SrcCntl]), lsb));
      cpu', count', mix' := p.cpu, f.count, p.mix;
      DrawRect(p.mix, f.hostDat);
    }

    /**
     * One step of the rectangle walker: the pixel, then the advance to the
     * next one. Only the walk, memory and the marked blocks change.
     */
    method RectVisit(cpu: bv32, count: int, mix: bool, srcCntl: bv32, srcYX: bv32, srcYXStart: bv32)
      returns (cpu': bv32, count': int, mix': bool)
      requires Valid()
      modifies this`accel, vram, this`changed
      ensures Valid() && accel.op == old(accel.op) && accel.s == old(accel.s)
      ensures Strip(accel.w) == Strip(RectAdvance(old(accel.s), old(accel.w), srcCntl, srcYX, srcYXStart))
      ensures Total(old(accel.s), old(accel.w)) == 1 ==> !accel.w.busy
      ensures Total(old(accel.s), old(accel.w)) > 1 ==>
                accel.w.busy == old(accel.w.busy) && Total(old(accel.s), accel.w) == Total(old(accel.s), old(accel.w)) - 1
      ensures KeepsOutside(old(accel.s), old(vram[..]), vram[..])
      ensures Plain(old(accel.s), regs) ==> count' == count - 1
      ensures count' == count - PixelBits(old(accel.s))
    {
      var s, w := accel.s, accel.w;
      ConsumeCounts(s.hostSize, cpu, count);
      cpu', count', mix' := RectPixel(cpu, count, mix);
      var v := accel.w;
      RectProgress(s, v, srcCntl, srcYX, srcYXStart);
      AdvanceIgnoresPoly(s, v, w, srcCntl, srcYX, srcYXStart);
      TotalIgnoresPoly(s, v);
      TotalIgnoresPoly(s, w);
      accel := accel.(w := RectAdvance(s, v, srcCntl, srcYX, srcYXStart));
    }

    /**
     * The rectangle walker of `mach64_blit`: pixels are drawn and the walk
     * advanced until `count` runs out or the fill finishes; a finished fill
     * tiles DST_Y_X. Returns the number of pixels visited.
     */
    method BlitRect(cpu: bv32, count: int) returns (ghost steps: nat)
      requires Valid() && accel.op == Rect && accel.w.busy
      modifies this`accel, this`regs, vram, this`changed
      ensures Valid() && accel.op == Rect && accel.s == old(accel.s)
      ensures Strip(accel.w) == Strip(RectRun(old(accel.s), old(accel.w), regs[SrcCntl], regs[SrcYX], regs[SrcYXStart], steps))
      ensures steps <= Total(old(accel.s), old(accel.w))
      ensures !accel.w.busy <==> steps == Total(old(accel.s), old(accel.w))
      ensures accel.w.busy ==> regs == old(regs)
      ensures !accel.w.busy ==> regs == Tiled(old(regs), old(accel.s))
      ensures KeepsOutside(old(accel.s), old(vram[..]), vram[..])
      ensures Plain(old(accel.s), old(regs)) && count >= 0 ==> steps == Min(count, Total(old(accel.s), old(accel.w)))
      ensures Plain(old(accel.s), old(regs)) && count < 0 ==> steps == Total(old(accel.s), old(accel.w))
      ensures RectBlitted(old(accel.s), old(accel.w), old(regs), accel.w, regs, count, steps)
    {
      steps := RectLoop(cpu, count);
      RectCountsLeftAll(accel.s, old(accel.w.xCount), HostAligned(accel.s, regs), count, steps);
      if !accel.w.busy {
        regs := Tiled(regs, accel.s);
      }
    }

    /** The pixel loop of the rectangle walker. */
    method RectLoop(cpu: bv32, count: int) returns (ghost steps: nat)
      requires Valid() && accel.op == Rect && accel.w.busy
      modifies this`accel, vram, this`changed
      ensures Valid() && accel.op == Rect && accel.s == old(accel.s)
      ensures Strip(accel.w) == Strip(RectRun(old(accel.s), old(accel.w), regs[SrcCntl], regs[SrcYX], regs[SrcYXStart], steps))
      ensures steps <= Total(old(accel.s), old(accel.w))
      ensures !accel.w.busy <==> steps == Total(old(accel.s), old(accel.w))
      ensures KeepsOutside(old(accel.s), old(vram[..]), vram[..])
      ensures Plain(old(accel.s), regs) && count >= 0 ==> steps == Min(count, Total(old(accel.s), old(accel.w)))
      ensures Plain(old(accel.s), regs) && count < 0 ==> steps == Total(old(accel.s), old(accel.w))
      ensures RectCountsLeft(old(accel.s), old(accel.w.xCount), HostAligned(old(accel.s), regs), count, steps)
      ensures accel.w.busy ==> RectCount(old(accel.s), old(accel.w.xCount), HostAligned(old(accel.s), regs), count, steps) == 0
    {
      var s := accel.s;
      ghost var w0, m0 := accel.w, vram[..];
      var srcCntl, srcYX, srcYXStart := regs[SrcCntl], regs[SrcYX], regs[SrcYXStart];
      var align := HostAligned(s, regs);
      var c, n, mix := cpu, count, false;
      steps := 0;
      KeepsOutsideRefl(s, m0);
      while n != 0 && accel.w.busy
        invariant Valid() && accel.op == Rect && accel.s == s
        invariant Strip(accel.w) == Strip(RectRun(s, w0, srcCntl, srcYX, srcYXStart, steps))
        invariant steps <= Total(s, w0) && (!accel.w.busy <==> steps == Total(s, w0))
        invariant accel.w.busy ==> Total(s, accel.w) == Total(s, w0) - steps
        invariant KeepsOutside(s, m0, vram[..])
        invariant accel.w.busy ==> n == RectCount(s, w0.xCount, align, count, steps)
        invariant RectCountsLeft(s, w0.xCount, align, count, steps)
        decreases Total(s, w0) - steps
      {
        ghost var m1 := vram[..];
        ghost var w := accel.w;
        var x0 := accel.w.xCount;
        RectRunX(s, w0, srcCntl, srcYX, srcYXStart, steps);
        assert x0 == Strip(w).xCount;
        RectCountNext(s, w0.xCount, align, count, steps, n);
        c, n, mix := RectVisit(c, n, mix, srcCntl, srcYX, srcYXStart);
        KeepsOutsideTrans(s, m0, m1, vram[..]);
        RectRunStep(s, w0, srcCntl, srcYX, srcYXStart, steps, w);
        steps := steps + 1;
        if accel.w.busy && x0 <= 1 && align {
          var f := HostAlign(LsbFirst(regs), c, n);
          c, n := f.cpu, f.count;
        }
      }
      RectSteps(s, w0.xCount, align, count, steps, Total(s, w0), accel.w.busy);
    }

    /** One pixel of a line other than at 24 bits: host data, monochrome selector and drawing. The walk does not move. */
    method LinePixel(cpu: bv32, count: int) returns (cpu': bv32, count': int)
      requires Valid()
      modifies vram, this`changed
      ensures var s, w := accel.s, accel.w;
              var f := Consume(s.sourceHost, s.hostSize, cpu, count);
              var p := LineMono(s.sourceMix, f.cpu, pattern[w.dstY % 8, w.dstX % 8]);
              var e := LineEffect(s, w, regs, old(vram[..]), p.mix, f.hostDat);
              cpu' == p.cpu && count' == f.count && vram[..] == e.mem && changed == old(changed) + e.marked
      ensures KeepsOutside(accel.s, old(vram[..]), vram[..])
    {
      var s, w, lsb := accel.s, accel.w, LsbFirst(regs);
      var f := Consume(s.sourceHost, s.hostSize, cpu, count);
      var p := LineMono(s.sourceMix, f.cpu, pattern[w.dstY % 8, w.dstX % 8]);
      cpu', count' := p.cpu, f.count;
      LineEffectOutside(s, w, regs, vram[..], p.mix, f.hostDat);
      if InScissor(s, w.dstX, w.dstY) && LineDraws(w, Octant(regs), Inc(regs), Dec(regs)) {
        var srcPix := P.ReadPixel(vram[..], LineSrcAddr(s, w), s.srcSize, lsb);
        var src := Source(s, Sel(s, p.mix), f.hostDat, srcPix, false, 0, w.dstX, w.dstY, regs[PatCntl], false);
        var a := DstAddr(s, w.dstX, w.dstY);
        var dst := P.ReadPixel(vram[..], a, s.dstSize, lsb);
        PutPixel(a, s.dstSize, lsb, LineValue(s, p.mix, src, dst));
      }
    }

    /**
     * The line walker of `mach64_blit` (other than at 24 bits): pixels are
     * drawn and the Bresenham walk stepped until `count` runs out or the
     * line's `x_count` pixels are done. Returns the number of pixels
     * visited.
     */
    method BlitLine(cpu: bv32, count: int) returns (ghost steps: nat)
      requires Valid() && accel.op == Line && accel.w.busy
      modifies this`accel, vram, this`changed
      ensures Valid() && accel.op == Line && accel.s == old(accel.s)
      ensures accel.w == LineRun(old(accel.w), Octant(regs), Inc(regs), Dec(regs), steps)
      ensures steps <= AtLeast1(old(accel.w.xCount))
      ensures !accel.w.busy <==> steps == AtLeast1(old(accel.w.xCount))
      ensures KeepsOutside(accel.s, old(vram[..]), vram[..])
      ensures !accel.s.sourceHost && count >= 0 ==> steps == Min(count, AtLeast1(old(accel.w.xCount)))
      ensures !accel.s.sourceHost && count < 0 ==> steps == AtLeast1(old(accel.w.xCount))
      ensures LineBlitted(accel.s, old(accel.w), Octant(regs), Inc(regs), Dec(regs), accel.w, count, steps)
    {
      var s := accel.s;
      ghost var w0, m0 := accel.w, vram[..];
      var o, inc, dec := Octant(regs), Inc(regs), Dec(regs);
      var c, n := cpu, count;
      steps := 0;
      KeepsOutsideRefl(s, m0);
      while n != 0 && accel.w.busy
        invariant Valid() && accel.op == Line && accel.s == s
        invariant accel.w == LineRun(w0, o, inc, dec, steps)
        invariant steps <= AtLeast1(w0.xCount) && (!accel.w.busy <==> steps == AtLeast1(w0.xCount))
        invariant accel.w.busy ==> accel.w.xCount == w0.xCount - steps
        invariant KeepsOutside(s, m0, vram[..])
        invariant LineCounted(s, false, count, steps) && (accel.w.busy ==> n == CountLeft(s, count, steps))
        decreases AtLeast1(w0.xCount) - steps
      {
        ghost var m1 := vram[..];
        LineCountedNext(s, count, steps);
        c, n := LineVisit(c, n, o, inc, dec);
        KeepsOutsideTrans(s, m0, m1, vram[..]);
        assert n == CountLeft(s, count, steps + 1);
        steps := steps + 1;
      }
      CallSteps(s, count, steps, AtLeast1(w0.xCount), accel.w.busy);
    }

    /** One step of the line walker: the pixel, then the Bresenham step. */
    method LineVisit(cpu: bv32, count: int, o: bv32, inc: bv32, dec: bv32) returns (cpu': bv32, count': int)
      requires Valid() && o == Octant(regs) && inc == Inc(regs) && dec == Dec(regs)
      modifies this`accel, vram, this`changed
      ensures Valid() && accel.op == old(accel.op) && accel.s == old(accel.s)
      ensures accel.w == LineStep(old(accel.w), o, inc, dec)
      ensures old(accel.w.xCount) > 1 ==> accel.w.xCount == old(accel.w.xCount) - 1 && accel.w.busy == old(accel.w.busy)
      ensures old(accel.w.xCount) <= 1 ==> !accel.w.busy
      ensures KeepsOutside(accel.s, old(vram[..]), vram[..])
      ensures !accel.s.sourceHost ==> count' == count - 1
      ensures count' == count - PixelBits(accel.s)
    {
      ConsumeCounts(accel.s.hostSize, cpu, count);
      cpu', count' := LinePixel(cpu, count);
      var w := accel.w;
      if w.xCount > 1 {
        LineStepMoves(w, o, inc, dec);
      } else {
        LineEnds(w, o, inc, dec);
      }
      accel := accel.(w := LineStep(w, o, inc, dec));
    }

    /** Pixel `x` of a 24-bit line: host data, monochrome selector and drawing. The walk does not move. */
    method Line24Pixel(cpu: bv32, count: int, x: int) returns (cpu': bv32, count': int)
      requires Valid()
      modifies vram, this`changed
      ensures var s, w, lsb := accel.s, accel.w, LsbFirst(regs);
              var f := Consume(s.sourceHost, s.hostSize, cpu, count);
              var p := RectMono(s.sourceMix, false, f.cpu, lsb, false, 0, pattern[w.dstY % 8, w.dstX % 8],
                                MonoBit(old(vram[..]), LineSrcAddr(s, w), lsb));
              var e := Line24Effect(s, w, regs, old(vram[..]), p.mix, f.hostDat, x);
              cpu' == p.cpu && count' == f.count && vram[..] == e.mem && changed == old(changed) + e.marked
      ensures KeepsOutside(accel.s, old(vram[..]), vram[..])
    {
      var s, w, lsb := accel.s, accel.w, LsbFirst(regs);
      var f := Consume(s.sourceHost, s.hostSize, cpu, count);
      var p := RectMono(s.sourceMix, false, f.cpu, lsb, false, 0, pattern[w.dstY % 8, w.dstX % 8],
                        MonoBit(vram[..], LineSrcAddr(s, w), lsb));
      cpu', count' := p.cpu, f.count;
      Line24EffectOutside(s, w, regs, vram[..], p.mix, f.hostDat, x);
      if InScissor(s, w.dstX, w.dstY) {
        var srcPix := P.ReadPixel(vram[..], LineSrcAddr(s, w), s.srcSize, lsb);
        var src := Source(s, Sel(s, p.mix), f.hostDat, srcPix, false, 0, w.dstX, w.dstY, regs[PatCntl], true);
        var a := DstAddr(s, w.dstX, w.dstY);
        var dst := P.ReadPixel(vram[..], a, s.dstSize, lsb);
        PutPixel(a, s.dstSize, lsb, Line24Value(LineValue(s, p.mix, src, dst), x, w.xCount, YMajor(regs)));
      }
    }

    /**
     * The 24-bit line walker of `mach64_blit`: pixel `x` (counted from 0 on
     * every call) is drawn, and the line finishes once `x` reaches
     * `x_count`, else the walk steps. Returns the number of pixels visited.
     */
    method BlitLine24(cpu: bv32, count: int) returns (ghost steps: nat)
      requires Valid() && accel.op == Line && accel.w.busy
      modifies this`accel, vram, this`changed
      ensures Valid() && accel.op == Line && accel.s == old(accel.s)
      ensures accel.w.busy ==> accel.w == Line24Run(accel.s, old(accel.w), YMajor(regs), Inc(regs), Dec(regs), steps)
      ensures !accel.w.busy ==> steps >= 1 && accel.w == Line24Run(accel.s, old(accel.w), YMajor(regs), Inc(regs), Dec(regs), steps - 1).(busy := false)
      ensures steps <= AtLeast1(old(accel.w.xCount))
      ensures !accel.w.busy <==> steps == AtLeast1(old(accel.w.xCount))
      ensures KeepsOutside(accel.s, old(vram[..]), vram[..])
      ensures !accel.s.sourceHost && count >= 0 ==> steps == Min(count, AtLeast1(old(accel.w.xCount)))
      ensures !accel.s.sourceHost && count < 0 ==> steps == AtLeast1(old(accel.w.xCount))
      ensures Line24Blitted(accel.s, old(accel.w), YMajor(regs), Inc(regs), Dec(regs), accel.w, count, steps)
    {
      var s := accel.s;
      ghost var w0, m0 := accel.w, vram[..];
      var yMajor, inc, dec := YMajor(regs), Inc(regs), Dec(regs);
      var c, n, x := cpu, count, 0;
      steps := 0;
      KeepsOutsideRefl(s, m0);
      while n != 0 && accel.w.busy
        invariant Valid() && accel.op == Line && accel.s == s
        invariant x == steps && accel.w.xCount == w0.xCount
        invariant accel.w.busy ==> accel.w == Line24Run(s, w0, yMajor, inc, dec, steps)
        invariant !accel.w.busy ==> steps >= 1 && accel.w == Line24Run(s, w0, yMajor, inc, dec, steps - 1).(busy := false)
        invariant steps <= AtLeast1(w0.xCount) && (!accel.w.busy <==> steps == AtLeast1(w0.xCount))
        invariant KeepsOutside(s, m0, vram[..])
        invariant LineCounted(s, false, count, steps) && (accel.w.busy ==> n == CountLeft(s, count, steps))
        decreases AtLeast1(w0.xCount) - steps
      {
        ghost var m1 := vram[..];
        LineCountedNext(s, count, steps);
        c, n := Line24Visit(c, n, x, yMajor, inc, dec);
        KeepsOutsideTrans(s, m0, m1, vram[..]);
        assert n == CountLeft(s, count, steps + 1);
        x := x + 1;
        steps := steps + 1;
      }
      CallSteps(s, count, steps, AtLeast1(w0.xCount), accel.w.busy);
    }

    /** One step of the 24-bit line walker: pixel `x`, then the finish or the step. */
    method Line24Visit(cpu: bv32, count: int, x: int, yMajor: bool, inc: bv32, dec: bv32) returns (cpu': bv32, count': int)
      requires Valid() && yMajor == YMajor(regs) && inc == Inc(regs) && dec == Dec(regs)
      modifies this`accel, vram, this`changed
      ensures Valid() && accel.op == old(accel.op) && accel.s == old(accel.s)
      ensures x + 1 >= old(accel.w.xCount) ==> accel.w == old(accel.w).(busy := false)
      ensures x + 1 < old(accel.w.xCount) ==>
                accel.w == Line24Step(accel.s, old(accel.w), yMajor, inc, dec)
                && accel.w.xCount == old(accel.w.xCount) && accel.w.busy == old(accel.w.busy)
      ensures KeepsOutside(accel.s, old(vram[..]), vram[..])
      ensures !accel.s.sourceHost ==> count' == count - 1
      ensures count' == count - PixelBits(accel.s)
    {
      ConsumeCounts(accel.s.hostSize, cpu, count);
      cpu', count' := Line24Pixel(cpu, count, x);
      if x + 1 >= accel.w.xCount {
        accel := accel.(w := accel.w.(busy := false));
      } else {
        accel := accel.(w := Line24Step(accel.s, accel.w, yMajor, inc, dec));
      }
    }

    /**
     * `mach64_blit`: nothing unless the engine is busy; otherwise the
     * rectangle walker, or for a line the 24-bit walker when CRTC_GEN_CNTL
     * selects 24 bits per pixel, else the line walker.
     */
    method Blit(cpu: bv32, count: int) returns (ghost steps: nat)
      requires Valid()
      modifies this`accel, this`regs, vram, this`changed, this`feeds
      ensures Valid() && accel.op == old(accel.op) && accel.s == old(accel.s)
      ensures feeds == old(feeds) + [HostFeed(cpu, count)]
      ensures !old(accel.w.busy) ==> steps == 0 && accel == old(accel) && regs == old(regs) && vram[..] == old(vram[..]) && changed == old(changed)
      ensures accel.op == Line ==> regs == old(regs)
      ensures regs == old(regs) || regs == Tiled(old(regs), old(accel.s))
      ensures AgreeBeyondDstYX(regs, old(regs))
      ensures old(accel.w.busy) && Plain(old(accel.s), old(regs)) && count < 0 ==> !accel.w.busy
      ensures KeepsOutside(accel.s, old(vram[..]), vram[..])
      ensures old(accel.w.busy) && accel.op == Rect ==> RectBlitted(old(accel.s), old(accel.w), old(regs), accel.w, regs, count, steps)
      ensures old(accel.w.busy) && accel.op == Line && Bpp24(crtcGenCntl) ==>
                Line24Blitted(accel.s, old(accel.w), YMajor(regs), Inc(regs), Dec(regs), accel.w, count, steps)
      ensures old(accel.w.busy) && accel.op == Line && !Bpp24(crtcGenCntl) ==>
                LineBlitted(accel.s, old(accel.w), Octant(regs), Inc(regs), Dec(regs), accel.w, count, steps)
      ensures old(accel.w.busy) && accel.op == Rect && Plain(old(accel.s), old(regs)) && count >= 0 ==>
                steps == Min(count, Total(old(accel.s), old(accel.w)))
      ensures old(accel.w.busy) && accel.op == Line && !accel.s.sourceHost && count >= 0 ==>
                steps == Min(count, AtLeast1(old(accel.w.xCount)))
    {
      feeds := feeds + [HostFeed(cpu, count)];
      if !accel.w.busy {
        return 0;
      }
      if accel.op == Rect {
        steps := BlitRect(cpu, count);
      } else if Bpp24(crtcGenCntl) {
        steps := BlitLine24(cpu, count);
      } else {
        steps := BlitLine(cpu, count);
      }
    }

    /**
     * What a rectangle walk of `steps` pixels leaves: the walk is `RectRun`,
     * it finishes exactly after `Total` pixels, and DST_Y_X is tiled exactly
     * when it finishes.
     */
    ghost predicate RectBlitted(s: Setup, w0: Walk, r0: RegFile, w: Walk, r: RegFile, count: int, steps: nat)
      requires Full(r0) && Full(r)
    {
      Strip(w) == Strip(RectRun(s, w0, r[SrcCntl], r[SrcYX], r[SrcYXStart], steps))
      && steps <= Total(s, w0)
      && (!w.busy <==> steps == Total(s, w0))
      && (w.busy ==> r == r0)
      && (!w.busy ==> r == Tiled(r0, s))
      && RectCounted(s, w0, r0, w.busy, count, steps)
    }

    /**
     * What a line walk of `steps` pixels leaves: `LineRun`, finishing
     * exactly after `x_count` pixels, and stopping early only where the
     * host count is used up.
     */
    ghost predicate LineBlitted(s: Setup, w0: Walk, o: bv32, inc: bv32, dec: bv32, w: Walk, count: int, steps: nat)
    {
      w == LineRun(w0, o, inc, dec, steps) && steps <= AtLeast1(w0.xCount) && (!w.busy <==> steps == AtLeast1(w0.xCount))
      && LineCounted(s, w.busy, count, steps)
    }

    /** What a 24-bit line walk of `steps` pixels leaves: `Line24Run`, finishing exactly after `x_count` pixels, counted as a line. */
    ghost predicate Line24Blitted(s: Setup, w0: Walk, yMajor: bool, inc: bv32, dec: bv32, w: Walk, count: int, steps: nat)
    {
      (w.busy ==> w == Line24Run(s, w0, yMajor, inc, dec, steps))
      && (!w.busy ==> steps >= 1 && w == Line24Run(s, w0, yMajor, inc, dec, steps - 1).(busy := false))
      && steps <= AtLeast1(w0.xCount) && (!w.busy <==> steps == AtLeast1(w0.xCount))
      && LineCounted(s, w.busy, count, steps)
    }

    /** Whether the monochrome pattern holds PAT_REG0/PAT_REG1 unpacked: row `y`, column `x` is bit `7 - x` of the row. */
    ghost predicate PatternLoaded(r0: bv32, r1: bv32)
      requires pattern.Length0 == 8 && pattern.Length1 == 8
      reads pattern
    {
      forall y, x | 0 <= y < 8 && 0 <= x < 8 :: pattern[y, x] == PatternBit(r0, r1, y, 7 - x)
    }

    /** The loop of `mach64_start_fill` and `mach64_start_line` that unpacks the monochrome pattern. */
    method UnpackPattern()
      requires Valid()
      modifies pattern
      ensures PatternLoaded(regs[PatReg0], regs[PatReg1])
    {
      var r0, r1 := regs[PatReg0], regs[PatReg1];
      var y := 0;
      while y < 8
        invariant 0 <= y <= 8
        invariant forall j, i | 0 <= j < y && 0 <= i < 8 :: pattern[j, i] == PatternBit(r0, r1, j, 7 - i)
      {
        var t := if y >= 4 then r1 else r0;
        var x := 0;
        while x < 8
          invariant 0 <= x <= 8
          invariant forall j, i | 0 <= j < y && 0 <= i < 8 :: pattern[j, i] == PatternBit(r0, r1, j, 7 - i)
          invariant forall i | 8 - x <= i < 8 :: pattern[y, i] == PatternBit(r0, r1, y, 7 - i)
        {
          pattern[y, 7 - x] := Bit(t, x + 8 * (y % 4));
          x := x + 1;
        }
        y := y + 1;
      }
    }

    /** `mach64_start_fill`: set up a rectangle from the registers, unpacking the pattern under PAT_CNTL bit 0. */
    method StartFill()
      requires Valid()
      modifies this`accel, pattern
      ensures Valid() && accel == FillAccel(old(accel), regs)
      ensures regs[PatCntl] & 1 != 0 ==> PatternLoaded(regs[PatReg0], regs[PatReg1])
      ensures regs[PatCntl] & 1 == 0 ==> unchanged(pattern)
    {
      accel := FillAccel(accel, regs);
      if regs[PatCntl] & 1 != 0 {
        UnpackPattern();
      }
    }

    /** `mach64_start_line`: set up a line from the registers, unpacking the pattern under PAT_CNTL bit 0. */
    method StartLine()
      requires Valid()
      modifies this`accel, pattern
      ensures Valid() && accel == LineAccel(old(accel), regs)
      ensures regs[PatCntl] & 1 != 0 ==> PatternLoaded(regs[PatReg0], regs[PatReg1])
      ensures regs[PatCntl] & 1 == 0 ==> unchanged(pattern)
    {
      accel := LineAccel(accel, regs);
      if regs[PatCntl] & 1 != 0 {
        UnpackPattern();
      }
    }

    /**
     * The fill a byte write starts: set up, then drawn at once with
     * `mach64_blit(0, -1)` when it has a width, a height and no host source.
     */
    method StartedFill()
      requires Valid()
      modifies this`regs, this`accel, vram, this`changed, pattern, this`feeds
      ensures Valid() && KeepsOutside(accel.s, old(vram[..]), vram[..])
      ensures Filled(old(accel), old(regs), old(vram[..]), accel, regs, vram[..])
      ensures AgreeBeyondDstYX(regs, old(regs))
    {
      StartFill();
      if FillBlits(regs) {
        NoHostSourcePlain(old(accel), regs);
        ghost var k := Blit(0, -1);
      } else {
        KeepsOutsideRefl(accel.s, vram[..]);
      }
    }

    /**
     * The line a byte write starts: set up, then drawn at once with
     * `mach64_blit(0, -1)` when it has a length and no host source.
     */
    method StartedLine()
      requires Valid()
      modifies this`regs, this`accel, vram, this`changed, pattern, this`feeds
      ensures Valid() && KeepsOutside(accel.s, old(vram[..]), vram[..])
      ensures Lined(old(accel), old(regs), old(vram[..]), accel, regs, vram[..])
      ensures regs == old(regs)
    {
      StartLine();
      if LineBlits(regs) {
        NoHostSourcePlain(old(accel), regs);
        ghost var k := Blit(0, -1);
      } else {
        KeepsOutsideRefl(accel.s, vram[..]);
      }
    }

    /** The register part of a byte write: the byte stored where `o` decodes to. */
    method StoreRegister(o: int, val: bv8)
      requires Valid()
      modifies this`regs
      ensures Valid() && regs == StoreByte(old(regs), o, val)
      ensures regs[ContextLoadCntl] == old(regs[ContextLoadCntl])
      ensures !Dword(o, 0x320) ==> regs[ContextMask] == old(regs[ContextMask])
    {
      StoreByteKeeps(regs, o, val);
      regs := StoreByte(regs, o, val);
    }

    /**
     * `mach64_accel_write_fifo`: a byte at register offset `o`. Host data
     * goes to the engine as 8 bits; anything else is stored, and the top
     * byte of a destination size or line length with bit 7 clear starts a
     * fill (`StartedFill`) or a line (`StartedLine`).
     */
    method WriteByte(o: int, val: bv8)
      requires Valid() && 0 <= o < 0x400
      modifies this`regs, this`accel, vram, this`changed, pattern, this`feeds
      ensures Valid()
      ensures KeepsOutside(accel.s, old(vram[..]), vram[..])
      ensures !Dword(o, 0x320) ==> regs[ContextMask] == old(regs[ContextMask])
      ensures regs[ContextLoadCntl] == old(regs[ContextLoadCntl])
      ensures HostData(o) ==> feeds == old(feeds) + [HostFeed(val as bv32, 8)] && AgreeBeyondDstYX(regs, old(regs))
      ensures !HostData(o) && StartsFill(o, val) ==> AgreeBeyondDstYX(regs, StoreByte(old(regs), o, val))
      ensures !HostData(o) && !StartsFill(o, val) ==> regs == StoreByte(old(regs), o, val)
      ensures !HostData(o) && !StartsFill(o, val) && !StartsLine(o, val) ==>
                accel == old(accel) && vram[..] == old(vram[..]) && changed == old(changed) && feeds == old(feeds)
    {
      if HostData(o) {
        ghost var k := Blit(val as bv32, 8);
      } else {
        RegisterByte(o, val);
      }
    }

    /** A byte write that is not host data: the register stored, and a fill or a line started by the top byte of its size. */
    method RegisterByte(o: int, val: bv8)
      requires Valid() && 0 <= o < 0x400 && !HostData(o)
      modifies this`regs, this`accel, vram, this`changed, pattern, this`feeds
      ensures Valid()
      ensures KeepsOutside(accel.s, old(vram[..]), vram[..])
      ensures !Dword(o, 0x320) ==> regs[ContextMask] == old(regs[ContextMask])
      ensures regs[ContextLoadCntl] == old(regs[ContextLoadCntl])
      ensures StartsFill(o, val) ==> AgreeBeyondDstYX(regs, StoreByte(old(regs), o, val))
      ensures !StartsFill(o, val) ==> regs == StoreByte(old(regs), o, val)
      ensures !StartsFill(o, val) && !StartsLine(o, val) ==>
                accel == old(accel) && vram[..] == old(vram[..]) && changed == old(changed) && feeds == old(feeds)
    {
      StoreRegister(o, val);
      if StartsFill(o, val) {
        StartedFill();
      } else if StartsLine(o, val) {
        StartedLine();
      } else {
        KeepsOutsideRefl(accel.s, vram[..]);
      }
    }

    /**
     * The part of `mach64_accel_write_fifo_w` a dword write reaches: host
     * data goes to the engine as 16 bits, a word at 0x32c replaces the low
     * half of CONTEXT_LOAD_CNTL, and any other word is written as its two
     * bytes, low first.
     */
    method WordStore(o: int, val: Word16)
      requires Valid() && 0 <= o < 0x400 && o - o % 2 != ContextHigh
      modifies this`regs, this`accel, vram, this`changed, pattern, this`feeds
      ensures Valid()
      ensures HostData(o - o % 2) ==> feeds == old(feeds) + [HostFeed(val, 16)] && AgreeBeyondDstYX(regs, old(regs))
      ensures o - o % 2 == ContextLow ==>
                regs == old(regs)[ContextLoadCntl := LowHalf(old(regs[ContextLoadCntl]), val)]
                && accel == old(accel) && vram[..] == old(vram[..]) && changed == old(changed) && feeds == old(feeds)
      ensures PlainWord(o) && WordFills(o, val) ==> AgreeBeyondDstYX(regs, StoreWord(old(regs), o, val))
      ensures PlainWord(o) && !WordFills(o, val) ==> regs == StoreWord(old(regs), o, val)
      ensures PlainWord(o) && !WordStarts(o, val) ==>
                accel == old(accel) && vram[..] == old(vram[..]) && changed == old(changed) && feeds == old(feeds)
      ensures o - o % 2 != ContextLow ==> regs[ContextLoadCntl] == old(regs[ContextLoadCntl])
      ensures !(0x31f <= o <= 0x323) ==> regs[ContextMask] == old(regs[ContextMask])
    {
      var a := o - o % 2;
      if HostData(a) {
        ghost var k := Blit(val, 16);
      } else if a == ContextLow {
        regs := regs[ContextLoadCntl := LowHalf(regs[ContextLoadCntl], val)];
      } else if PlainWord(o) {
        WordBytes(o, val);
      } else {
        // 0x1ff: the high byte is host data
        WriteByte(o, ByteOf(val, 0));
        WriteByte((o + 1) % 0x400, ByteOf(val, 1));
      }
    }

    /** The default case of `mach64_accel_write_fifo_w`: the word's two bytes written, low first. */
    method WordBytes(o: int, val: Word16)
      requires Valid() && 0 <= o < 0x400 && PlainWord(o)
      modifies this`regs, this`accel, vram, this`changed, pattern, this`feeds
      ensures Valid()
      ensures WordFills(o, val) ==> AgreeBeyondDstYX(regs, StoreWord(old(regs), o, val))
      ensures !WordFills(o, val) ==> regs == StoreWord(old(regs), o, val)
      ensures !WordStarts(o, val) ==>
                accel == old(accel) && vram[..] == old(vram[..]) && changed == old(changed) && feeds == old(feeds)
      ensures regs[ContextLoadCntl] == old(regs[ContextLoadCntl])
      ensures !(0x31f <= o <= 0x323) ==> regs[ContextMask] == old(regs[ContextMask])
    {
      var next := (o + 1) % 0x400;
      assert !(0x31f <= o <= 0x323) ==> !Dword(o, 0x320) && !Dword(next, 0x320);
      assert !HostData(o);
      ghost var r0 := regs;
      WriteByte(o, ByteOf(val, 0));
      ghost var r1 := regs;
      WriteByte(next, ByteOf(val, 1));
      TwoBytes(r0, r1, regs, o, val);
    }

    /**
     * `mach64_accel_write_fifo_w`: a word at register offset `o`. At 0x32e
     * it replaces the high half of CONTEXT_LOAD_CNTL and, with the test
     * corrected to look at the register (`HighWordLoads`), loads contexts
     * when a load bit is set; elsewhere as `WordStore`.
     */
    method WriteWord(o: int, val: Word16, fuel: nat)
      requires Valid() && 0 <= o < 0x400
      modifies this`regs, this`accel, vram, this`changed, pattern, this`feeds
      ensures Valid()
      ensures o - o % 2 == ContextHigh && !HighWordLoads(old(regs[ContextLoadCntl]), val) ==>
                regs == old(regs)[ContextLoadCntl := HighHalf(old(regs[ContextLoadCntl]), val)]
                && accel == old(accel) && vram[..] == old(vram[..]) && changed == old(changed)
      ensures o - o % 2 == ContextHigh && HighWordLoads(old(regs[ContextLoadCntl]), val) && fuel == 1 ==>
                ContextLoaded(old(regs)[ContextLoadCntl := HighHalf(old(regs[ContextLoadCntl]), val)], old(vram[..]), vram[..],
                              ContextAddr(HighHalf(old(regs[ContextLoadCntl]), val), vram.Length), regs)
      ensures o - o % 2 == ContextLow ==>
                regs == old(regs)[ContextLoadCntl := LowHalf(old(regs[ContextLoadCntl]), val)]
                && accel == old(accel) && vram[..] == old(vram[..]) && changed == old(changed) && feeds == old(feeds)
      ensures HostData(o - o % 2) ==> feeds == old(feeds) + [HostFeed(val, 16)] && AgreeBeyondDstYX(regs, old(regs))
      ensures PlainWord(o) && WordFills(o, val) ==> AgreeBeyondDstYX(regs, StoreWord(old(regs), o, val))
      ensures PlainWord(o) && !WordFills(o, val) ==> regs == StoreWord(old(regs), o, val)
      ensures PlainWord(o) && !WordStarts(o, val) ==>
                accel == old(accel) && vram[..] == old(vram[..]) && changed == old(changed) && feeds == old(feeds)
    {
      if o - o % 2 == ContextHigh {
        var cntl := regs[ContextLoadCntl];
        regs := regs[ContextLoadCntl := HighHalf(cntl, val)];
        if HighWordLoads(cntl, val) {
          var loads, last, mem, cntl := LoadContext(fuel);
        }
      } else {
        WordStore(o, val);
      }
    }

    /**
     * The part of `mach64_accel_write_fifo_l` other than CONTEXT_LOAD_CNTL:
     * host data goes to the engine as 32 bits, byte-swapped unless the
     * source is host colour data or DP_BYTE_PIX_ORDER is set; any other
     * dword is written as two words, low first.
     */
    method DwordStore(o: int, val: bv32)
      requires Valid() && 0 <= o < 0x400 && o - o % 4 != ContextLow
      modifies this`regs, this`accel, vram, this`changed, pattern, this`feeds
      ensures Valid()
      ensures HostData(o - o % 4) ==>
                feeds == old(feeds) + [HostFeed(if old(accel.s.sourceHost) || LsbFirst(old(regs)) then val else ByteSwap(val), 32)]
                && AgreeBeyondDstYX(regs, old(regs))
      ensures PlainWord(o) && PlainWord((o + 2) % 0x400) && DwordFills(o, val) ==> AgreeBeyondDstYX(regs, StoreDword(old(regs), o, val))
      ensures PlainWord(o) && PlainWord((o + 2) % 0x400) && !DwordFills(o, val) ==> regs == StoreDword(old(regs), o, val)
      ensures PlainWord(o) && PlainWord((o + 2) % 0x400) && !DwordStarts(o, val) ==>
                accel == old(accel) && vram[..] == old(vram[..]) && changed == old(changed) && feeds == old(feeds)
      ensures !(0x31d <= o <= 0x323) ==> regs[ContextMask] == old(regs[ContextMask])
    {
      Halves(o);
      if HostData(o - o % 4) {
        assert !PlainWord(o);
        if accel.s.sourceHost || LsbFirst(regs) {
          ghost var k := Blit(val, 32);
        } else {
          ghost var k := Blit(ByteSwap(val), 32);
        }
      } else if PlainWord(o) && PlainWord((o + 2) % 0x400) {
        DwordWords(o, val);
      } else {
        // a half at 0x32c, or a word at 0x1fe-0x1ff meeting host data
        WordStore(o, Low(val));
        WordStore((o + 2) % 0x400, High(val));
      }
    }

    /** The default case of `mach64_accel_write_fifo_l`: the dword's two words written, low first. */
    method DwordWords(o: int, val: bv32)
      requires Valid() && 0 <= o < 0x400 && PlainWord(o) && PlainWord((o + 2) % 0x400)
      modifies this`regs, this`accel, vram, this`changed, pattern, this`feeds
      ensures Valid()
      ensures DwordFills(o, val) ==> AgreeBeyondDstYX(regs, StoreDword(old(regs), o, val))
      ensures !DwordFills(o, val) ==> regs == StoreDword(old(regs), o, val)
      ensures !DwordStarts(o, val) ==>
                accel == old(accel) && vram[..] == old(vram[..]) && changed == old(changed) && feeds == old(feeds)
      ensures !(0x31d <= o <= 0x323) ==> regs[ContextMask] == old(regs[ContextMask])
    {
      Halves(o);
      var o2 := (o + 2) % 0x400;
      assert !(0x31d <= o <= 0x323) ==> !(0x31f <= o <= 0x323) && !(0x31f <= o2 <= 0x323);
      ghost var r0 := regs;
      WordBytes(o, Low(val));
      ghost var r1 := regs;
      WordBytes((o + 2) % 0x400, High(val));
      TwoWords(r0, r1, regs, o, val);
    }

    /**
     * `mach64_accel_write_fifo_l`: a dword at register offset `o`. At 0x32c
     * it replaces CONTEXT_LOAD_CNTL and loads contexts when a load bit is
     * set; elsewhere as `DwordStore`.
     */
    method WriteDword(o: int, val: bv32, fuel: nat)
      requires Valid() && 0 <= o < 0x400
      modifies this`regs, this`accel, vram, this`changed, pattern, this`feeds
      ensures Valid()
      ensures o - o % 4 == ContextLow && val & ContextLoadBits == 0 ==>
                regs == old(regs)[ContextLoadCntl := val]
                && accel == old(accel) && vram[..] == old(vram[..]) && changed == old(changed) && feeds == old(feeds)
      ensures o - o % 4 == ContextLow && val & ContextLoadBits != 0 && fuel == 1 ==>
                ContextLoaded(old(regs)[ContextLoadCntl := val], old(vram[..]), vram[..], ContextAddr(val, vram.Length), regs)
      ensures HostData(o - o % 4) ==>
                feeds == old(feeds) + [HostFeed(if old(accel.s.sourceHost) || LsbFirst(old(regs)) then val else ByteSwap(val), 32)]
                && AgreeBeyondDstYX(regs, old(regs))
      ensures PlainWord(o) && PlainWord((o + 2) % 0x400) && DwordFills(o, val) ==> AgreeBeyondDstYX(regs, StoreDword(old(regs), o, val))
      ensures PlainWord(o) && PlainWord((o + 2) % 0x400) && !DwordFills(o, val) ==> regs == StoreDword(old(regs), o, val)
      ensures PlainWord(o) && PlainWord((o + 2) % 0x400) && !DwordStarts(o, val) ==>
                accel == old(accel) && vram[..] == old(vram[..]) && changed == old(changed) && feeds == old(feeds)
    {
      if o - o % 4 == ContextLow {
        Halves(o);
        assert !HostData(o - o % 4) && !PlainWord(o);
        LoadCntlWrite(val, fuel);
      } else {
        DwordStore(o, val);
      }
    }

    /** The CONTEXT_LOAD_CNTL case of `mach64_accel_write_fifo_l`: the register replaced, then contexts loaded when a load bit is set. */
    method LoadCntlWrite(val: bv32, fuel: nat)
      requires Valid()
      modifies this`regs, this`accel, vram, this`changed, pattern, this`feeds
      ensures Valid()
      ensures val & ContextLoadBits == 0 ==>
                regs == old(regs)[ContextLoadCntl := val]
                && accel == old(accel) && vram[..] == old(vram[..]) && changed == old(changed) && feeds == old(feeds)
      ensures val & ContextLoadBits != 0 && fuel == 1 ==>
                ContextLoaded(old(regs)[ContextLoadCntl := val], old(vram[..]), vram[..], ContextAddr(val, vram.Length), regs)
    {
      regs := regs[ContextLoadCntl := val];
      if val & ContextLoadBits != 0 {
        var loads, last, mem, cntl := LoadContext(fuel);
      }
    }

    /**
     * `mach64_load_context`: while CONTEXT_LOAD_CNTL has a load bit set,
     * load the context it points at. The loop is bounded by `fuel`; returns
     * the number of contexts loaded.
     */
    method LoadContext(fuel: nat) returns (loaded: nat, ghost lastRegs: RegFile, ghost lastMem: seq<bv8>, ghost lastCntl: bv32)
      requires Valid()
      modifies this`regs, this`accel, vram, this`changed, pattern, this`feeds
      ensures Valid() && loaded <= fuel
      ensures loaded < fuel ==> regs[ContextLoadCntl] & ContextLoadBits == 0
      ensures fuel > 0 && old(regs[ContextLoadCntl]) & ContextLoadBits != 0 ==> loaded > 0
      ensures loaded == 1 ==> lastRegs == old(regs) && lastMem == old(vram[..]) && lastCntl == old(regs[ContextLoadCntl])
      ensures loaded > 0 ==> Full(lastRegs) && |lastMem| == vram.Length && lastCntl & ContextLoadBits != 0
      ensures loaded > 0 ==> ContextLoaded(lastRegs, lastMem, vram[..], ContextAddr(lastCntl, vram.Length), regs)
      ensures old(regs[ContextLoadCntl]) & ContextLoadBits == 0 ==>
                loaded == 0 && regs == old(regs) && accel == old(accel) && vram[..] == old(vram[..]) && changed == old(changed)
    {
      loaded, lastRegs, lastMem, lastCntl := 0, regs, vram[..], regs[ContextLoadCntl];
      while loaded < fuel && regs[ContextLoadCntl] & ContextLoadBits != 0
        invariant Valid() && loaded <= fuel
        invariant loaded == 0 ==> regs == old(regs) && accel == old(accel) && vram[..] == old(vram[..]) && changed == old(changed)
        invariant old(regs[ContextLoadCntl]) & ContextLoadBits == 0 ==> loaded == 0
        invariant loaded == 1 ==> lastRegs == old(regs) && lastMem == old(vram[..]) && lastCntl == old(regs[ContextLoadCntl])
        invariant loaded > 0 ==> Full(lastRegs) && |lastMem| == vram.Length && lastCntl & ContextLoadBits != 0
        invariant loaded > 0 ==> ContextLoaded(lastRegs, lastMem, vram[..], ContextAddr(lastCntl, vram.Length), regs)
        decreases fuel - loaded
      {
        lastRegs, lastMem, lastCntl := regs, vram[..], regs[ContextLoadCntl];
        LoadOne();
        loaded := loaded + 1;
      }
    }

    /**
     * One pass of `mach64_load_context`: CONTEXT_MASK from the first dword
     * of the context, each register whose mask bit (2-27) is set written as
     * a dword from its slot, and then CONTEXT_LOAD_CNTL from dword 28.
     */
    method LoadOne()
      requires Valid()
      modifies this`regs, this`accel, vram, this`changed, pattern, this`feeds
      ensures Valid()
      ensures ContextLoaded(old(regs), old(vram[..]), vram[..], ContextAddr(old(regs[ContextLoadCntl]), vram.Length), regs)
      ensures !ContextStartsFill(old(vram[..]), ContextAddr(old(regs[ContextLoadCntl]), vram.Length)) ==>
                unchanged(this`accel, this`changed, this`feeds)
    {
      var a := ContextAddr(regs[ContextLoadCntl], vram.Length);
      var mask := ContextWord(vram[..], a, 0);
      ghost var r, m0 := regs, vram[..];
      regs := regs[ContextMask := mask];
      LoadSlots(a, m0, regs);
      StoreLoadCntl(a, r, m0);
    }

    /** The last step of `mach64_load_context`: CONTEXT_LOAD_CNTL from dword 28, after the slots of the context at `a` loaded over `r`. */
    method StoreLoadCntl(a: int, ghost r: RegFile, ghost m0: seq<bv8>)
      requires Valid() && Full(r) && |m0| == vram.Length && regs[ContextMask] == ContextWord(m0, a, 0)
      requires SlotsLoaded(r[ContextMask := ContextWord(m0, a, 0)], m0, a, 28, regs, vram[..])
      modifies this`regs
      ensures unchanged(this`accel, this`changed, this`feeds)
      ensures Valid()
      ensures ContextLoaded(r, m0, vram[..], a, regs)
    {
      ghost var r1 := regs;
      regs := regs[ContextLoadCntl := ContextWord(vram[..], a, 28)];
      LoadedContextDone(r, m0, vram[..], a, r1);
    }

    /** The loop of `mach64_load_context` over slots 2-27, from the register file `r0` that already holds CONTEXT_MASK. */
    method LoadSlots(a: int, ghost m0: seq<bv8>, ghost r0: RegFile)
      requires Valid() && m0 == vram[..] && r0 == regs && regs[ContextMask] == ContextWord(m0, a, 0)
      modifies this`regs, this`accel, vram, this`changed, pattern, this`feeds
      ensures Valid() && regs[ContextMask] == old(regs[ContextMask]) && SlotsLoaded(r0, m0, a, 28, regs, vram[..])
      ensures !ContextStartsFill(m0, a) ==> unchanged(this`accel, this`changed, this`feeds)
    {
      ghost var mask := regs[ContextMask];
      var b := 2;
      while b < 28
        invariant Valid() && 2 <= b <= 28 && regs[ContextMask] == mask
        invariant b <= FillSlot ==> vram[..] == m0
        invariant SlotsLoaded(r0, m0, a, b, regs, vram[..])
        invariant !ContextStartsFill(m0, a) ==> unchanged(this`accel, this`changed, this`feeds)
      {
        LoadSlot(a, b, m0, r0);
        b := b + 1;
      }
    }

    /** Slot `b` of the context at `a` in `mach64_load_context`: its register written as a dword from the slot when its mask bit is set. */
    method LoadSlot(a: int, b: int, ghost m0: seq<bv8>, ghost r0: RegFile)
      requires Valid() && 2 <= b < 28 && |m0| == vram.Length && Full(r0)
      requires regs[ContextMask] == ContextWord(m0, a, 0) && (b <= FillSlot ==> vram[..] == m0)
      requires SlotsLoaded(r0, m0, a, b, regs, vram[..])
      modifies this`regs, this`accel, vram, this`changed, pattern, this`feeds
      ensures Valid() && regs[ContextMask] == old(regs[ContextMask]) && (b + 1 <= FillSlot ==> vram[..] == m0)
      ensures SlotsLoaded(r0, m0, a, b + 1, regs, vram[..])
      ensures !ContextStartsFill(m0, a) ==> unchanged(this`accel, this`changed, this`feeds)
    {
      ghost var r, m := regs, vram[..];
      if Bit(regs[ContextMask], b) {
        ContextSlotSafe(b);
        SlotPlain(b, ContextWord(vram[..], a, b));
        if !ContextStartsFill(m0, a) {
          SlotQuiet(m0, vram[..], a, b);
        }
        DwordStore(ContextSlot(b), ContextWord(vram[..], a, b));
      }
      assert SlotLoaded(ContextWord(m0, a, 0), a, b, r, m, regs, vram[..]);
      LoadStep(r0, m0, a, b, r, m, regs, vram[..]);
      if !ContextStartsFill(m0, a) {
        LoadStepExact(r0, m0, a, b, r, regs, vram[..]);
      }
    }

    // ------------------------------------------------------ host memory access

    /** The two bank arrays are distinct and hold two values each of the form `val * 32768` for a byte `val`. */
    ghost predicate Banks()
      reads this, bankR, bankW
    {
      bankR != bankW && bankR.Length == 2 && bankW.Length == 2
      && M.BankValue(bankR[0]) && M.BankValue(bankR[1]) && M.BankValue(bankW[0]) && M.BankValue(bankW[1])
    }

    /**
     * `mach64_ext_readw` at 0xb4 and 0xb6 (the write banks) and 0xb8 and
     * 0xba (the read banks): bank `(o & 2) >> 1` shifted right by 15.
     */
    function BankWord(o: int): (r: int)
      requires Banks() && (o == 0xb4 || o == 0xb6 || o == 0xb8 || o == 0xba)
      reads this, bankR, bankW
      ensures 0 <= r < 256
    {
      var b := if o < 0xb8 then bankW else bankR;
      b[(o % 4) / 2] / 32768
    }

    /**
     * `mach64_ext_readl` at 0xb4 (write banks) and 0xb8 (read banks): both
     * banks shifted right by 15, the second in the high half (below 256
     * each, so the OR is a sum). It is the two word read-backs side by side.
     */
    function BankDword(o: int): (r: int)
      requires Banks() && (o == 0xb4 || o == 0xb8)
      reads this, bankR, bankW
      ensures 0 <= r < 0x1_0000_0000
      ensures r % 65536 == BankWord(o) && r / 65536 == BankWord(o + 2)
    {
      var b := if o == 0xb4 then bankW else bankR;
      b[0] / 32768 + 65536 * (b[1] / 32768)
    }

    /**
     * The bank registers of `mach64_ext_writeb`: 0xb4 sets write bank 0,
     * 0xb5 and 0xb6 write bank 1, 0xb8 read bank 0, 0xb9 and 0xba read
     * bank 1, each to `val * 32768`; the word read-back then gives `val`.
     */
    method SetBank(o: int, val: bv8)
      requires Banks() && (0xb4 <= o <= 0xba && o != 0xb7)
      modifies bankR, bankW
      ensures Banks()
      ensures o < 0xb8 ==> bankW[..] == old(bankW[..])[(o - 0xb4 + 1) / 2 := val as int * 32768] && bankR[..] == old(bankR[..])
      ensures o >= 0xb8 ==> bankR[..] == old(bankR[..])[(o - 0xb8 + 1) / 2 := val as int * 32768] && bankW[..] == old(bankW[..])
      ensures BankWord(if o % 4 == 1 then o + 1 else o) == val as int
    {
      M.BankPage(val as int, 0);
      if o < 0xb8 {
        bankW[(o - 0xb4 + 1) / 2] := val as int * 32768;
      } else {
        bankR[(o - 0xb8 + 1) / 2] := val as int * 32768;
      }
    }

    /** `mach64_read`, `_readw`, `_readl`: the window address mapped through `bank_r`, read as plain memory. */
    function ReadBanked(addr: nat, size: int): bv32
      requires Valid() && Banks() && M.Size(size)
      reads this, vram, bankR, bankW
    {
      M.Load(vram[..], M.BankedIndex(addr, bankR[..], vram.Length), size)
    }

    /** `mach64_write`, `_writew`, `_writel`: the window address mapped through `bank_w`, written as plain memory. */
    method WriteBanked(addr: nat, size: int, val: bv32)
      requires Valid() && Banks() && M.Size(size)
      modifies vram
      ensures vram[..] == M.Store(old(vram[..]), M.BankedIndex(addr, bankW[..], vram.Length), size, val)
    {
      var i := M.BankedIndex(addr, bankW[..], vram.Length);
      Put(i, size, val);
    }

    /** `mach64_read_linear`, `_readw_linear`, `_readl_linear`: all ones past `vram_max`. */
    function ReadLinear(addr: bv32, size: int): (r: bv32)
      requires Valid() && M.Size(size)
      reads this, vram
      ensures (addr & decodeMask) as int >= vramMax ==> r == M.Ones(size)
    {
      M.LinearLoad(vram[..], addr, decodeMask, vramMax, size)
    }

    /**
     * `mach64_write_linear`, `_writew_linear`, `_writel_linear`: dropped
     * past `vram_max`; otherwise the bytes are stored and the 4 KB block of
     * the first one marked as changed.
     */
    method WriteLinear(addr: bv32, size: int, val: bv32)
      requires Valid() && M.Size(size)
      modifies vram, this`changed
      ensures vram[..] == M.LinearStore(old(vram[..]), addr, decodeMask, vramMax, size, val)
      ensures changed == old(changed) + M.LinearMarks(addr, decodeMask, vramMax, vram.Length)
    {
      var r := M.LinearIndex(addr, decodeMask, vramMax, vram.Length);
      if r.Some? {
        Put(r.value, size, val);
        changed := changed + {r.value / 4096};
      }
    }

    /** Store the low `Width(size)` bytes of `val` little-endian from byte `i`. */
    method Put(i: int, size: int, val: bv32)
      requires P.Shape(vram.Length) && 0 <= i < vram.Length && M.Size(size)
      modifies vram
      ensures vram[..] == M.Store(old(vram[..]), i, size, val)
    {
      var n := vram.Length;
      vram[i] := GetLane(0, val);
      if size >= 1 {
        vram[M.Next(i, 1, n)] := GetLane(1, val);
      }
      if size == 2 {
        vram[M.Next(i, 2, n)] := GetLane(2, val);
        vram[M.Next(i, 3, n)] := GetLane(3, val);
      }
    }
  }
}
