/*
 * The CL-GD54xx transfer engines on the engine state: the programmed
 * registers and internal counters (the code's `blt` structure) together
 * with `countminusone`, the flag that says a system-memory transfer is
 * under way (1) or has delivered its last row (2). Each engine is a method
 * on that state value and on video memory; the device in `Gd54xx` keeps
 * the state in a field and calls these.
 */
module Gd54xxEngine {
  import opened Gd54xxOps
  import opened Gd54xxRegs
  import opened Gd54xxVisit
  import opened Gd54xxGeometry
  import opened Gd54xxMemory
  import opened Gd54xxNormal
  import opened Gd54xxSysSrc
  import opened Gd54xxSysDest
  import opened Gd54xxPattern

  /** The engine state; `rejected` records a transfer the code stops with a fatal error. */
  datatype Engine = Engine(regs: Regs, blt: Counters, countMinusOne: int, rejected: bool)
  {
    /** The ranges the code keeps the state in, for a memory of `n` bytes. */
    predicate Ok(n: int)
    {
      Bounded(regs) && blt.Valid(n) && blt.xxCount == 0 && 0 <= countMinusOne <= 2
    }
  }

  /** `gd54xx_reset_blit`: the transfer flag cleared, START, BUSY and FIFO-used cleared. */
  function Stop(e: Engine): (e': Engine)
    ensures e'.countMinusOne == 0 && e'.blt == e.blt && e'.rejected == e.rejected
    ensures e'.regs == e.regs.(status := ClearedStatus(e.regs.status))
    ensures e'.regs.status & (StatusStart | StatusBusy | StatusFifoUsed) == 0
  {
    e.(countMinusOne := 0, regs := e.regs.(status := ClearedStatus(e.regs.status)))
  }

  /** The status after `Stop` or no change: the bits other than START, BUSY and FIFO-used are kept. */
  predicate StatusKept(before: Regs, after: Regs)
  {
    after == before || after == before.(status := ClearedStatus(before.status))
  }

  /** A `gd54xx_mem_sys_src` call that writes a chunk: no conflicting mode bit, not the start call, and a transfer running. */
  predicate SrcChunkCall(e: Engine, count: int)
  {
    e.regs.mode & (ModeMemSysDest | ModePatternCopy) == 0 && count != 0xffff_ffff && e.countMinusOne != 0
  }

  /** A chunk walk from counters `c` moves only the destination, pixel and row counters (and streams to video memory). */
  predicate WalkKeeps(c: Counters, walked: Counters)
  {
    !walked.msIsDest && walked.srcAddrBackup == c.srcAddrBackup
    && walked.heightInternal == c.heightInternal && walked.xxCount == c.xxCount
    && walked.msdBufPos == c.msdBufPos && walked.msdBufCnt == c.msdBufCnt
    && walked.sysSrc32 == c.sysSrc32 && walked.sysCnt == c.sysCnt
    && walked.pixelWidth == c.pixelWidth && walked.patternX == c.patternX && walked.dir == c.dir
  }

  /**
   * What the chunk walk of a `gd54xx_mem_sys_src` call promises about the
   * counters `walked` it leaves: only the destination, pixel and row
   * counters move; the pixel counter stays within the width; unless the row
   * ends the whole chunk of `steps` bytes is written and the destination has
   * moved on by it; when the row ends, the pixel counter is back at 0, the
   * row counter has moved on modulo `height + 1` and the destination is at
   * that row's start.
   */
  predicate Walked(n: int, e: Engine, walked: Counters, steps: int, rowEnded: bool)
    requires n >= 0x10000 && e.Ok(n)
  {
    var sh := ShapeOf(e.regs, e.blt.dir, n);
    walked.Valid(n) && walked.xxCount == 0 && 0 <= steps <= 128
    && WalkKeeps(e.blt, walked)
    && walked.xCount <= sh.w
    && (!rowEnded ==> steps == ChunkBytes(Expanding(e.regs), e.blt.pixelWidth, FirstShift(e.regs, e.blt.xCount, 0))
                      && walked.yCount == e.blt.yCount
                      && walked.dstAddrBackup == Cell(n, e.blt.dstAddrBackup, steps, e.blt.dir))
    && (rowEnded ==> walked.xCount == 0 && walked.yCount == CountMod(e.blt.yCount + 1, sh.h + 1)
                     && (walked.yCount != 0 ==> walked.dstAddrBackup == RowBase(n, sh.dstBase, sh.dpd, walked.yCount)))
  }

  /**
   * `gd54xx_mem_sys_src` on the engine state, given what the chunk walk
   * (`SysSrcRun`) left the counters at and whether it reached the end of a
   * row: a conflicting mode bit stops the engine; the start call (`count`
   * all ones) sets the row starts from the address registers and clears the
   * counters and the data latch; a call while no transfer runs changes
   * nothing else; a chunk call takes the walk's counters and stops the
   * engine when the row counter wrapped to 0.
   */
  function SrcAfter(e: Engine, count: int, n: int, walked: Counters, rowEnded: bool): Engine
    requires n > 0
  {
    var c := e.blt.(msIsDest := false);
    if e.regs.mode & (ModeMemSysDest | ModePatternCopy) != 0 then Stop(e.(blt := c))
    else if count == 0xffff_ffff then
      e.(countMinusOne := 1,
         blt := c.(dstAddrBackup := Wrapped(e.regs.dstAddr, n), srcAddrBackup := Wrapped(e.regs.srcAddr, n),
                   xCount := 0, yCount := 0, sysSrc32 := 0, sysCnt := 0))
    else if e.countMinusOne == 0 then e.(blt := c)
    else if rowEnded && walked.yCount == 0 then Stop(e.(blt := walked))
    else e.(blt := walked)
  }

  /**
   * `gd54xx_mem_sys_src` on contents `v`: the chunk walk (`SrcChunk`) runs
   * only on a chunk call and writes its bytes; the new state is `SrcAfter` of
   * what it left. The state stays in its ranges, and nothing is written
   * unless a chunk is.
   */
  function SrcCallOn(id: bv8, e: Engine, cpuDat: bv32, count: int, v: Vram): (res: (Vram, Engine))
    requires |v.bytes| >= 0x10000 && e.Ok(|v.bytes|)
    ensures |res.0.bytes| == |v.bytes| && res.1.Ok(|v.bytes|)
    ensures !SrcChunkCall(e, count) ==> res.0 == v
  {
    var n := |v.bytes|;
    if SrcChunkCall(e, count) then
      var w := SrcChunk(id, e.regs, ShapeOf(e.regs, e.blt.dir, n), e.blt.(msIsDest := false), cpuDat, v);
      SrcAfterOk(e, count, n, w.1, w.2, w.3);
      (w.0, SrcAfter(e, count, n, w.1, w.3))
    else
      SrcAfterOk(e, count, n, e.blt, 0, false);
      (v, SrcAfter(e, count, n, e.blt, false))
  }

  /** One `gd54xx_mem_sys_src` call: video memory and the state as `SrcCallOn` gives them. */
  method SrcCall(mem: VideoMemory, id: bv8, e: Engine, cpuDat: bv32, count: int) returns (e': Engine)
    requires mem.bytes.Length >= 0x10000 && e.Ok(mem.bytes.Length)
    modifies mem, mem.bytes
    ensures (mem.Contents(), e') == SrcCallOn(id, e, cpuDat, count, old(mem.Contents()))
  {
    var n := mem.bytes.Length;
    if SrcChunkCall(e, count) {
      var walked, steps, rowEnded := SysSrcRun(mem, id, e.regs, ShapeOf(e.regs, e.blt.dir, n), e.blt.(msIsDest := false), cpuDat);
      e' := SrcAfter(e, count, n, walked, rowEnded);
    } else {
      e' := SrcAfter(e, count, n, e.blt, false);
    }
  }

  /** A `gd54xx_mem_sys_src` call keeps the state in its ranges. */
  lemma SrcAfterOk(e: Engine, count: int, n: int, walked: Counters, steps: int, rowEnded: bool)
    requires n >= 0x10000 && e.Ok(n) && (SrcChunkCall(e, count) ==> Walked(n, e, walked, steps, rowEnded))
    ensures SrcAfter(e, count, n, walked, rowEnded).Ok(n)
  {
  }

  /** The engine modes a system-memory destination refuses: pattern copy and colour expansion. */
  predicate DestRefused(mode: bv8)
  {
    mode & (ModePatternCopy | ModeColorExpand) != 0
  }

  /**
   * The counters a `gd54xx_mem_sys_dest` call fills the buffer from: the
   * start call (`count` all ones) sets the row starts from the address
   * registers and clears the counters and the bytes left to read.
   */
  function DestStart(e: Engine, count: int, n: int): (c: Counters)
    requires n > 0 && e.blt.Valid(n)
    ensures c.Valid(n)
  {
    var c := e.blt.(msIsDest := true);
    if count == 0xffff_ffff then
      c.(dstAddrBackup := Wrapped(e.regs.dstAddr, n), msdBufCnt := 0, srcAddrBackup := Wrapped(e.regs.srcAddr, n),
         xCount := 0, xxCount := 0, yCount := 0)
    else c
  }

  /**
   * `gd54xx_mem_sys_dest` on the engine state, given the counters `filled`
   * the buffer fill left: pattern copy and colour expansion are refused (the
   * code stops with a fatal error, recorded in `rejected`, and the engine
   * stops); otherwise the fill's counters are taken, the start call sets the
   * transfer flag, and a fill that wrapped the row counter to 0 flags the
   * last row (2).
   */
  function DestAfter(e: Engine, count: int, filled: Counters, rowEnded: bool): Engine
  {
    if DestRefused(e.regs.mode) then Stop(e.(blt := e.blt.(msIsDest := true), rejected := true))
    else
      var flag := if count == 0xffff_ffff then 1 else e.countMinusOne;
      e.(blt := filled, countMinusOne := if rowEnded && filled.yCount == 0 then 2 else flag)
  }

  /** A buffer fill from counters `start` moves only the source, pixel and row counters and leaves `pos` bytes, rounded up to a dword, to read. */
  predicate FillKeeps(start: Counters, filled: Counters, pos: int)
    requires pos >= 0
  {
    filled.msIsDest == start.msIsDest && filled.dstAddrBackup == start.dstAddrBackup
    && filled.heightInternal == start.heightInternal && filled.xxCount == start.xxCount
    && filled.msdBufPos == 0 && filled.msdBufCnt == RoundUp4(pos)
    && filled.sysSrc32 == start.sysSrc32 && filled.sysCnt == start.sysCnt
    && filled.pixelWidth == start.pixelWidth && filled.patternX == start.patternX && filled.dir == start.dir
  }

  /**
   * What the buffer fill of a `gd54xx_mem_sys_dest` call promises about the
   * counters `filled` it leaves, starting from `start`: only the source,
   * pixel and row counters and the buffer counters move, and the CPU may
   * read the `pos` bytes copied rounded up to a dword from the buffer's
   * start. When the pixel counter started inside the row, `pos` is the bytes
   * left in the row, at most 32, and the row ended exactly when they fit;
   * then the pixel counter is back at 0, the row counter has moved on modulo
   * `height + 1` and the source is at that row's start; otherwise the source
   * has moved on by 32 bytes.
   */
  predicate Fetched(n: int, r: Regs, start: Counters, filled: Counters, pos: int, rowEnded: bool)
    requires n >= 0x10000 && start.Valid(n)
  {
    var sh := ShapeOf(r, start.dir, n);
    filled.Valid(n) && 1 <= pos <= 32
    && FillKeeps(start, filled, pos)
    && (start.xCount <= sh.w ==> pos == FillLength(sh.w, start.xCount) && (rowEnded <==> sh.w + 1 - start.xCount <= 32))
    && (rowEnded ==> filled.xCount == 0 && filled.yCount == CountMod(start.yCount + 1, sh.h + 1)
                     && (filled.yCount != 0 ==> filled.srcAddrBackup == RowBase(n, sh.srcBase, sh.spd, filled.yCount)))
    && (!rowEnded ==> filled.yCount == start.yCount && filled.srcAddrBackup == Cell(n, start.srcAddrBackup, 32, start.dir))
  }

  /**
   * `gd54xx_mem_sys_dest` on video memory `bytes` and buffer `buf`: unless
   * the mode is refused, the buffer fill (`DestFill`) from where the start
   * counters say; the new state is `DestAfter` of what the fill left. The
   * state stays in its ranges, and a refused mode leaves the buffer alone.
   */
  function DestCallOn(e: Engine, count: int, bytes: seq<bv8>, buf: seq<bv8>): (res: (seq<bv8>, Engine))
    requires |bytes| >= 0x10000 && e.Ok(|bytes|) && |buf| == 32
    ensures |res.0| == 32 && res.1.Ok(|bytes|)
    ensures DestRefused(e.regs.mode) ==> res.0 == buf
  {
    var n := |bytes|;
    if DestRefused(e.regs.mode) then
      DestAfterOk(e, count, n, e.blt, 1, false);
      (buf, DestAfter(e, count, e.blt, false))
    else
      var start := DestStart(e, count, n);
      var f := DestFill(ShapeOf(e.regs, start.dir, n), start, bytes, buf);
      DestAfterOk(e, count, n, f.1, f.2, f.3);
      (f.0, DestAfter(e, count, f.1, f.3))
  }

  /** One `gd54xx_mem_sys_dest` call: the buffer and the state as `DestCallOn` gives them; video memory is only read. */
  method DestCall(mem: VideoMemory, buf: array<bv8>, e: Engine, count: int) returns (e': Engine)
    requires mem.bytes.Length >= 0x10000 && e.Ok(mem.bytes.Length) && buf.Length == 32 && buf != mem.bytes
    modifies buf
    ensures (buf[..], e') == DestCallOn(e, count, mem.bytes[..], old(buf[..]))
  {
    var n := mem.bytes.Length;
    if DestRefused(e.regs.mode) {
      e' := DestAfter(e, count, e.blt, false);
    } else {
      var start := DestStart(e, count, n);
      var filled, pos, rowEnded := SysDestRun(mem, buf, ShapeOf(e.regs, start.dir, n), start);
      e' := DestAfter(e, count, filled, rowEnded);
    }
  }

  /** A `gd54xx_mem_sys_dest` call keeps the state in its ranges. */
  lemma DestAfterOk(e: Engine, count: int, n: int, filled: Counters, pos: int, rowEnded: bool)
    requires n >= 0x10000 && e.Ok(n)
    requires !DestRefused(e.regs.mode) ==> Fetched(n, e.regs, DestStart(e, count, n), filled, pos, rowEnded)
    ensures DestAfter(e, count, filled, rowEnded).Ok(n)
  {
  }

  /** The prologue of `gd54xx_start_blit`: direction, pixel width and pattern skip from the mode and mask registers. */
  function Prepared(e: Engine): (p: Engine)
    ensures p.regs == e.regs && p.countMinusOne == e.countMinusOne && p.rejected == e.rejected
  {
    e.(blt := e.blt.(dir := Direction(e.regs.mode), pixelWidth := PixelWidth(e.regs.mode),
                     patternX := PatternX(e.regs.mode, e.regs.mask)))
  }

  /**
   * What `gd54xx_start_blit` promises about the state `e'` it leaves from
   * `e`, whichever engine runs: the status keeps all but START, BUSY and
   * FIFO-used, the direction, pixel width and pattern skip are those the
   * mode gives, the data latch is touched only by a start call, a system
   * source transfer streams to video memory, a system destination transfer
   * streams to the CPU (or is refused), and the other two run to the end and
   * stop the engine.
   */
  predicate Started(e: Engine, e': Engine, count: int)
  {
    StatusKept(e.regs, e'.regs)
    && e'.blt.dir == Direction(e.regs.mode) && e'.blt.pixelWidth == PixelWidth(e.regs.mode)
    && e'.blt.patternX == PatternX(e.regs.mode, e.regs.mask)
    && (count != 0xffff_ffff ==> e'.blt.sysSrc32 == e.blt.sysSrc32 && e'.blt.sysCnt == e.blt.sysCnt)
    && (e.regs.mode & ModeMemSysSrc != 0 ==> !e'.blt.msIsDest && e'.rejected == e.rejected)
    && (e.regs.mode & (ModeMemSysSrc | ModeMemSysDest) == ModeMemSysDest ==>
          e'.blt.msIsDest && (e'.rejected <==> e.rejected || DestRefused(e.regs.mode)))
    && (e.regs.mode & (ModeMemSysSrc | ModeMemSysDest) == 0 ==>
          e'.countMinusOne == 0 && e'.blt.msIsDest == e.blt.msIsDest && e'.rejected == e.rejected
          && e'.regs == Stop(e).regs)
  }

  /**
   * A `gd54xx_mem_sys_src` call keeps the direction, pixel width and
   * pattern skip, touches the data latch only on the start call, clears the
   * destination flag, and at most stops the engine.
   */
  lemma SrcCallKeeps(id: bv8, e: Engine, cpuDat: bv32, count: int, v: Vram)
    requires |v.bytes| >= 0x10000 && e.Ok(|v.bytes|)
    ensures var e' := SrcCallOn(id, e, cpuDat, count, v).1;
            e'.blt.dir == e.blt.dir && e'.blt.pixelWidth == e.blt.pixelWidth && e'.blt.patternX == e.blt.patternX
            && (count != 0xffff_ffff ==> e'.blt.sysSrc32 == e.blt.sysSrc32 && e'.blt.sysCnt == e.blt.sysCnt)
            && !e'.blt.msIsDest && e'.rejected == e.rejected && StatusKept(e.regs, e'.regs)
  {
    if SrcChunkCall(e, count) {
      var n := |v.bytes|;
      var w := SrcChunk(id, e.regs, ShapeOf(e.regs, e.blt.dir, n), e.blt.(msIsDest := false), cpuDat, v);
      assert SrcCallOn(id, e, cpuDat, count, v).1 == SrcAfter(e, count, n, w.1, w.3);
    }
  }

  /** `Started` when the system source engine runs. */
  lemma StartedBySrc(id: bv8, e: Engine, cpuDat: bv32, count: int, v: Vram)
    requires |v.bytes| >= 0x10000 && e.Ok(|v.bytes|) && e.regs.mode & ModeMemSysSrc != 0
    ensures Started(e, SrcCallOn(id, Prepared(e), cpuDat, count, v).1, count)
  {
    SrcCallKeeps(id, Prepared(e), cpuDat, count, v);
  }

  /**
   * A `gd54xx_mem_sys_dest` call keeps the direction, pixel width, pattern
   * skip and data latch, sets the destination flag, records a refused mode,
   * and at most stops the engine.
   */
  lemma DestCallKeeps(e: Engine, count: int, bytes: seq<bv8>, buf: seq<bv8>)
    requires |bytes| >= 0x10000 && e.Ok(|bytes|) && |buf| == 32
    ensures var e' := DestCallOn(e, count, bytes, buf).1;
            e'.blt.dir == e.blt.dir && e'.blt.pixelWidth == e.blt.pixelWidth && e'.blt.patternX == e.blt.patternX
            && e'.blt.sysSrc32 == e.blt.sysSrc32 && e'.blt.sysCnt == e.blt.sysCnt
            && e'.blt.msIsDest && (e'.rejected <==> e.rejected || DestRefused(e.regs.mode)) && StatusKept(e.regs, e'.regs)
  {
    if !DestRefused(e.regs.mode) {
      var n := |bytes|;
      var start := DestStart(e, count, n);
      var f := DestFill(ShapeOf(e.regs, start.dir, n), start, bytes, buf);
      assert DestCallOn(e, count, bytes, buf).1 == DestAfter(e, count, f.1, f.3);
    }
  }

  /** `Started` when the system destination engine runs or refuses the mode. */
  lemma StartedByDest(e: Engine, count: int, bytes: seq<bv8>, buf: seq<bv8>)
    requires |bytes| >= 0x10000 && e.Ok(|bytes|) && |buf| == 32
    requires e.regs.mode & (ModeMemSysSrc | ModeMemSysDest) == ModeMemSysDest
    ensures Started(e, DestCallOn(Prepared(e), count, bytes, buf).1, count)
  {
    DestCallKeeps(Prepared(e), count, bytes, buf);
  }

  /** `Started` when the pattern copy or the video-to-video blit runs and stops the engine with counters `c'`. */
  lemma StartedByBlit(e: Engine, count: int, c': Counters)
    requires e.regs.mode & (ModeMemSysSrc | ModeMemSysDest) == 0
    requires c' == Prepared(e).blt.(dstAddrBackup := c'.dstAddrBackup, srcAddrBackup := c'.srcAddrBackup,
                                     heightInternal := c'.heightInternal, xCount := c'.xCount, yCount := c'.yCount)
    ensures Started(e, Stop(Prepared(e).(blt := c')), count)
  {
  }

  /**
   * `gd54xx_start_blit` with neither system-memory engine selected, on
   * contents `v`: the pattern copy (`PatternCopy`, which writes only inside
   * the destination rectangle) or the video-to-video blit (`NormalBlit`),
   * then the engine stops.
   */
  function BlitOn(id: bv8, e: Engine, count: nat, v: Vram): (res: (Vram, Engine))
    requires |v.bytes| >= 0x10000 && e.Ok(|v.bytes|) && e.regs.mode & (ModeMemSysSrc | ModeMemSysDest) == 0
    ensures |res.0.bytes| == |v.bytes| && res.1.Ok(|v.bytes|)
    ensures res.1 == Stop(Prepared(e).(blt := res.1.blt))
    ensures res.1.blt == Prepared(e).blt.(dstAddrBackup := res.1.blt.dstAddrBackup, srcAddrBackup := res.1.blt.srcAddrBackup,
                                          heightInternal := res.1.blt.heightInternal, xCount := res.1.blt.xCount, yCount := res.1.blt.yCount)
    ensures e.regs.mode & ModePatternCopy != 0 ==> Inside(v, res.0, Gd54xxPattern.Footprint(TileOf(id, e.regs, Prepared(e).blt, |v.bytes|)))
  {
    var n := |v.bytes|;
    var p := Prepared(e);
    if p.regs.mode & ModePatternCopy != 0 then
      var t := TileOf(id, p.regs, p.blt, n);
      PatternCopyInside(v, t);
      (PatternCopy(v, t), Stop(p.(blt := p.blt)))
    else
      var r := NormalBlit(v, p.regs, p.blt, count);
      (r.0, Stop(p.(blt := r.1)))
  }

  /**
   * `gd54xx_start_blit` on contents `v` and buffer `buf`: after the
   * prologue, the engine the mode selects runs: the system source first,
   * then the system destination, else the pattern copy or the
   * video-to-video blit. The state stays in its ranges and is `Started`
   * from `e`; only the system destination writes the buffer, and it leaves
   * video memory alone.
   */
  function StartOn(id: bv8, e: Engine, cpuDat: bv32, count: nat, v: Vram, buf: seq<bv8>): (res: (Vram, seq<bv8>, Engine))
    requires |v.bytes| >= 0x10000 && e.Ok(|v.bytes|) && |buf| == 32
    ensures |res.0.bytes| == |v.bytes| && |res.1| == 32 && res.2.Ok(|v.bytes|) && Started(e, res.2, count)
    ensures e.regs.mode & (ModeMemSysSrc | ModeMemSysDest) != ModeMemSysDest ==> res.1 == buf
    ensures e.regs.mode & (ModeMemSysSrc | ModeMemSysDest) == ModeMemSysDest ==> res.0 == v
  {
    if e.regs.mode & ModeMemSysSrc != 0 then
      var r := SrcCallOn(id, Prepared(e), cpuDat, count, v);
      StartedBySrc(id, e, cpuDat, count, v);
      (r.0, buf, r.1)
    else if e.regs.mode & ModeMemSysDest != 0 then
      var r := DestCallOn(Prepared(e), count, v.bytes, buf);
      StartedByDest(e, count, v.bytes, buf);
      (v, r.0, r.1)
    else
      var r := BlitOn(id, e, count, v);
      StartedByBlit(e, count, r.1.blt);
      (r.0, buf, r.1)
  }

  /** `gd54xx_start_blit` with neither system-memory engine selected: video memory and the state as `BlitOn` gives them. */
  method StartBlitter(mem: VideoMemory, id: bv8, e: Engine, count: nat) returns (e': Engine)
    requires mem.bytes.Length >= 0x10000 && e.Ok(mem.bytes.Length)
    requires e.regs.mode & (ModeMemSysSrc | ModeMemSysDest) == 0
    modifies mem, mem.bytes
    ensures (mem.Contents(), e') == BlitOn(id, e, count, old(mem.Contents()))
  {
    var n := mem.bytes.Length;
    var p := Prepared(e);
    if p.regs.mode & ModePatternCopy != 0 {
      PatternRun(mem, TileOf(id, p.regs, p.blt, n));
      e' := Stop(p.(blt := p.blt));
    } else {
      var c' := NormalRun(mem, p.regs, p.blt, count);
      e' := Stop(p.(blt := c'));
    }
  }

  /** `gd54xx_start_blit`: video memory, the buffer and the state as `StartOn` gives them. */
  method StartCall(mem: VideoMemory, buf: array<bv8>, id: bv8, e: Engine, cpuDat: bv32, count: nat) returns (e': Engine)
    requires mem.bytes.Length >= 0x10000 && e.Ok(mem.bytes.Length) && buf.Length == 32 && buf != mem.bytes
    modifies mem, mem.bytes, buf
    ensures (mem.Contents(), buf[..], e') == StartOn(id, e, cpuDat, count, old(mem.Contents()), old(buf[..]))
  {
    if e.regs.mode & ModeMemSysSrc != 0 {
      e' := SrcCall(mem, id, Prepared(e), cpuDat, count);
    } else if e.regs.mode & ModeMemSysDest != 0 {
      e' := DestCall(mem, buf, Prepared(e), count);
    } else {
      e' := StartBlitter(mem, id, e, count);
    }
  }

  /** Keeping the status twice keeps it: clearing START, BUSY and FIFO-used again changes nothing. */
  lemma StatusKeptTwice(a: Regs, b: Regs, c: Regs)
    requires StatusKept(a, b) && StatusKept(b, c)
    ensures StatusKept(a, c)
  {
  }

  /** The latch lane a CPU byte lands in: the lane counter, adjusted for byte-granular colour expansion. */
  function LatchLane(e: Engine, ap: int): (i: int)
    requires 0 <= e.blt.sysCnt < 4
    ensures 0 <= i < 4
  {
    PosAdj(e.regs.mode, e.regs.modeext, ap, e.blt.sysCnt)
  }

  /**
   * The first half of `gd54xx_mem_sys_src_write`: the CPU byte `val`
   * replaces lane `LatchLane(e, ap)` of the data latch and the lane counter
   * moves on modulo 4; nothing else changes.
   */
  function Latched(e: Engine, ap: int, val: bv8): (l: Engine)
    requires 0 <= e.blt.sysCnt < 4
    ensures l.regs == e.regs && l.countMinusOne == e.countMinusOne && l.rejected == e.rejected
    ensures l.blt == e.blt.(sysSrc32 := l.blt.sysSrc32, sysCnt := (e.blt.sysCnt + 1) % 4)
    ensures l.blt.sysCnt == if e.blt.sysCnt == 3 then 0 else e.blt.sysCnt + 1
  {
    e.(blt := e.blt.(sysSrc32 := SetLane32(e.blt.sysSrc32, LatchLane(e, ap), val), sysCnt := (e.blt.sysCnt + 1) % 4))
  }

  /** Latching a byte keeps the state in its ranges; the lane counter reaches 0 only with the fourth byte. */
  lemma LatchedOk(e: Engine, ap: int, val: bv8, n: int)
    requires e.Ok(n)
    ensures Latched(e, ap, val).Ok(n)
    ensures Latched(e, ap, val).blt.sysCnt == 0 <==> e.blt.sysCnt == 3
  {
  }

  /** Replacing lane `i` of a dword gives `b` in that lane and keeps the other three. */
  lemma SetLaneLanes(v: bv32, i: int, b: bv8, j: int)
    requires 0 <= i < 4 && 0 <= j < 4
    ensures Lane32(SetLane32(v, i, b), j) == if j == i then b else Lane32(v, j)
  {
    if j == 0 { SetLaneLane0(v, i, b); }
    else if j == 1 { SetLaneLane1(v, i, b); }
    else if j == 2 { SetLaneLane2(v, i, b); }
    else { SetLaneLane3(v, i, b); }
  }

  lemma SetLaneLane0(v: bv32, i: int, b: bv8)
    requires 0 <= i < 4
    ensures Lane32(SetLane32(v, i, b), 0) == if i == 0 then b else Lane32(v, 0)
  {
    match i
    case 0 => {}
    case 1 => assert (SetLane32(v, 1, b) >> 0) & 0xff == (v >> 0) & 0xff;
    case 2 => assert (SetLane32(v, 2, b) >> 0) & 0xff == (v >> 0) & 0xff;
    case 3 => assert (SetLane32(v, 3, b) >> 0) & 0xff == (v >> 0) & 0xff;
  }

  lemma SetLaneLane1(v: bv32, i: int, b: bv8)
    requires 0 <= i < 4
    ensures Lane32(SetLane32(v, i, b), 1) == if i == 1 then b else Lane32(v, 1)
  {
    match i
    case 0 => assert (SetLane32(v, 0, b) >> 8) & 0xff == (v >> 8) & 0xff;
    case 1 => {}
    case 2 => assert (SetLane32(v, 2, b) >> 8) & 0xff == (v >> 8) & 0xff;
    case 3 => assert (SetLane32(v, 3, b) >> 8) & 0xff == (v >> 8) & 0xff;
  }

  lemma SetLaneLane2(v: bv32, i: int, b: bv8)
    requires 0 <= i < 4
    ensures Lane32(SetLane32(v, i, b), 2) == if i == 2 then b else Lane32(v, 2)
  {
    match i
    case 0 => assert (SetLane32(v, 0, b) >> 16) & 0xff == (v >> 16) & 0xff;
    case 1 => assert (SetLane32(v, 1, b) >> 16) & 0xff == (v >> 16) & 0xff;
    case 2 => {}
    case 3 => assert (SetLane32(v, 3, b) >> 16) & 0xff == (v >> 16) & 0xff;
  }

  lemma SetLaneLane3(v: bv32, i: int, b: bv8)
    requires 0 <= i < 4
    ensures Lane32(SetLane32(v, i, b), 3) == if i == 3 then b else Lane32(v, 3)
  {
    match i
    case 0 => assert (SetLane32(v, 0, b) >> 24) & 0xff == (v >> 24) & 0xff;
    case 1 => HighLaneKept1(v, b);
    case 2 => HighLaneKept2(v, b);
    case 3 => {}
  }

  lemma HighLaneKept1(v: bv32, b: bv8)
    ensures Lane32(SetLane32(v, 1, b), 3) == Lane32(v, 3)
  {
    var w: bv32 := b as bv32;
    assert w <= 0xff;
    TopByteOfOr(v & 0xffff00ff, w << 8);
    assert (w << 8) >> 24 == 0;
  }

  lemma TopByteOfOr(x: bv32, y: bv32)
    ensures (x | y) >> 24 == (x >> 24) | (y >> 24)
  {
  }

  lemma HighLaneKept2(v: bv32, b: bv8)
    ensures Lane32(SetLane32(v, 2, b), 3) == Lane32(v, 3)
  {
    var w: bv32 := b as bv32;
    assert w <= 0xff;
    assert SetLane32(v, 2, b) >> 24 == v >> 24;
  }

  /** The latch after `Latched` holds `val` in the adjusted lane and the old bytes in the other lanes. */
  lemma LatchedLanes(e: Engine, ap: int, val: bv8, j: int)
    requires 0 <= e.blt.sysCnt < 4 && 0 <= j < 4
    ensures Lane32(Latched(e, ap, val).blt.sysSrc32, j) == if j == LatchLane(e, ap) then val else Lane32(e.blt.sysSrc32, j)
  {
    SetLaneLanes(e.blt.sysSrc32, LatchLane(e, ap), val, j);
  }

  /**
   * The dword four CPU bytes `bs` fill an empty latch with in quadrant
   * `ap`: lane `j` holds the byte whose adjusted lane is `j` (least
   * significant first unless the byte-granular lane swap applies).
   */
  function Placed(r: Regs, ap: int, bs: seq<bv8>): bv32
    requires |bs| == 4
  {
    Compose32(bs[PosAdj(r.mode, r.modeext, ap, 0)], bs[PosAdj(r.mode, r.modeext, ap, 1)],
              bs[PosAdj(r.mode, r.modeext, ap, 2)], bs[PosAdj(r.mode, r.modeext, ap, 3)])
  }

  /** Lane `i` of a dword is adjusted to lane `j` exactly when `j` is adjusted to `i`. */
  lemma AdjustedLanes(mode: bv8, modeext: bv8, ap: int, j: int)
    requires 0 <= j < 4
    ensures 0 <= PosAdj(mode, modeext, ap, j) < 4
    ensures PosAdj(mode, modeext, ap, 0) == j <==> PosAdj(mode, modeext, ap, j) == 0
    ensures PosAdj(mode, modeext, ap, 1) == j <==> PosAdj(mode, modeext, ap, j) == 1
    ensures PosAdj(mode, modeext, ap, 2) == j <==> PosAdj(mode, modeext, ap, j) == 2
    ensures PosAdj(mode, modeext, ap, 3) == j <==> PosAdj(mode, modeext, ap, j) == 3
  {
    PosAdjInvolution(mode, modeext, ap, 0);
    PosAdjInvolution(mode, modeext, ap, 1);
    PosAdjInvolution(mode, modeext, ap, 2);
    PosAdjInvolution(mode, modeext, ap, 3);
    PosAdjInvolution(mode, modeext, ap, j);
  }

  /** `Latched` writes lane `PosAdj` of the lane counter. */
  lemma LatchedLane(e: Engine, ap: int, val: bv8, j: int)
    requires 0 <= e.blt.sysCnt < 4 && 0 <= j < 4
    ensures Lane32(Latched(e, ap, val).blt.sysSrc32, j)
         == if j == PosAdj(e.regs.mode, e.regs.modeext, ap, e.blt.sysCnt) then val else Lane32(e.blt.sysSrc32, j)
  {
    LatchedLanes(e, ap, val, j);
  }

  /** Four latched bytes: the last one written to lane `j` is the byte whose adjusted lane is `j`. */
  lemma FourLatchedLane(e: Engine, ap: int, bs: seq<bv8>, j: int)
    requires e.blt.sysCnt == 0 && |bs| == 4 && 0 <= j < 4
    ensures 0 <= PosAdj(e.regs.mode, e.regs.modeext, ap, j) < 4
    ensures Lane32(Latched(Latched(Latched(Latched(e, ap, bs[0]), ap, bs[1]), ap, bs[2]), ap, bs[3]).blt.sysSrc32, j)
         == bs[PosAdj(e.regs.mode, e.regs.modeext, ap, j)]
  {
    var l1 := Latched(e, ap, bs[0]);
    var l2 := Latched(l1, ap, bs[1]);
    var l3 := Latched(l2, ap, bs[2]);
    var l4 := Latched(l3, ap, bs[3]);
    assert l3.regs == e.regs && l3.blt.sysCnt == 3;
    LatchedLane(e, ap, bs[0], j);
    LatchedLane(l1, ap, bs[1], j);
    LatchedLane(l2, ap, bs[2], j);
    LatchedLane(l3, ap, bs[3], j);
    AdjustedLanes(e.regs.mode, e.regs.modeext, ap, j);
  }

  /**
   * Four CPU bytes written from an empty latch fill it as `Placed` says and
   * bring the lane counter back to 0, so the dword is handed to the engine.
   */
  lemma FourLatched(e: Engine, ap: int, bs: seq<bv8>)
    requires e.blt.sysCnt == 0 && |bs| == 4
    ensures var l := Latched(Latched(Latched(Latched(e, ap, bs[0]), ap, bs[1]), ap, bs[2]), ap, bs[3]);
      l == e.(blt := e.blt.(sysSrc32 := Placed(e.regs, ap, bs), sysCnt := 0))
  {
    var l := Latched(Latched(Latched(Latched(e, ap, bs[0]), ap, bs[1]), ap, bs[2]), ap, bs[3]);
    FourLatchedLane(e, ap, bs, 0);
    FourLatchedLane(e, ap, bs, 1);
    FourLatchedLane(e, ap, bs, 2);
    FourLatchedLane(e, ap, bs, 3);
    Compose32Lanes(l.blt.sysSrc32);
  }

  /** Byte-granular colour expansion: each CPU byte is handed to the engine on its own. */
  predicate ByteGranular(r: Regs)
  {
    r.mode & ModeColorExpand != 0 && r.modeext & ExtDwordGranularity == 0
  }

  /**
   * The first `i` of the start calls byte-granular colour expansion makes
   * for a full latch `l`: one of 8 bits per lane, from lane 0 up. The latch
   * and its lane counter are kept, and the status keeps all but START, BUSY
   * and FIFO-used.
   */
  function LaneStarts(id: bv8, l: Engine, v: Vram, buf: seq<bv8>, i: nat): (res: (Vram, seq<bv8>, Engine))
    requires |v.bytes| >= 0x10000 && l.Ok(|v.bytes|) && |buf| == 32 && i <= 4
    ensures |res.0.bytes| == |v.bytes| && |res.1| == 32 && res.2.Ok(|v.bytes|)
    ensures res.2.blt.sysSrc32 == l.blt.sysSrc32 && res.2.blt.sysCnt == l.blt.sysCnt && StatusKept(l.regs, res.2.regs)
  {
    if i == 0 then (v, buf, l)
    else
      var p := LaneStarts(id, l, v, buf, i - 1);
      var r := StartOn(id, p.2, Lane32(l.blt.sysSrc32, i - 1) as bv32, 8, p.0, p.1);
      StatusKeptTwice(l.regs, p.2.regs, r.2.regs);
      r
  }

  /**
   * What `gd54xx_mem_sys_src_write` leaves after the latch `l`, with video
   * memory `v` and buffer `buf`: a partial dword waits in the latch; a full
   * one is handed to the engine, lane by lane in four start calls of 8 bits
   * for byte-granular colour expansion, else in one start call of 32 bits.
   * The engine keeps the latch and its lane counter (only a start call of
   * all ones resets them) and its status at most stops.
   */
  function FedOn(id: bv8, l: Engine, v: Vram, buf: seq<bv8>): (res: (Vram, seq<bv8>, Engine))
    requires |v.bytes| >= 0x10000 && l.Ok(|v.bytes|) && |buf| == 32
    ensures |res.0.bytes| == |v.bytes| && |res.1| == 32 && res.2.Ok(|v.bytes|)
    ensures l.blt.sysCnt != 0 ==> res == (v, buf, l)
    ensures l.blt.sysCnt == 0 ==> res.2.blt.sysSrc32 == l.blt.sysSrc32 && res.2.blt.sysCnt == 0 && StatusKept(l.regs, res.2.regs)
  {
    if l.blt.sysCnt != 0 then (v, buf, l)
    else if ByteGranular(l.regs) then LaneStarts(id, l, v, buf, 4)
    else StartOn(id, l, l.blt.sysSrc32, 32, v, buf)
  }

  /**
   * The first half of `gd54xx_mem_sys_dest_read` on a buffer that holds
   * bytes: the read position moves on and the count down.
   */
  function Drained(e: Engine): (d: Engine)
    requires e.blt.msdBufCnt > 0
    ensures d.blt.msdBufPos + d.blt.msdBufCnt == e.blt.msdBufPos + e.blt.msdBufCnt
  {
    e.(blt := e.blt.(msdBufPos := e.blt.msdBufPos + 1, msdBufCnt := e.blt.msdBufCnt - 1))
  }

  /**
   * The byte `gd54xx_mem_sys_dest_read` returns from buffer `buf`: 0xff
   * when the buffer is empty, else the byte at the read position adjusted
   * for byte-granular colour expansion in quadrant `ap`.
   */
  function DestByte(e: Engine, buf: seq<bv8>, ap: int): bv8
    requires |buf| == 32 && 0 <= e.blt.msdBufPos && 0 <= e.blt.msdBufCnt && e.blt.msdBufPos + e.blt.msdBufCnt <= 32
  {
    if e.blt.msdBufCnt == 0 then 0xff
    else buf[PosAdj(e.regs.mode, e.regs.modeext, ap, e.blt.msdBufPos)]
  }

  /**
   * `gd54xx_mem_sys_dest_read` on the state, video memory `v` and buffer
   * `buf`: the byte `DestByte` gives. Taking the last byte of the buffer
   * refills it with a further start call (of 8 bits for byte-granular colour
   * expansion, else 32) while the transfer has rows left, and stops the
   * engine otherwise.
   */
  function DestReadOn(id: bv8, e: Engine, v: Vram, buf: seq<bv8>, ap: int): (res: (bv8, Vram, seq<bv8>, Engine))
    requires |v.bytes| >= 0x10000 && e.Ok(|v.bytes|) && |buf| == 32
    ensures |res.1.bytes| == |v.bytes| && |res.2| == 32 && res.3.Ok(|v.bytes|)
    ensures res.0 == DestByte(e, buf, ap)
    ensures e.blt.msdBufCnt != 1 || e.countMinusOne != 1 ==> res.1 == v && res.2 == buf
  {
    var b := DestByte(e, buf, ap);
    if e.blt.msdBufCnt == 0 then (b, v, buf, e)
    else
      var d := Drained(e);
      if d.blt.msdBufCnt != 0 then (b, v, buf, d)
      else if d.countMinusOne != 1 then (b, v, buf, Stop(d))
      else
        var r := StartOn(id, d.(blt := d.blt.(msdBufPos := 0)), if ByteGranular(e.regs) then 0xff else 0xffff_ffff,
                         if ByteGranular(e.regs) then 8 else 32, v, buf);
        (b, r.0, r.1, r.2)
  }

  /**
   * Reading the buffer position by position takes every byte exactly once:
   * the adjusted positions of the bytes of one dword are those of the dword
   * again, and two positions adjust to the same byte only if they are equal.
   */
  lemma DestByteOnce(mode: bv8, modeext: bv8, ap: int, p: int, q: int)
    requires 0 <= p && 0 <= q && PosAdj(mode, modeext, ap, p) == PosAdj(mode, modeext, ap, q)
    ensures p == q
  {
    PosAdjInvolution(mode, modeext, ap, p);
    PosAdjInvolution(mode, modeext, ap, q);
  }
}
