/*
 * The CL-GD54xx video-to-system engine (`gd54xx_mem_sys_dest`): each call
 * copies source bytes along the current source row into the 32-byte
 * buffer the CPU then reads, stopping after 32 bytes or at the end of the
 * row, whichever comes first.
 */
module Gd54xxSysDest {
  import opened Gd54xxRegs
  import opened Gd54xxVisit
  import opened Gd54xxGeometry
  import opened Gd54xxMemory
  import opened Gd54xxSysSrc

  /** `k` rounded up to a multiple of 4: the number of bytes the CPU may read from a fill of `k`. */
  function RoundUp4(k: int): (c: int)
    requires 0 <= k
    ensures c % 4 == 0 && k <= c < k + 4
  {
    if k % 4 != 0 then k - k % 4 + 4 else k
  }

  /**
   * The bytes a fill copies: as many as are left in the row, at most 32.
   * The counter `xc` counts the bytes of the row already copied.
   */
  function FillLength(w: int, xc: int): (k: int)
    requires 0 <= xc <= w
    ensures 1 <= k <= 32
  {
    if w + 1 - xc < 32 then w + 1 - xc else 32
  }

  /** A buffer fill in progress: the source cursor, the bytes copied, and whether the row has ended. */
  datatype Fill = Fill(c: Cursor, pos: nat, rowEnded: bool)

  /** The fill counters as a walk of one byte per pixel, for `ChunkPlace`. */
  function AsChunk(st: Fill): Chunk
  {
    Chunk(st.c, st.pos, st.pos, st.rowEnded)
  }

  /**
   * The counters between two bytes of a fill from `start`: when the row
   * counter started inside the row it has counted the bytes copied, and the
   * row ends once it reaches the end of the row.
   */
  predicate FillCount(w: int, start: Cursor, st: Fill)
  {
    st.pos <= 32 && 0 <= st.c.xc && st.c.xx == 0 && 0 <= st.c.yc && (st.rowEnded ==> st.pos >= 1 && st.c.xc == 0)
    && (st.pos >= 1 ==> st.c.xc <= w)
    && (start.xc <= w ==> st.c.xc <= w && (st.rowEnded ==> st.pos == w + 1 - start.xc)
                          && (!st.rowEnded ==> st.c.xc == start.xc + st.pos))
  }

  /** The first `pos` bytes of `buf` are those `pos` bytes along the source row from `from`; the rest are `old32`. */
  ghost predicate FillBuf(mem: VideoMemory, buf: array<bv8>, old32: seq<bv8>, from: int, dir: int, pos: int)
    reads buf, mem.bytes
    requires 0 <= from < mem.bytes.Length && pos < mem.bytes.Length
  {
    buf.Length == 32 && |old32| == 32 && 0 <= pos <= 32
    && (forall i :: 0 <= i < pos ==> buf[i] == mem.bytes[Cell(mem.bytes.Length, from, i, dir)])
    && (forall i :: pos <= i < 32 ==> buf[i] == old32[i])
  }

  /** What holds of a fill between two bytes, memory and buffer aside: its parameters in range, its counters and its place. */
  predicate FillPure(n: int, w: int, h: int, base0: int, pd: int, dir: int, start: Cursor, st: Fill)
  {
    n >= 0x10000 && (dir == 1 || dir == -1)
    && 0 <= w && 0 <= h && 0 <= base0 < n && -n < pd < n
    && 0 <= start.dst < n && 0 <= start.xc && 0 <= start.yc && start.xx == 0
    && FillCount(w, start, st) && ChunkPlace(n, h, base0, pd, dir, start, AsChunk(st))
  }

  /** What holds between two bytes of a fill from `start`: its counters, its place and the buffer so far. */
  ghost predicate FillInv(mem: VideoMemory, buf: array<bv8>, old32: seq<bv8>, w: int, h: int,
                          base0: int, pd: int, dir: int, start: Cursor, st: Fill)
    reads buf, mem.bytes
  {
    FillPure(mem.bytes.Length, w, h, base0, pd, dir, start, st) && buf != mem.bytes
    && FillBuf(mem, buf, old32, start.dst, dir, st.pos)
  }

  /** The fill after one more byte, the source already moved on to `dst`: the counters of a one-byte-per-pixel walk. */
  function FillStep(st: Fill, dst: int, w: int, h: int, n: int, base0: int, pd: int): Fill
    requires st.c.xx == 0 && 0 <= st.c.xc && 0 <= st.c.yc && 0 <= w && 0 <= h
    requires 0 <= base0 < n && -n < pd < n && 0 <= dst < n
  {
    var r := NextCursor(st.c, dst, false, 1, w, h, n, base0, pd);
    Fill(r.0, st.pos + 1, r.1)
  }

  /** One more byte keeps the counters' invariant. */
  lemma FillStepCount(st: Fill, dst: int, w: int, h: int, n: int, base0: int, pd: int, start: Cursor)
    requires st.c.xx == 0 && 0 <= st.c.xc && 0 <= st.c.yc && 0 <= w && 0 <= h
    requires 0 <= base0 < n && -n < pd < n && 0 <= dst < n
    ensures FillCount(w, start, st) && st.pos < 32 && !st.rowEnded ==>
            FillCount(w, start, FillStep(st, dst, w, h, n, base0, pd))
  {
  }

  /** One more byte keeps the source where `ChunkPlace` says. */
  lemma FillStepPlace(st: Fill, dst: int, w: int, h: int, n: int, base0: int, pd: int, dir: int, start: Cursor)
    requires st.c.xx == 0 && 0 <= st.c.xc && 0 <= st.c.yc && 0 <= w && 0 <= h
    requires 0 <= base0 < n && -n < pd < n && 0 <= dst < n && 0 <= start.dst < n && 0 <= start.yc && st.pos + 1 < n
    ensures ChunkPlace(n, h, base0, pd, dir, start, AsChunk(st)) && !st.rowEnded
            && dst == Cell(n, start.dst, st.pos + 1, dir) ==>
            ChunkPlace(n, h, base0, pd, dir, start, AsChunk(FillStep(st, dst, w, h, n, base0, pd)))
  {
  }

  /** Copying the byte at the cursor into the next buffer position extends the copied prefix by one. */
  method CopyByte(mem: VideoMemory, buf: array<bv8>, ghost old32: seq<bv8>, from: int, dir: int, pos: int, src: int)
    requires 0 <= from < mem.bytes.Length && 0 <= pos < 32 && pos + 1 < mem.bytes.Length && buf != mem.bytes
    requires FillBuf(mem, buf, old32, from, dir, pos) && src == Cell(mem.bytes.Length, from, pos, dir)
    modifies buf
    ensures FillBuf(mem, buf, old32, from, dir, pos + 1)
  {
    buf[pos] := mem.bytes[src];
  }

  /** One pass of the fill loop: copy the byte at the cursor, then move the cursor and counters on. */
  method FillNext(mem: VideoMemory, buf: array<bv8>, ghost old32: seq<bv8>, w: int, h: int,
                  base0: int, pd: int, dir: int, start: Cursor, st: Fill)
    returns (next: Fill)
    requires FillInv(mem, buf, old32, w, h, base0, pd, dir, start, st) && st.pos < 32 && !st.rowEnded
    modifies buf
    ensures FillInv(mem, buf, old32, w, h, base0, pd, dir, start, next) && next.pos == st.pos + 1
    ensures next == FillPass(mem.bytes.Length, w, h, base0, pd, dir, st)
  {
    var n := mem.bytes.Length;
    CopyByte(mem, buf, old32, start.dst, dir, st.pos, st.c.dst);
    var dst := AddMod(st.c.dst, dir, n);
    CellNext(n, start.dst, st.pos, dir);
    FillStepCount(st, dst, w, h, n, base0, pd, start);
    FillStepPlace(st, dst, w, h, n, base0, pd, dir, start);
    next := FillStep(st, dst, w, h, n, base0, pd);
  }

  /** The fill loop has stopped: 32 bytes copied or the row ended. */
  predicate FillStopped(st: Fill)
  {
    st.pos >= 32 || st.rowEnded
  }

  /** The counters of `st` and the rectangle are in the ranges one more byte needs. */
  predicate FillSteppable(n: int, w: int, h: int, base0: int, pd: int, dir: int, st: Fill)
  {
    n >= 0x10000 && (dir == 1 || dir == -1) && 0 <= w && 0 <= h && 0 <= base0 < n && -n < pd < n
    && st.c.xx == 0 && 0 <= st.c.xc && 0 <= st.c.yc && 0 <= st.c.dst < n
  }

  /** One pass of the fill loop on the counters: one byte copied and the cursor one byte on. A stopped fill stays. */
  function FillPass(n: int, w: int, h: int, base0: int, pd: int, dir: int, st: Fill): Fill
  {
    if FillStopped(st) || !FillSteppable(n, w, h, base0, pd, dir, st) then st
    else FillStep(st, AddMod(st.c.dst, dir, n), w, h, n, base0, pd)
  }

  /** The fill from `start` after `k` passes of the loop, or where it stopped. */
  function FillAfter(n: int, w: int, h: int, base0: int, pd: int, dir: int, start: Cursor, k: nat): Fill
  {
    if k == 0 then Fill(start, 0, false) else FillPass(n, w, h, base0, pd, dir, FillAfter(n, w, h, base0, pd, dir, start, k - 1))
  }

  /** Every pass keeps `FillPure`, and while the loop runs the `k`-th pass has copied `k` bytes. */
  lemma {:induction false} FillAfterPure(n: int, w: int, h: int, base0: int, pd: int, dir: int, start: Cursor, k: nat)
    requires FillPure(n, w, h, base0, pd, dir, start, Fill(start, 0, false))
    ensures FillPure(n, w, h, base0, pd, dir, start, FillAfter(n, w, h, base0, pd, dir, start, k))
    ensures !FillStopped(FillAfter(n, w, h, base0, pd, dir, start, k)) ==> FillAfter(n, w, h, base0, pd, dir, start, k).pos == k
  {
    if k > 0 {
      var st := FillAfter(n, w, h, base0, pd, dir, start, k - 1);
      FillAfterPure(n, w, h, base0, pd, dir, start, k - 1);
      if !FillStopped(st) {
        var dst := AddMod(st.c.dst, dir, n);
        CellNext(n, start.dst, st.pos, dir);
        FillStepCount(st, dst, w, h, n, base0, pd, start);
        FillStepPlace(st, dst, w, h, n, base0, pd, dir, start);
      }
    }
  }

  /** Once the fill loop has stopped, further passes change nothing. */
  lemma {:induction false} FillStays(n: int, w: int, h: int, base0: int, pd: int, dir: int, start: Cursor, k: nat, j: nat)
    requires FillStopped(FillAfter(n, w, h, base0, pd, dir, start, k))
    ensures FillAfter(n, w, h, base0, pd, dir, start, k + j) == FillAfter(n, w, h, base0, pd, dir, start, k)
  {
    if j > 0 {
      FillStays(n, w, h, base0, pd, dir, start, k, j - 1);
    }
  }

  /** The buffer after a fill of `pos` bytes along the row from `from`: those bytes first, the rest of `buf` kept. */
  function FilledBuf(bytes: seq<bv8>, buf: seq<bv8>, from: int, dir: int, pos: int): seq<bv8>
    requires |buf| == 32 && 0 <= from < |bytes| && 0 <= pos <= 32 && 32 < |bytes|
  {
    seq(32, i requires 0 <= i < 32 => if i < pos then bytes[Cell(|bytes|, from, i, dir)] else buf[i])
  }

  /** `FillBuf` says the buffer is `FilledBuf`. */
  lemma FillBufIs(mem: VideoMemory, buf: array<bv8>, old32: seq<bv8>, from: int, dir: int, pos: int)
    requires 0 <= from < mem.bytes.Length && 32 < mem.bytes.Length && 0 <= pos <= 32
    requires FillBuf(mem, buf, old32, from, dir, pos)
    ensures buf[..] == FilledBuf(mem.bytes[..], old32, from, dir, pos)
  {
  }

  /**
   * One buffer fill (the loop of `gd54xx_mem_sys_dest`): copies the bytes
   * along the source row from `start.dst` into `buf` from its first byte
   * on, until 32 bytes are copied or, `rowEnded`, the row ends; then the
   * row counter moves on and, unless the blit is over, the cursor moves to
   * the next row's start. Video memory is only read.
   */
  method SysDestFill(mem: VideoMemory, buf: array<bv8>, w: int, h: int, base0: int, pd: int, dir: int, start: Cursor)
    returns (st: Fill)
    requires mem.bytes.Length >= 0x10000 && buf.Length == 32 && buf != mem.bytes && (dir == 1 || dir == -1)
    requires 0 <= w && 0 <= h && 0 <= base0 < mem.bytes.Length && -mem.bytes.Length < pd < mem.bytes.Length
    requires 0 <= start.dst < mem.bytes.Length && 0 <= start.xc && 0 <= start.yc && start.xx == 0
    modifies buf
    ensures FillInv(mem, buf, old(buf[..]), w, h, base0, pd, dir, start, st)
    ensures st.pos == 32 || st.rowEnded
    ensures st == FillAfter(mem.bytes.Length, w, h, base0, pd, dir, start, st.pos)
  {
    ghost var old32 := buf[..];
    st := Fill(start, 0, false);
    while st.pos < 32 && !st.rowEnded
      invariant FillInv(mem, buf, old32, w, h, base0, pd, dir, start, st)
      invariant st == FillAfter(mem.bytes.Length, w, h, base0, pd, dir, start, st.pos)
      decreases 32 - st.pos
    {
      st := FillNext(mem, buf, old32, w, h, base0, pd, dir, start, st);
    }
  }

  /**
   * A finished fill: at least one byte copied. When the row counter started
   * inside the row, `pos` is the number of bytes left in the row, at most
   * 32, and the row has ended exactly when they fit; after the row's end the
   * pixel counter is 0 and the source at the next row's start, otherwise the
   * source is 32 bytes on along the row.
   */
  lemma FillDone(n: int, w: int, h: int, base0: int, pd: int, dir: int, start: Cursor, st: Fill)
    requires FillPure(n, w, h, base0, pd, dir, start, st) && (st.pos == 32 || st.rowEnded)
    ensures 1 <= st.pos <= 32 && 0 <= st.c.xc <= w && 0 <= st.c.yc && 0 <= st.c.dst < n
    ensures start.xc <= w ==> st.pos == FillLength(w, start.xc) && (st.rowEnded <==> w + 1 - start.xc <= 32)
    ensures st.rowEnded ==> st.c.xc == 0 && st.c.yc == CountMod(start.yc + 1, h + 1)
                            && (st.c.yc != 0 ==> st.c.dst == RowBase(n, base0, pd, st.c.yc))
    ensures !st.rowEnded ==> st.c.yc == start.yc && st.c.dst == Cell(n, start.dst, 32, dir)
  {
  }

  /**
   * One call of `gd54xx_mem_sys_dest` on a running blit with rectangle `sh`
   * and counters `c`, over video memory `bytes` and buffer `buf`: the
   * buffer after the fill from `src_addr_backup`, the counters after it
   * (the CPU may read `msd_buf_cnt`, the bytes copied rounded up to a
   * multiple of 4, from the buffer's start), the bytes copied and whether
   * the row ended. When the pixel counter started inside the row, the bytes
   * copied are those left in the row, at most 32, and the row ended exactly
   * when they fit; then the pixel counter is back at 0, the row counter has
   * moved on modulo `height + 1` and the source is at that row's start;
   * otherwise the source has moved on by 32 bytes.
   */
  function DestFill(sh: Shape, c: Counters, bytes: seq<bv8>, buf: seq<bv8>): (res: (seq<bv8>, Counters, int, bool))
    requires |bytes| >= 0x10000 && sh.Ok(|bytes|) && c.Valid(|bytes|) && |buf| == 32
    ensures 1 <= res.2 <= 32 && |res.0| == 32 && res.1.Valid(|bytes|)
    ensures forall i :: 0 <= i < res.2 ==> res.0[i] == bytes[Cell(|bytes|, c.srcAddrBackup, i, c.dir)]
    ensures forall i :: res.2 <= i < 32 ==> res.0[i] == buf[i]
    ensures res.1 == c.(srcAddrBackup := res.1.srcAddrBackup, xCount := res.1.xCount, yCount := res.1.yCount,
                        msdBufPos := 0, msdBufCnt := RoundUp4(res.2))
    ensures c.xCount <= sh.w ==> res.2 == FillLength(sh.w, c.xCount) && (res.3 <==> sh.w + 1 - c.xCount <= 32)
    ensures res.3 ==> res.1.xCount == 0 && res.1.yCount == CountMod(c.yCount + 1, sh.h + 1)
                      && (res.1.yCount != 0 ==> res.1.srcAddrBackup == RowBase(|bytes|, sh.srcBase, sh.spd, res.1.yCount))
    ensures !res.3 ==> res.1.yCount == c.yCount && res.1.srcAddrBackup == Cell(|bytes|, c.srcAddrBackup, 32, c.dir)
  {
    var n := |bytes|;
    var start := Cursor(c.srcAddrBackup, c.xCount, 0, c.yCount, 0);
    var st := FillAfter(n, sh.w, sh.h, sh.srcBase, sh.spd, c.dir, start, 32);
    FillAfterPure(n, sh.w, sh.h, sh.srcBase, sh.spd, c.dir, start, 32);
    FillDone(n, sh.w, sh.h, sh.srcBase, sh.spd, c.dir, start, st);
    (FilledBuf(bytes, buf, c.srcAddrBackup, c.dir, st.pos), c.Filled(n, st.c.dst, st.c.xc, st.c.yc, RoundUp4(st.pos)),
     st.pos, st.rowEnded)
  }

  /** One call of `gd54xx_mem_sys_dest` on a running blit: buffer, counters, bytes copied and row end as `DestFill` gives them; video memory is only read. */
  method SysDestRun(mem: VideoMemory, buf: array<bv8>, sh: Shape, c: Counters)
    returns (c': Counters, pos: int, rowEnded: bool)
    requires mem.bytes.Length >= 0x10000 && sh.Ok(mem.bytes.Length) && c.Valid(mem.bytes.Length)
    requires buf.Length == 32 && buf != mem.bytes
    modifies buf
    ensures (buf[..], c', pos, rowEnded) == DestFill(sh, c, mem.bytes[..], old(buf[..]))
  {
    var n := mem.bytes.Length;
    var start := Cursor(c.srcAddrBackup, c.xCount, 0, c.yCount, 0);
    var st := SysDestFill(mem, buf, sh.w, sh.h, sh.srcBase, sh.spd, c.dir, start);
    FillStays(n, sh.w, sh.h, sh.srcBase, sh.spd, c.dir, start, st.pos, 32 - st.pos);
    FillBufIs(mem, buf, old(buf[..]), c.srcAddrBackup, c.dir, st.pos);
    c' := c.Filled(n, st.c.dst, st.c.xc, st.c.yc, RoundUp4(st.pos));
    pos, rowEnded := st.pos, st.rowEnded;
  }
}
