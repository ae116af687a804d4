/*
 * The CL-GD54xx system-to-video engine (`gd54xx_mem_sys_src`): each call
 * consumes one chunk of CPU data, a dword or a byte of mask bits, and writes
 * it along the current destination row, stopping early at the end of a row.
 */
module Gd54xxSysSrc {
  import opened Gd54xxOps
  import opened Gd54xxRegs
  import opened Gd54xxVisit
  import opened Gd54xxGeometry
  import opened Gd54xxMemory

  /**
   * Where a system-to-video blit is: the destination index, the pixel
   * counter `x_count`, the byte of the pixel `xx_count`, the row counter
   * `y_count`, and the next data bit to consume (`mask_shift`; for a copy,
   * the top bit of the next data byte).
   */
  datatype Cursor = Cursor(dst: int, xc: int, xx: int, yc: int, shift: int)

  /** `x % m` for a count kept below a positive modulus. */
  function CountMod(x: int, m: int): (r: int)
    requires 0 <= x && 0 < m
    ensures 0 <= r < m
  {
    x % m
  }

  /**
   * The first bit a chunk consumes: bit 7 of a byte for byte-granular colour
   * expansion; otherwise bit 31 of the dword, less the byte offset in bits
   * 5-6 of the mask register at the very start of the blit (a copy shifts
   * the data down by that offset instead, so its first byte is that lane).
   */
  function FirstShift(r: Regs, xc: int, xx: int): (shift: int)
    ensures shift in {7, 15, 23, 31} || (Expanding(r) && 0 <= shift <= 31)
  {
    if !Expanding(r) || r.modeext & ExtDwordGranularity != 0 then
      var bytePos := if xx == 0 && xc == 0 then U8((r.mask / 32) & 3) * 8 else 0;
      31 - bytePos
    else 7
  }

  /** The number of pixels a whole chunk starting at bit `shift` holds: one per bit, or one per byte for a copy. */
  function ChunkPixels(expand: bool, shift: int): int
  {
    if expand then shift + 1 else (shift + 1) / 8
  }

  /**
   * The value one system-to-video byte takes over its old value `prev`:
   * `SysSrcByte` for the current data bit (colour expansion) or the current
   * data byte (copy) of the chunk `f` at the cursor.
   */
  function PokeByte(f: Feed, cur: Cursor, prev: bv8): bv8
    requires 1 <= f.pw <= 4 && 0 <= cur.xx < f.pw && 0 <= cur.shift < 32
  {
    SysSrcByte(f.id, f.r, f.pw, f.patternX, cur.xc, cur.xx, DataBit(f.cpuDat, cur.shift),
               Lane32(f.cpuDat, (31 - cur.shift) / 8), prev)
  }

  /**
   * The write of one system-to-video byte: the byte at the cursor takes the
   * value `PokeByte` gives over its old value; no other byte changes.
   */
  method SysSrcPoke(mem: VideoMemory, f: Feed, cur: Cursor)
    requires 1 <= f.pw <= 4 && 0 <= cur.xx < f.pw && 0 <= cur.shift < 32 && 0 <= cur.dst < mem.bytes.Length
    modifies mem.bytes
    ensures mem.bytes[..] == old(mem.bytes[..])[cur.dst := PokeByte(f, cur, old(mem.bytes[cur.dst]))]
  {
    var b := PokeByte(f, cur, mem.bytes[cur.dst]);
    mem.Poke(cur.dst, b);
  }

  /**
   * The counters after one byte, the destination already moved on to `dst`:
   * colour expansion steps through the bytes of the pixel; after its last
   * byte the next bit (or, for a copy, the next byte) is due and the pixel
   * counter moves on modulo `w + 1`. When it wraps to 0 the row has ended:
   * the row counter moves on modulo `h + 1` and, unless that ends the blit,
   * the destination restarts at that row's start.
   */
  function NextCursor(c: Cursor, dst: int, expand: bool, pw: int, w: int, h: int,
                      n: int, base0: int, pd: int): (r: (Cursor, bool))
    requires 1 <= pw <= 4 && 0 <= c.xx < pw && (expand || c.xx == 0) && 0 <= c.xc && 0 <= c.yc && 0 <= w && 0 <= h
    requires 0 <= base0 < n && -n < pd < n && 0 <= dst < n
    ensures 0 <= r.0.xx < pw && (!expand ==> r.0.xx == 0) && 0 <= r.0.dst < n
    ensures r.1 ==> r.0.xx == 0 && r.0.xc == 0 && r.0.yc == CountMod(c.yc + 1, h + 1)
                    && (r.0.yc != 0 ==> r.0.dst == RowBase(n, base0, pd, r.0.yc))
    ensures !r.1 ==> r.0.yc == c.yc && r.0.dst == dst
    ensures r.0.xx == 0 ==> r.0.xc <= w && r.0.shift == c.shift - (if expand then 1 else 8)
    ensures r.0.xx != 0 ==> r.0.xx == c.xx + 1 && r.0.xc == c.xc && r.0.shift == c.shift
  {
    var xx := if expand then (if c.xx + 1 == pw then 0 else c.xx + 1) else c.xx;
    if xx != 0 then (c.(dst := dst, xx := xx), false)
    else
      var shift := c.shift - (if expand then 1 else 8);
      var xc := CountMod(c.xc + (if expand then pw else 1), w + 1);
      if xc != 0 then (Cursor(dst, xc, xx, c.yc, shift), false)
      else
        var yc := CountMod(c.yc + 1, h + 1);
        (Cursor(if yc != 0 then RowBase(n, base0, pd, yc) else dst, xc, xx, yc, shift), true)
  }

  /** Where a chunk is: the cursor, the bytes written and pixels finished so far, and whether the row has ended. */
  datatype Chunk = Chunk(c: Cursor, steps: nat, pixels: nat, rowEnded: bool)

  /**
   * The counters between two bytes of a chunk that started at `start`: in
   * range, the data consumed matching the pixels finished, and the bytes
   * written matching the bytes of those pixels.
   */
  predicate ChunkCount(expand: bool, pw: int, w: int, start: Cursor, st: Chunk)
  {
    0 <= st.c.xx < pw && 0 <= st.c.xc && (!expand ==> st.c.xx == 0)
    && st.pixels <= ChunkPixels(expand, start.shift) && st.steps <= 4 * st.pixels + st.c.xx && st.steps < 0x100
    && st.c.shift == start.shift - (if expand then st.pixels else 8 * st.pixels)
    && (expand ==> st.steps + start.xx == Area(st.pixels, pw) + st.c.xx)
    && (!expand ==> st.steps == st.pixels)
    && (st.pixels >= 1 ==> st.c.xc <= w)
    && st.c.shift >= -1 && (st.c.shift < 0 ==> st.c.xx == 0)
    && (st.rowEnded ==> st.pixels >= 1 && st.c.xx == 0 && st.c.xc == 0)
  }

  /**
   * Where the destination is between two bytes of a chunk: `steps` bytes
   * along the row from the start, or, once the row has ended, at the next
   * row's start with the row counter moved on.
   */
  predicate ChunkPlace(n: int, h: int, base0: int, pd: int, dir: int, start: Cursor, st: Chunk)
    requires 0 <= base0 < n && -n < pd < n && 0 <= start.dst < n && 0 <= h && 0 <= start.yc
  {
    0 <= st.c.dst < n && 0 <= st.c.yc
    && (st.rowEnded ==> st.c.yc == CountMod(start.yc + 1, h + 1)
                        && (st.c.yc != 0 ==> st.c.dst == RowBase(n, base0, pd, st.c.yc)))
    && (!st.rowEnded ==> st.c.yc == start.yc && st.steps < n && st.c.dst == Cell(n, start.dst, st.steps, dir))
  }

  /** The chunk after one more byte, the destination already moved on to `dst`. */
  function NextChunk(n: int, expand: bool, pw: int, w: int, h: int, base0: int, pd: int,
                     st: Chunk, dst: int): Chunk
    requires 1 <= pw <= 4 && 0 <= st.c.xx < pw && (expand || st.c.xx == 0) && 0 <= st.c.xc && 0 <= st.c.yc
    requires 0 <= w && 0 <= h && 0 <= base0 < n && -n < pd < n && 0 <= dst < n
  {
    var r := NextCursor(st.c, dst, expand, pw, w, h, n, base0, pd);
    Chunk(r.0, st.steps + 1, if r.0.xx == 0 then st.pixels + 1 else st.pixels, r.1)
  }

  /** One more byte keeps the counters' invariant and consumes data or moves through the pixel. */
  lemma NextChunkCount(n: int, expand: bool, pw: int, w: int, h: int, base0: int, pd: int,
                       start: Cursor, st: Chunk, dst: int)
    ensures 1 <= pw <= 4 && 0 <= w && 0 <= h && 0 <= base0 < n && -n < pd < n && 0 <= dst < n && 0 <= st.c.yc
            && ((expand && 0 <= start.shift <= 31) || (!expand && start.shift in {7, 15, 23, 31}))
            && ChunkCount(expand, pw, w, start, st) && st.c.shift > -1 && !st.rowEnded ==>
            var next := NextChunk(n, expand, pw, w, h, base0, pd, st, dst);
            ChunkCount(expand, pw, w, start, next) && next.steps == st.steps + 1
            && (next.c.shift < st.c.shift || (next.c.shift == st.c.shift && next.c.xx > st.c.xx))
  {
  }

  /** One more byte keeps the destination where `ChunkPlace` says. */
  lemma NextChunkPlace(n: int, expand: bool, pw: int, w: int, h: int, base0: int, pd: int, dir: int,
                       start: Cursor, st: Chunk, dst: int)
    ensures 1 <= pw <= 4 && 0 <= st.c.xx < pw && (expand || st.c.xx == 0) && 0 <= st.c.xc
            && 0 <= w && 0 <= h && 0 <= base0 < n && -n < pd < n && 0 <= start.dst < n
            && 0 <= st.c.yc && 0 <= start.yc && st.steps + 1 < n
            && ChunkPlace(n, h, base0, pd, dir, start, st) && !st.rowEnded && dst == Cell(n, start.dst, st.steps + 1, dir) ==>
            ChunkPlace(n, h, base0, pd, dir, start, NextChunk(n, expand, pw, w, h, base0, pd, st, dst))
  {
  }

  /** What holds of a chunk between two bytes, memory of size `n` aside: its parameters in range, its counters and its place. */
  predicate ChunkPure(n: int, expand: bool, pw: int, w: int, h: int, base0: int, pd: int, dir: int, start: Cursor, st: Chunk)
  {
    n >= 0x10000 && 1 <= pw <= 4 && (dir == 1 || dir == -1)
    && 0 <= w && 0 <= h && 0 <= base0 < n && -n < pd < n && 0 <= start.dst < n && 0 <= start.yc
    && ((expand && 0 <= start.shift <= 31) || (!expand && start.shift in {7, 15, 23, 31}))
    && ChunkCount(expand, pw, w, start, st) && ChunkPlace(n, h, base0, pd, dir, start, st)
  }

  /** One more byte, the destination moved on one byte along the row, keeps `ChunkPure` and makes progress. */
  lemma NextChunkPure(n: int, expand: bool, pw: int, w: int, h: int, base0: int, pd: int, dir: int,
                      start: Cursor, st: Chunk, dst: int)
    ensures ChunkPure(n, expand, pw, w, h, base0, pd, dir, start, st) && st.c.shift > -1 && !st.rowEnded
            && dst == Cell(n, start.dst, st.steps + 1, dir) ==>
            var next := NextChunk(n, expand, pw, w, h, base0, pd, st, dst);
            ChunkPure(n, expand, pw, w, h, base0, pd, dir, start, next) && next.steps == st.steps + 1
            && (next.c.shift < st.c.shift || (next.c.shift == st.c.shift && next.c.xx > st.c.xx))
  {
    if ChunkPure(n, expand, pw, w, h, base0, pd, dir, start, st) && st.c.shift > -1 && !st.rowEnded
       && st.steps + 1 < n && dst == Cell(n, start.dst, st.steps + 1, dir) {
      NextChunkCount(n, expand, pw, w, h, base0, pd, start, st, dst);
      NextChunkPlace(n, expand, pw, w, h, base0, pd, dir, start, st, dst);
    }
  }

  /**
   * What a chunk is written with: the chip revision, the registers, the
   * pixel width, the pattern skip, the direction, the CPU data, and the
   * destination rectangle (the last pixel and row counter values, the first
   * row's start and the signed pitch).
   */
  datatype Feed = Feed(id: bv8, r: Regs, pw: int, patternX: int, dir: int, cpuDat: bv32,
                       w: int, h: int, base0: int, pd: int)

  /** The parameters of a chunk over a memory of `n` bytes are in range. */
  predicate FeedOk(n: int, f: Feed)
  {
    n >= 0x10000 && 1 <= f.pw <= 4 && (f.dir == 1 || f.dir == -1)
    && 0 <= f.w && 0 <= f.h && 0 <= f.base0 < n && -n < f.pd < n
  }

  /** `ChunkPure` for the parameters of `f`. */
  predicate FeedPure(n: int, f: Feed, start: Cursor, st: Chunk)
  {
    ChunkPure(n, Expanding(f.r), f.pw, f.w, f.h, f.base0, f.pd, f.dir, start, st)
  }

  /** Where a chunk over a memory of `n` bytes may start: in range, at the first bit of a data byte for a copy. */
  predicate ChunkFrom(n: int, f: Feed, start: Cursor)
  {
    FeedOk(n, f) && 0 <= start.dst < n && 0 <= start.xc && 0 <= start.yc && 0 <= start.xx < f.pw
    && ((Expanding(f.r) && 0 <= start.shift <= 31) || (!Expanding(f.r) && start.xx == 0 && start.shift in {7, 15, 23, 31}))
  }

  /** A chunk that has just started is `FeedPure`. */
  lemma ChunkFromPure(n: int, f: Feed, start: Cursor)
    requires ChunkFrom(n, f, start)
    ensures FeedPure(n, f, start, Chunk(start, 0, 0, false))
  {
    assert Cell(n, start.dst, 0, f.dir) == start.dst;
  }

  /** A chunk walk over memory contents: the contents and where the chunk is. */
  datatype Walk = Walk(v: Vram, st: Chunk)

  /** The loop of `gd54xx_mem_sys_src` has stopped: the data is used up or the row has ended. */
  predicate ChunkDone(st: Chunk)
  {
    st.c.shift <= -1 || st.rowEnded
  }

  /** The counters of `c` are in the ranges one more byte needs. */
  predicate Steppable(n: int, f: Feed, c: Cursor)
  {
    FeedOk(n, f) && 0 <= c.xx < f.pw && (Expanding(f.r) || c.xx == 0) && 0 <= c.shift < 32
    && 0 <= c.dst < n && 0 <= c.xc && 0 <= c.yc
  }

  /**
   * One byte of a chunk, on contents `v`: the byte at the cursor takes the
   * value `PokeByte` gives, and the block of the byte after it is marked.
   */
  function Poked(f: Feed, v: Vram, cur: Cursor): (v': Vram)
    requires Steppable(|v.bytes|, f, cur)
    ensures |v'.bytes| == |v.bytes|
  {
    Vram(v.bytes[cur.dst := PokeByte(f, cur, v.bytes[cur.dst])], v.changed + {AddMod(cur.dst, f.dir, |v.bytes|) / BlockSize})
  }

  /**
   * One byte of a system-to-video blit: the byte at the cursor is written
   * (`SysSrcPoke`), and the cursor moves on one byte, whose block is the one
   * marked; the contents are those `Poked` gives.
   */
  method SysSrcStep(mem: VideoMemory, f: Feed, cur: Cursor) returns (dst: int)
    requires Steppable(mem.bytes.Length, f, cur)
    modifies mem, mem.bytes
    ensures dst == AddMod(cur.dst, f.dir, mem.bytes.Length)
    ensures mem.Contents() == Poked(f, old(mem.Contents()), cur)
  {
    SysSrcPoke(mem, f, cur);
    dst := AddMod(cur.dst, f.dir, mem.bytes.Length);
    mem.Mark(dst);
  }

  /**
   * One byte of a chunk, on contents: the byte written as `Poked` says and
   * the counters moved on as `NextChunk` says. A stopped chunk stays where
   * it is.
   */
  function ChunkStep(f: Feed, s: Walk): Walk
  {
    var n := |s.v.bytes|;
    var cur := s.st.c;
    if ChunkDone(s.st) || !Steppable(n, f, cur) then s
    else Walk(Poked(f, s.v, cur), NextChunk(n, Expanding(f.r), f.pw, f.w, f.h, f.base0, f.pd, s.st, AddMod(cur.dst, f.dir, n)))
  }

  /** The chunk from `start` over contents `v0` after `k` passes of the loop, or where it stopped. */
  function ChunkAfter(f: Feed, v0: Vram, start: Cursor, k: nat): Walk
    decreases k, 0
  {
    if k == 0 then Walk(v0, Chunk(start, 0, 0, false)) else ChunkNext(f, v0, start, k - 1)
  }

  /** One pass after `ChunkAfter(f, v0, start, k)`. */
  function ChunkNext(f: Feed, v0: Vram, start: Cursor, k: nat): Walk
    decreases k, 1
  {
    ChunkStep(f, ChunkAfter(f, v0, start, k))
  }

  /** A pass keeps `ChunkPure`, the memory size, and counts one more byte unless the loop has stopped. */
  lemma ChunkStepPure(f: Feed, start: Cursor, s: Walk)
    requires FeedPure(|s.v.bytes|, f, start, s.st)
    ensures |ChunkStep(f, s).v.bytes| == |s.v.bytes| && FeedPure(|s.v.bytes|, f, start, ChunkStep(f, s).st)
    ensures !ChunkDone(s.st) ==> ChunkStep(f, s).st.steps == s.st.steps + 1
  {
    if !ChunkDone(s.st) {
      var n := |s.v.bytes|;
      var dst := AddMod(s.st.c.dst, f.dir, n);
      CellNext(n, start.dst, s.st.steps, f.dir);
      NextChunkPure(n, Expanding(f.r), f.pw, f.w, f.h, f.base0, f.pd, f.dir, start, s.st, dst);
    }
  }

  /** Every pass keeps `ChunkPure` and the memory size. */
  lemma {:induction false} ChunkAfterPure(f: Feed, v0: Vram, start: Cursor, k: nat)
    requires ChunkFrom(|v0.bytes|, f, start)
    ensures |ChunkAfter(f, v0, start, k).v.bytes| == |v0.bytes| && FeedPure(|v0.bytes|, f, start, ChunkAfter(f, v0, start, k).st)
  {
    if k == 0 {
      ChunkFromPure(|v0.bytes|, f, start);
    } else {
      ChunkAfterPure(f, v0, start, k - 1);
      ChunkStepPure(f, start, ChunkAfter(f, v0, start, k - 1));
    }
  }

  /** A pass of the loop that has not stopped is one `ChunkStep`. */
  lemma ChunkSucc(f: Feed, v0: Vram, start: Cursor, k: nat)
    ensures ChunkAfter(f, v0, start, k + 1) == ChunkStep(f, ChunkAfter(f, v0, start, k))
  {
  }

  /** A chunk that has not stopped can take one more byte, and the pass consumes data or moves through the pixel. */
  lemma ChunkStepMoves(f: Feed, start: Cursor, s: Walk)
    requires FeedPure(|s.v.bytes|, f, start, s.st) && !ChunkDone(s.st)
    ensures Steppable(|s.v.bytes|, f, s.st.c)
    ensures var next := ChunkStep(f, s).st;
            next.c.shift < s.st.c.shift || (next.c.shift == s.st.c.shift && next.c.xx > s.st.c.xx)
  {
    var n := |s.v.bytes|;
    NextChunkPure(n, Expanding(f.r), f.pw, f.w, f.h, f.base0, f.pd, f.dir, start, s.st, AddMod(s.st.c.dst, f.dir, n));
    CellNext(n, start.dst, s.st.steps, f.dir);
  }

  /** A pass that has not stopped writes the next byte along the row and marks the block of the byte after it. */
  lemma ChunkStepFrame(f: Feed, start: Cursor, v0: Vram, s: Walk)
    requires |v0.bytes| == |s.v.bytes| && Steppable(|s.v.bytes|, f, s.st.c) && !ChunkDone(s.st)
    requires 0 <= start.dst < |v0.bytes| && s.st.steps < 0x100 && s.st.c.dst == Cell(|v0.bytes|, start.dst, s.st.steps, f.dir)
    requires Frame(v0, s.v, RowCells(|v0.bytes|, start.dst, f.dir, s.st.steps), ShiftedCells(|v0.bytes|, start.dst, f.dir, s.st.steps))
    ensures Frame(v0, ChunkStep(f, s).v, RowCells(|v0.bytes|, start.dst, f.dir, s.st.steps + 1),
                  ShiftedCells(|v0.bytes|, start.dst, f.dir, s.st.steps + 1))
  {
    var n := |v0.bytes|;
    var cur := s.st.c;
    var dst := AddMod(cur.dst, f.dir, n);
    CellNext(n, start.dst, s.st.steps, f.dir);
    BlocksAdd(ShiftedCells(n, start.dst, f.dir, s.st.steps), dst);
    assert ChunkStep(f, s).v == Poked(f, s.v, cur);
  }

  /** Once the loop has stopped, further passes change nothing. */
  lemma {:induction false} ChunkStays(f: Feed, v0: Vram, start: Cursor, k: nat, j: nat)
    requires ChunkDone(ChunkAfter(f, v0, start, k).st)
    ensures ChunkAfter(f, v0, start, k + j) == ChunkAfter(f, v0, start, k)
  {
    if j > 0 {
      ChunkStays(f, v0, start, k, j - 1);
    }
  }

  /** While the loop runs, the `k`-th pass has written `k` bytes. */
  lemma {:induction false} ChunkCounts(f: Feed, v0: Vram, start: Cursor, k: nat)
    requires ChunkFrom(|v0.bytes|, f, start)
    ensures !ChunkDone(ChunkAfter(f, v0, start, k).st) ==> ChunkAfter(f, v0, start, k).st.steps == k
  {
    if k > 0 {
      ChunkCounts(f, v0, start, k - 1);
      ChunkAfterPure(f, v0, start, k - 1);
      ChunkStepPure(f, start, ChunkAfter(f, v0, start, k - 1));
    }
  }

  /**
   * After `k` passes the memory has its size and fewer than 256 bytes are
   * written; a chunk that has not stopped can take one more byte, at the
   * `steps`-th byte along the row, and that pass counts one more byte and
   * consumes data or moves through the pixel.
   */
  lemma ChunkAt(f: Feed, v0: Vram, start: Cursor, k: nat)
    requires ChunkFrom(|v0.bytes|, f, start)
    ensures var s := ChunkAfter(f, v0, start, k);
            |s.v.bytes| == |v0.bytes| && s.st.steps < 0x100
            && (!ChunkDone(s.st) ==>
                  Steppable(|v0.bytes|, f, s.st.c) && s.st.c.dst == Cell(|v0.bytes|, start.dst, s.st.steps, f.dir)
                  && ChunkStep(f, s).st.steps == s.st.steps + 1
                  && (ChunkStep(f, s).st.c.shift < s.st.c.shift
                      || (ChunkStep(f, s).st.c.shift == s.st.c.shift && ChunkStep(f, s).st.c.xx > s.st.c.xx)))
  {
    var s := ChunkAfter(f, v0, start, k);
    ChunkAfterPure(f, v0, start, k);
    if !ChunkDone(s.st) {
      ChunkStepPure(f, start, s);
      ChunkStepMoves(f, start, s);
    }
  }

  /**
   * After `k` passes only the bytes along the row from the start are
   * written, one per pass, and the blocks marked are those of the bytes one
   * further on.
   */
  predicate FrameAt(f: Feed, v0: Vram, start: Cursor, k: nat)
  {
    var s := ChunkAfter(f, v0, start, k);
    s.st.steps < |v0.bytes| && 0 <= start.dst < |v0.bytes|
    && Frame(v0, s.v, RowCells(|v0.bytes|, start.dst, f.dir, s.st.steps), ShiftedCells(|v0.bytes|, start.dst, f.dir, s.st.steps))
  }

  /** `FrameAt` holds after pass `k`, given that it holds before. */
  lemma FrameSucc(f: Feed, v0: Vram, start: Cursor, k: nat)
    requires ChunkFrom(|v0.bytes|, f, start) && k > 0
    ensures FrameAt(f, v0, start, k - 1) ==> FrameAt(f, v0, start, k)
  {
    var p := ChunkAfter(f, v0, start, k - 1);
    ChunkAt(f, v0, start, k - 1);
    ChunkAt(f, v0, start, k);
    if FrameAt(f, v0, start, k - 1) && !ChunkDone(p.st) {
      ChunkStepFrame(f, start, v0, p);
    }
  }

  /**
   * The first `k` passes write only the bytes along the row from the
   * start, one per pass, and mark the blocks of the bytes one further on.
   */
  lemma {:induction false} ChunkFrame(f: Feed, v0: Vram, start: Cursor, k: nat)
    requires ChunkFrom(|v0.bytes|, f, start)
    ensures FrameAt(f, v0, start, k)
  {
    if k == 0 {
      ChunkAt(f, v0, start, 0);
    } else {
      ChunkFrame(f, v0, start, k - 1);
      FrameSucc(f, v0, start, k);
    }
  }

  /**
   * One pass of the loop of `gd54xx_mem_sys_src`: one byte written, the
   * destination moved on and the counters advanced, as `ChunkStep` says.
   */
  method SysSrcNext(mem: VideoMemory, f: Feed, st: Chunk)
    returns (next: Chunk)
    requires Steppable(mem.bytes.Length, f, st.c) && !ChunkDone(st)
    modifies mem, mem.bytes
    ensures Walk(mem.Contents(), next) == ChunkStep(f, Walk(old(mem.Contents()), st))
  {
    var n := mem.bytes.Length;
    var dst := SysSrcStep(mem, f, st.c);
    next := NextChunk(n, Expanding(f.r), f.pw, f.w, f.h, f.base0, f.pd, st, dst);
  }

  /**
   * One chunk of a system-to-video blit (the loop of `gd54xx_mem_sys_src`):
   * writes `steps` bytes along the row from `start.dst`, one per byte of
   * each of `pixels` pixels, and stops after the whole chunk or, `rowEnded`,
   * at the end of the row. Only those bytes change; the blocks marked are
   * those of the `steps` bytes after the start, since the code marks after
   * moving on. A copy writes one byte per pixel; colour expansion `pw` per
   * pixel, less the bytes of the first pixel done by an earlier chunk. The
   * memory and counters are those of `ChunkAfter` after the passes made.
   */
  method SysSrcWalk(mem: VideoMemory, f: Feed, start: Cursor)
    returns (st: Chunk)
    requires ChunkFrom(mem.bytes.Length, f, start)
    modifies mem, mem.bytes
    ensures ChunkDone(st) && Walk(mem.Contents(), st) == ChunkAfter(f, old(mem.Contents()), start, st.steps)
  {
    ghost var v0 := mem.Contents();
    st := Chunk(start, 0, 0, false);
    while !ChunkDone(st)
      invariant mem.bytes.Length == |v0.bytes|
      invariant Walk(mem.Contents(), st) == ChunkAfter(f, v0, start, st.steps)
      decreases st.c.shift + 1, f.pw - st.c.xx
    {
      ChunkAt(f, v0, start, st.steps);
      ChunkSucc(f, v0, start, st.steps);
      st := SysSrcNext(mem, f, st);
    }
  }

  /** The bytes a whole chunk starting at bit `shift` writes: `pw` per pixel for colour expansion, one per pixel for a copy. */
  function ChunkBytes(expand: bool, pw: int, shift: int): nat
    requires 1 <= pw <= 4 && -1 <= shift
  {
    if expand then Area(ChunkPixels(expand, shift), pw) else ChunkPixels(expand, shift)
  }

  /**
   * A finished chunk: the pixel counter at a pixel boundary and inside the
   * row; at most 128 bytes written, `pw` per pixel (a copy: one); the whole
   * chunk consumed unless the row ended first, and then the cursor at the
   * next row's start.
   */
  lemma ChunkEnd(n: int, expand: bool, pw: int, w: int, h: int, base0: int, pd: int, dir: int, start: Cursor, st: Chunk)
    requires ChunkPure(n, expand, pw, w, h, base0, pd, dir, start, st) && start.xx == 0
    requires st.c.shift == -1 || st.rowEnded
    ensures st.c.xx == 0 && st.c.xc <= w && 1 <= st.pixels <= ChunkPixels(expand, start.shift) && st.steps <= 128
    ensures st.steps == (if expand then Area(st.pixels, pw) else st.pixels)
    ensures !st.rowEnded ==> st.steps == ChunkBytes(expand, pw, start.shift)
                             && st.c.yc == start.yc && st.c.dst == Cell(n, start.dst, st.steps, dir)
    ensures st.rowEnded ==> st.c.xc == 0 && st.c.yc == CountMod(start.yc + 1, h + 1)
                            && (st.c.yc != 0 ==> st.c.dst == RowBase(n, base0, pd, st.c.yc))
  {
  }

  /** Where a chunk from the row position (`d0`, `xc`, `yc`) starts: at a pixel boundary, at the first bit `FirstShift` gives. */
  function ChunkStart(f: Feed, d0: int, xc: int, yc: int): Cursor
  {
    Cursor(d0, xc, 0, yc, FirstShift(f.r, xc, 0))
  }

  /**
   * The whole chunk from the row position (`d0`, `xc`, `yc`) over contents
   * `v0`: the loop stops within 128 passes, at a pixel boundary inside the
   * row; unless the row ended, the whole chunk is written and the
   * destination has moved on by it; when the row ended, the pixel counter is
   * 0, the row counter has moved on modulo `h + 1` and the destination is at
   * that row's start.
   */
  function ChunkWalk(f: Feed, v0: Vram, d0: int, xc: int, yc: int): (s: Walk)
    requires FeedOk(|v0.bytes|, f) && 0 <= d0 < |v0.bytes| && 0 <= xc && 0 <= yc
    ensures |s.v.bytes| == |v0.bytes| && ChunkDone(s.st)
    ensures s.st.steps <= 128 && s.st.c.xx == 0 && 0 <= s.st.c.xc <= f.w && 0 <= s.st.c.yc && 0 <= s.st.c.dst < |v0.bytes|
    ensures !s.st.rowEnded ==> s.st.steps == ChunkBytes(Expanding(f.r), f.pw, FirstShift(f.r, xc, 0))
                               && s.st.c.yc == yc && s.st.c.dst == Cell(|v0.bytes|, d0, s.st.steps, f.dir)
    ensures s.st.rowEnded ==> s.st.c.xc == 0 && s.st.c.yc == CountMod(yc + 1, f.h + 1)
                              && (s.st.c.yc != 0 ==> s.st.c.dst == RowBase(|v0.bytes|, f.base0, f.pd, s.st.c.yc))
    ensures Frame(v0, s.v, RowCells(|v0.bytes|, d0, f.dir, s.st.steps), ShiftedCells(|v0.bytes|, d0, f.dir, s.st.steps))
  {
    var start := ChunkStart(f, d0, xc, yc);
    var s := ChunkAfter(f, v0, start, 128);
    ChunkAfterPure(f, v0, start, 128);
    ChunkFrame(f, v0, start, 128);
    ChunkCounts(f, v0, start, 128);
    ChunkEnd(|v0.bytes|, Expanding(f.r), f.pw, f.w, f.h, f.base0, f.pd, f.dir, start, s.st);
    s
  }

  /** A chunk from a pixel boundary that stops after `k` passes has stopped for good by 128. */
  lemma ChunkSettles(f: Feed, v0: Vram, start: Cursor, k: nat)
    requires ChunkFrom(|v0.bytes|, f, start) && start.xx == 0
    requires ChunkAfter(f, v0, start, k).st.steps == k && ChunkDone(ChunkAfter(f, v0, start, k).st)
    ensures ChunkAfter(f, v0, start, 128) == ChunkAfter(f, v0, start, k)
  {
    var s := ChunkAfter(f, v0, start, k);
    ChunkAfterPure(f, v0, start, k);
    ChunkEnd(|v0.bytes|, Expanding(f.r), f.pw, f.w, f.h, f.base0, f.pd, f.dir, start, s.st);
    ChunkStays(f, v0, start, k, 128 - k);
  }

  /** One chunk from the row position (`d0`, `xc`, `yc`): the memory and counters `ChunkWalk` gives. */
  method SysSrcChunk(mem: VideoMemory, f: Feed, d0: int, xc: int, yc: int)
    returns (st: Chunk)
    requires FeedOk(mem.bytes.Length, f) && 0 <= d0 < mem.bytes.Length && 0 <= xc && 0 <= yc
    modifies mem, mem.bytes
    ensures Walk(mem.Contents(), st) == ChunkWalk(f, old(mem.Contents()), d0, xc, yc)
  {
    ghost var v0 := mem.Contents();
    var start := ChunkStart(f, d0, xc, yc);
    st := SysSrcWalk(mem, f, start);
    ChunkSettles(f, v0, start, st.steps);
  }

  /** The chunk parameters of a blit with registers `r`, rectangle `sh`, counters `c` and CPU data `cpuDat`. */
  function FeedOf(id: bv8, r: Regs, sh: Shape, c: Counters, cpuDat: bv32): Feed
  {
    Feed(id, r, c.pixelWidth, c.patternX, c.dir, cpuDat, sh.w, sh.h, sh.dstBase, sh.dpd)
  }

  /**
   * One call of `gd54xx_mem_sys_src` on a running blit with registers `r`
   * and counters `c`, on contents `v0`: the chunk of data `cpuDat` written
   * along the current row from `dst_addr_backup` (`ChunkWalk`), the
   * counters with the destination, pixel and row counters where the chunk
   * left them, the bytes written, and whether the row ended.
   */
  function SrcChunk(id: bv8, r: Regs, sh: Shape, c: Counters, cpuDat: bv32, v0: Vram): (res: (Vram, Counters, nat, bool))
    requires |v0.bytes| >= 0x10000 && sh.Ok(|v0.bytes|) && c.Valid(|v0.bytes|) && c.xxCount == 0
    ensures |res.0.bytes| == |v0.bytes| && res.1.Valid(|v0.bytes|) && res.1.xxCount == 0 && res.2 <= 128
    ensures res.1 == c.(dstAddrBackup := res.1.dstAddrBackup, xCount := res.1.xCount, yCount := res.1.yCount)
    ensures res.1.xCount <= sh.w
    ensures Frame(v0, res.0, RowCells(|v0.bytes|, c.dstAddrBackup, c.dir, res.2), ShiftedCells(|v0.bytes|, c.dstAddrBackup, c.dir, res.2))
    ensures !res.3 ==> res.2 == ChunkBytes(Expanding(r), c.pixelWidth, FirstShift(r, c.xCount, 0))
                       && res.1.yCount == c.yCount && res.1.dstAddrBackup == Cell(|v0.bytes|, c.dstAddrBackup, res.2, c.dir)
    ensures res.3 ==> res.1.xCount == 0 && res.1.yCount == CountMod(c.yCount + 1, sh.h + 1)
                      && (res.1.yCount != 0 ==> res.1.dstAddrBackup == RowBase(|v0.bytes|, sh.dstBase, sh.dpd, res.1.yCount))
  {
    var s := ChunkWalk(FeedOf(id, r, sh, c, cpuDat), v0, c.dstAddrBackup, c.xCount, c.yCount);
    (s.v, c.Moved(|v0.bytes|, s.st.c.dst, c.srcAddrBackup, s.st.c.xc, s.st.c.yc), s.st.steps, s.st.rowEnded)
  }

  /**
   * One call of `gd54xx_mem_sys_src` on a running blit: memory, counters
   * and the row end as `SrcChunk` gives them. Only the `steps` bytes from
   * `dst_addr_backup` change and the blocks marked are those one byte
   * further on.
   */
  method SysSrcRun(mem: VideoMemory, id: bv8, r: Regs, sh: Shape, c: Counters, cpuDat: bv32)
    returns (c': Counters, steps: nat, rowEnded: bool)
    requires mem.bytes.Length >= 0x10000 && sh.Ok(mem.bytes.Length) && c.Valid(mem.bytes.Length) && c.xxCount == 0
    modifies mem, mem.bytes
    ensures (mem.Contents(), c', steps, rowEnded) == SrcChunk(id, r, sh, c, cpuDat, old(mem.Contents()))
  {
    var n := mem.bytes.Length;
    var st := SysSrcChunk(mem, FeedOf(id, r, sh, c, cpuDat), c.dstAddrBackup, c.xCount, c.yCount);
    c' := c.Moved(n, st.c.dst, c.srcAddrBackup, st.c.xc, st.c.yc);
    steps, rowEnded := st.steps, st.rowEnded;
  }
}
