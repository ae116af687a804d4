/*
 * The state the CL-GD54xx blit engines share: video memory with its map of
 * changed 4 KB blocks, the engine's internal counters, and what a walk over
 * rows of bytes leaves in memory.
 */
module Gd54xxMemory {
  import opened Gd54xxOps
  import opened Gd54xxVisit
  import opened Gd54xxGeometry
  import opened Gd54xxRegs

  /** The contents of video memory and the set of 4 KB blocks marked as changed, as a value. */
  datatype Vram = Vram(bytes: seq<bv8>, changed: set<int>)

  /** Video memory and the map of 4 KB blocks the display must redraw. */
  class VideoMemory {
    const bytes: array<bv8>
    var changed: set<int>

    constructor (size: nat)
      ensures bytes.Length == size && fresh(bytes) && changed == {}
    {
      bytes := new bv8[size](_ => 0);
      changed := {};
    }

    /** The memory and its changed blocks as a value. */
    ghost function Contents(): Vram
      reads this, bytes
    {
      Vram(bytes[..], changed)
    }

    /** Store one byte and mark its block as changed. */
    method Plot(k: int, b: bv8)
      requires 0 <= k < bytes.Length
      modifies this, bytes
      ensures bytes[k] == b && forall j :: 0 <= j < bytes.Length && j != k ==> bytes[j] == old(bytes[j])
      ensures changed == old(changed) + {k / BlockSize}
      ensures Contents() == Vram(old(bytes[..])[k := b], old(changed) + {k / BlockSize})
    {
      bytes[k] := b;
      changed := changed + {k / BlockSize};
    }

    /** Store one byte without marking it. */
    method Poke(k: int, b: bv8)
      requires 0 <= k < bytes.Length
      modifies bytes
      ensures bytes[k] == b && forall j :: 0 <= j < bytes.Length && j != k ==> bytes[j] == old(bytes[j])
      ensures bytes[..] == old(bytes[..])[k := b]
    {
      bytes[k] := b;
    }

    /**
     * Store the bytes `vs` at the indices `ks`, one after the other, each
     * marking its block.
     */
    method PlotAll(ks: seq<int>, vs: seq<bv8>)
      requires |ks| == |vs| && forall i :: 0 <= i < |ks| ==> 0 <= ks[i] < bytes.Length
      modifies this, bytes
      ensures bytes[..] == Updated(old(bytes[..]), ks, vs)
      ensures changed == old(changed) + BlocksOf(ks)
    {
      var i := 0;
      while i < |ks|
        invariant 0 <= i <= |ks|
        invariant bytes[..] == Updated(old(bytes[..]), ks[..i], vs[..i])
        invariant changed == old(changed) + BlocksOf(ks[..i])
      {
        assert ks[..i + 1][..i] == ks[..i] && vs[..i + 1][..i] == vs[..i];
        Plot(ks[i], vs[i]);
        i := i + 1;
      }
      assert ks[..i] == ks && vs[..i] == vs;
    }

    /** Mark the block of index `k` as changed. */
    method Mark(k: int)
      modifies this
      ensures changed == old(changed) + {k / BlockSize}
      ensures Contents() == Vram(old(bytes[..]), old(changed) + {k / BlockSize})
    {
      changed := changed + {k / BlockSize};
    }
  }

  /** Memory `m` after storing `vs[i]` at index `ks[i]`, in order, so a later store wins. */
  function Updated(m: seq<bv8>, ks: seq<int>, vs: seq<bv8>): (m': seq<bv8>)
    requires |ks| == |vs| && forall i :: 0 <= i < |ks| ==> 0 <= ks[i] < |m|
    ensures |m'| == |m|
  {
    if ks == [] then m
    else Updated(m, ks[..|ks| - 1], vs[..|vs| - 1])[ks[|ks| - 1] := vs[|vs| - 1]]
  }

  /** The blocks of a list of memory indices. */
  function BlocksOf(ks: seq<int>): set<int>
  {
    if ks == [] then {} else BlocksOf(ks[..|ks| - 1]) + {ks[|ks| - 1] / BlockSize}
  }

  /** The engine's internal counters, kept beside the programmed registers. */
  datatype Counters = Counters(
    msIsDest: bool,
    dstAddrBackup: int, srcAddrBackup: int,
    heightInternal: int,
    xCount: int, yCount: int, xxCount: int,
    msdBufPos: int, msdBufCnt: int,
    sysSrc32: bv32, sysCnt: int,
    pixelWidth: int, patternX: int, dir: int)
  {
    /** The ranges the code keeps the counters in, for a memory of `n` bytes. */
    predicate Valid(n: int)
    {
      0 <= dstAddrBackup < n && 0 <= srcAddrBackup < n
      && 0 <= heightInternal <= 0xffff
      && 0 <= xCount <= 0xffff && 0 <= yCount <= 0xffff && 0 <= xxCount < 4
      && 0 <= msdBufPos && 0 <= msdBufCnt && msdBufPos + msdBufCnt <= 32
      && 0 <= sysCnt < 4
      && 1 <= pixelWidth <= 4 && 0 <= patternX <= 31 && (dir == 1 || dir == -1)
    }

    /** The counters after an engine stopped with its row starts, row counter and pixel counters at the given values. */
    function Stopped(n: int, dstBase: int, srcBase: int, hi: int, xc: int, yc: int): (c: Counters)
      requires Valid(n) && 0 <= dstBase < n && 0 <= srcBase < n && 0 <= hi <= 0xffff && 0 <= xc < 32 && 0 <= yc < 8
      ensures c.Valid(n)
      ensures c.dstAddrBackup == dstBase && c.srcAddrBackup == srcBase && c.heightInternal == hi
      ensures c.xCount == xc && c.yCount == yc
    {
      this.(dstAddrBackup := dstBase, srcAddrBackup := srcBase, heightInternal := hi, xCount := xc, yCount := yc)
    }

    /** The counters after a streaming step left the row starts and the pixel and row counters at the given values. */
    function Moved(n: int, dst: int, src: int, xc: int, yc: int): (c: Counters)
      requires Valid(n) && 0 <= dst < n && 0 <= src < n && 0 <= xc <= 0xffff && 0 <= yc <= 0xffff
      ensures c.Valid(n)
      ensures c == this.(dstAddrBackup := dst, srcAddrBackup := src, xCount := xc, yCount := yc)
    {
      this.(dstAddrBackup := dst, srcAddrBackup := src, xCount := xc, yCount := yc)
    }

    /** The counters after a buffer fill moved the source on and left `cnt` bytes for the CPU to read from the buffer's start. */
    function Filled(n: int, src: int, xc: int, yc: int, cnt: int): (c: Counters)
      requires Valid(n) && 0 <= src < n && 0 <= xc <= 0xffff && 0 <= yc <= 0xffff && 0 <= cnt <= 32
      ensures c.Valid(n)
      ensures c == this.(srcAddrBackup := src, xCount := xc, yCount := yc, msdBufPos := 0, msdBufCnt := cnt)
    {
      this.(srcAddrBackup := src, xCount := xc, yCount := yc, msdBufPos := 0, msdBufCnt := cnt)
    }
  }

  /** A 32-bit address register as an index into a memory of `n` bytes (the code masks it with `vram_mask`). */
  function Wrapped(a: bv32, n: int): (k: int)
    requires 0 < n
    ensures 0 <= k < n
  {
    U32(a) % n
  }

  /**
   * The sequencer and graphics-controller settings the router reads. They
   * are written through the VGA ports, which are outside this model, so a
   * device keeps them fixed.
   */
  datatype Config = Config(
    pci: bool, vlb: bool, memEnabled: bool,
    sr07: bv8, sr17: bv8, gr06: bv8, gr0b: bv8,
    banks: (int, int))

  /** `status` after `reset_blit`: START, BUSY and FIFO-used cleared, the other bits kept. */
  function ClearedStatus(status: bv8): (s: bv8)
    ensures s & (StatusStart | StatusBusy | StatusFifoUsed) == 0
    ensures s & !(StatusStart | StatusBusy | StatusFifoUsed) == status & !(StatusStart | StatusBusy | StatusFifoUsed)
  {
    status & !(StatusStart | StatusBusy | StatusFifoUsed)
  }

  /** Signed pitch: `pitch` bytes in direction `dir`. */
  function Pitch(pitch: bv16, dir: int): (p: int)
    ensures -0x10000 < p < 0x10000
  {
    if dir < 0 then -U16(pitch) else U16(pitch)
  }

  /**
   * The blit rectangle in memory terms: the width and height counters' limits,
   * the wrapped destination and source start addresses, and the two pitches
   * signed by the blit direction.
   */
  datatype Shape = Shape(w: int, h: int, dstBase: int, srcBase: int, dpd: int, spd: int)
  {
    predicate Ok(n: int)
    {
      0 <= w <= 0xffff && 0 <= h <= 0xffff && 0 <= dstBase < n && 0 <= srcBase < n
      && -n < dpd < n && -n < spd < n
    }
  }

  /** The rectangle a register file describes, for a memory of `n` bytes and direction `dir`. */
  function ShapeOf(r: Regs, dir: int, n: int): (s: Shape)
    requires n >= 0x10000
    ensures s.Ok(n)
  {
    Shape(U16(r.width), U16(r.height), Wrapped(r.dstAddr, n), Wrapped(r.srcAddr, n),
          Pitch(r.dstPitch, dir), Pitch(r.srcPitch, dir))
  }

  /**
   * `v` differs from the earlier contents `v0` at most on the indices in
   * `written`, and exactly the blocks of the indices in `marked` have been
   * marked since.
   */
  predicate Frame(v0: Vram, v: Vram, written: set<int>, marked: set<int>)
  {
    |v.bytes| == |v0.bytes|
    && (forall k :: 0 <= k < |v0.bytes| && k !in written ==> v.bytes[k] == v0.bytes[k])
    && v.changed == v0.changed + Blocks(marked)
  }
}
