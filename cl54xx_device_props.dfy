/*
 * What the CL-GD54xx router promises across several byte accesses: four
 * bytes streamed into an empty latch hand the engine one dword, four bytes
 * streamed out of the memory-to-system buffer are the buffer's next four
 * bytes, and a dword stored through the banked or the linear window reads
 * back unchanged.
 */
module Gd54xxDeviceProps {
  import opened Gd54xxOps
  import opened Gd54xxRegs
  import opened Gd54xxLanes
  import opened Gd54xxMemory
  import opened Gd54xxEngine
  import opened Gd54xxDevice

  /** None of the four bytes of a linear dword access at `addr` falls into the MMIO window. */
  predicate OutsideWindow(c: Chip, d: Dev, addr: nat)
  {
    var n := |d.v.bytes|;
    !InMmioWindow(c, n, addr % 0x400000) && !InMmioWindow(c, n, (addr + 1) % 0x400000)
    && !InMmioWindow(c, n, (addr + 2) % 0x400000) && !InMmioWindow(c, n, (addr + 3) % 0x400000)
  }

  /** The four bytes of a dword access at `addr` lie in one aperture quadrant. */
  predicate OneQuadrant(m: Mapping, addr: nat)
    requires m.apertureMask == 0 || m.apertureMask == 3
  {
    Quadrant(m, addr + 1) == Quadrant(m, addr) && Quadrant(m, addr + 2) == Quadrant(m, addr)
    && Quadrant(m, addr + 3) == Quadrant(m, addr)
  }

  /** None of the four bytes of an MMIO dword access at `addr` is a register access. */
  predicate NoRegisters(c: Chip, addr: nat)
  {
    !DoMmio(c.cfg.sr17, addr) && !DoMmio(c.cfg.sr17, addr + 1) && !DoMmio(c.cfg.sr17, addr + 2) && !DoMmio(c.cfg.sr17, addr + 3)
  }

  /** The engine after four bytes have been taken from the buffer without refilling it. */
  function Drained4(e: Engine): Engine
  {
    e.(blt := e.blt.(msdBufPos := e.blt.msdBufPos + 4, msdBufCnt := e.blt.msdBufCnt - 4))
  }

  /** Latching a byte keeps a system-to-screen transfer waiting. */
  lemma LatchedWaits(e: Engine, ap: int, val: bv8)
    requires 0 <= e.blt.sysCnt < 4 && SrcWaiting(e)
    ensures SrcWaiting(Latched(e, ap, val))
  {
  }

  /**
   * Three bytes into an empty latch only latch; the fourth hands the whole
   * dword to the engine: the state is the one `DwordFed` gives for the
   * dword `Placed` assembles, whatever the quadrants `q` of the accesses.
   */
  lemma {:induction false} FourFed(c: Chip, d: Dev, q: seq<int>, bs: seq<bv8>)
    requires DevOk(d) && d.e.blt.sysCnt == 0 && |q| == 4 && |bs| == 4
    requires q[1] == q[0] && q[2] == q[0] && q[3] == q[0]
    ensures SysSrcWriteOn(c, SysSrcWriteOn(c, SysSrcWriteOn(c, SysSrcWriteOn(c, d, q[0], bs[0]), q[1], bs[1]), q[2], bs[2]), q[3], bs[3])
         == DwordFed(c, d, Placed(d.e.regs, q[0], bs))
  {
    var ap := q[0];
    var l1 := Latched(d.e, ap, bs[0]);
    var l2 := Latched(l1, ap, bs[1]);
    var l3 := Latched(l2, ap, bs[2]);
    assert SysSrcWriteOn(c, d, ap, bs[0]) == d.(e := l1);
    assert SysSrcWriteOn(c, d.(e := l1), ap, bs[1]) == d.(e := l2);
    assert SysSrcWriteOn(c, d.(e := l2), ap, bs[2]) == d.(e := l3);
    FourLatched(d.e, ap, bs);
  }

  /**
   * `gd54xx_writel` while a system-to-screen transfer waits with an empty
   * latch: the four streamed bytes (`Streamed32`, swapped for dword-granular
   * colour expansion) fill the latch least significant first, and the engine
   * gets that dword.
   */
  lemma {:induction false} WriteLFeeds(c: Chip, d: Dev, addr: nat, val: bv32)
    requires DevOk(d) && SrcWaiting(d.e) && d.e.blt.sysCnt == 0
    ensures WriteLOn(c, d, addr, val) == DwordFed(c, d, Streamed32(d.e.regs, val))
  {
    var w := Streamed32(d.e.regs, val);
    var bs := Bytes32(w);
    var e := d.e;
    var d1 := SysSrcWriteOn(c, d, 0, bs[0]);
    LatchedWaits(e, 0, bs[0]);
    var d2 := SysSrcWriteOn(c, d1, 0, bs[1]);
    LatchedWaits(d1.e, 0, bs[1]);
    var d3 := SysSrcWriteOn(c, d2, 0, bs[2]);
    LatchedWaits(d2.e, 0, bs[2]);
    FourFed(c, d, [0, 0, 0, 0], bs);
    Compose32Lanes(w);
  }

  /**
   * `gd54xx_writel_linear` in SVGA modes outside the MMIO window while a
   * system-to-screen transfer waits with an empty latch (no second
   * aperture): the engine gets the dword `Placed` assembles from the four
   * bytes in the access's quadrant.
   */
  lemma {:induction false} WriteLLinearFeeds(c: Chip, d: Dev, addr: nat, val: bv32)
    requires DevOk(d) && Svga(c) && OutsideWindow(c, d, addr) && OneQuadrant(d.m, addr)
    requires SrcWaiting(d.e) && !Aperture2On(c.id, d.e) && d.e.blt.sysCnt == 0
    ensures WriteLLinearOn(c, d, addr, val) == DwordFed(c, d, Placed(d.e.regs, Quadrant(d.m, addr), Bytes32(val)))
  {
    var ap := Quadrant(d.m, addr);
    var bs := Bytes32(val);
    var e := d.e;
    var d1 := SysSrcWriteOn(c, d, ap, bs[0]);
    LinearByteFeeds(c, d, addr, bs[0]);
    LatchedWaits(e, ap, bs[0]);
    var d2 := SysSrcWriteOn(c, d1, ap, bs[1]);
    LinearByteFeeds(c, d1, addr + 1, bs[1]);
    LatchedWaits(d1.e, ap, bs[1]);
    var d3 := SysSrcWriteOn(c, d2, ap, bs[2]);
    LinearByteFeeds(c, d2, addr + 2, bs[2]);
    LatchedWaits(d2.e, ap, bs[2]);
    LinearByteFeeds(c, d3, addr + 3, bs[3]);
    FourFed(c, d, [ap, ap, ap, ap], bs);
    assert WriteLLinearOn(c, d, addr, val) == WriteBLinear4On(c, d, addr, bs[0], bs[1], bs[2], bs[3]);
  }

  /** A linear byte write outside the MMIO window goes to a waiting transfer (no second aperture). */
  lemma LinearByteFeeds(c: Chip, d: Dev, addr: nat, val: bv8)
    requires DevOk(d) && Svga(c) && !InMmioWindow(c, |d.v.bytes|, addr % 0x400000)
    requires SrcWaiting(d.e) && !Aperture2On(c.id, d.e)
    ensures WriteBLinearOn(c, d, addr, val) == SysSrcWriteOn(c, d, Quadrant(d.m, addr), val)
  {
  }

  /**
   * `gd5436_aperture2_writel` while a system-to-screen transfer through the
   * second aperture waits with an empty latch: the engine gets the dword
   * `Placed` assembles from the four bytes in the access's quadrant.
   */
  lemma {:induction false} Aperture2WriteLFeeds(c: Chip, d: Dev, addr: nat, val: bv32)
    requires DevOk(d) && OneQuadrant(d.m, addr)
    requires SrcWaiting(d.e) && Aperture2On(c.id, d.e) && d.e.blt.sysCnt == 0
    ensures Aperture2WriteLOn(c, d, addr, val) == DwordFed(c, d, Placed(d.e.regs, Quadrant(d.m, addr), Bytes32(val)))
  {
    var ap := Quadrant(d.m, addr);
    var bs := Bytes32(val);
    var e := d.e;
    var d1 := SysSrcWriteOn(c, d, ap, bs[0]);
    Aperture2ByteFeeds(c, d, addr, bs[0]);
    LatchedWaits(e, ap, bs[0]);
    var d2 := SysSrcWriteOn(c, d1, ap, bs[1]);
    Aperture2ByteFeeds(c, d1, addr + 1, bs[1]);
    LatchedWaits(d1.e, ap, bs[1]);
    var d3 := SysSrcWriteOn(c, d2, ap, bs[2]);
    Aperture2ByteFeeds(c, d2, addr + 2, bs[2]);
    LatchedWaits(d2.e, ap, bs[2]);
    Aperture2ByteFeeds(c, d3, addr + 3, bs[3]);
    FourFed(c, d, [ap, ap, ap, ap], bs);
  }

  /** The four buffer bytes a screen-to-system transfer hands out next, byte `i` adjusted for quadrant `q[i]`. */
  function Taken(e: Engine, buf: seq<bv8>, q: seq<int>): (bs: seq<bv8>)
    requires |buf| == 32 && |q| == 4 && 0 <= e.blt.msdBufPos && e.blt.msdBufPos + 4 <= 32
    ensures |bs| == 4
  {
    var p, mode, ext := e.blt.msdBufPos, e.regs.mode, e.regs.modeext;
    AdjustedInBuffer(mode, ext, q[0], p);
    AdjustedInBuffer(mode, ext, q[1], p + 1);
    AdjustedInBuffer(mode, ext, q[2], p + 2);
    AdjustedInBuffer(mode, ext, q[3], p + 3);
    [buf[PosAdj(mode, ext, q[0], p)], buf[PosAdj(mode, ext, q[1], p + 1)],
     buf[PosAdj(mode, ext, q[2], p + 2)], buf[PosAdj(mode, ext, q[3], p + 3)]]
  }

  /** An adjusted buffer position stays inside the 32-byte buffer. */
  lemma AdjustedInBuffer(mode: bv8, modeext: bv8, ap: int, p: int)
    requires 0 <= p < 32
    ensures 0 <= PosAdj(mode, modeext, ap, p) < 32
  {
  }

  /** Taking a byte from a buffer that holds more keeps the transfer waiting and the registers as they were. */
  lemma DrainedWaits(e: Engine)
    requires e.blt.msdBufCnt > 0 && DestWaiting(e)
    ensures DestWaiting(Drained(e)) && Drained(e).regs == e.regs
    ensures Drained(e).blt.msdBufPos == e.blt.msdBufPos + 1 && Drained(e).blt.msdBufCnt == e.blt.msdBufCnt - 1
  {
  }

  /**
   * Four reads from a buffer holding at least four bytes give the bytes
   * `Taken` names; while a fifth remains, only the read position moved.
   */
  lemma {:induction false} FourTaken(c: Chip, d: Dev, q: seq<int>)
    requires DevOk(d) && |q| == 4 && d.e.blt.msdBufCnt >= 4 && DestWaiting(d.e)
    ensures var r0 := SysDestReadOn(c, d, q[0]);
            var r1 := SysDestReadOn(c, r0.1, q[1]);
            var r2 := SysDestReadOn(c, r1.1, q[2]);
            var r3 := SysDestReadOn(c, r2.1, q[3]);
            [r0.0, r1.0, r2.0, r3.0] == Taken(d.e, d.buf, q)
            && (d.e.blt.msdBufCnt > 4 ==> r3.1 == d.(e := Drained4(d.e)))
  {
    var e0 := d.e;
    var e1 := Drained(e0);
    DrainedWaits(e0);
    var e2 := Drained(e1);
    DrainedWaits(e1);
    var e3 := Drained(e2);
    DrainedWaits(e2);
    assert SysDestReadOn(c, d, q[0]).1 == d.(e := e1);
    assert SysDestReadOn(c, d.(e := e1), q[1]).1 == d.(e := e2);
    assert SysDestReadOn(c, d.(e := e2), q[2]).1 == d.(e := e3);
    if e0.blt.msdBufCnt > 4 {
      DrainedWaits(e3);
      assert Drained(e3) == Drained4(e0);
    }
  }

  /** A banked read while a transfer has data takes the next buffer byte. */
  lemma BankedByteTaken(c: Chip, d: Dev, addr: nat)
    requires DevOk(d) && DestWaiting(d.e)
    ensures ReadOn(c, d, addr) == SysDestReadOn(c, d, 0)
  {
  }

  /**
   * `gd54xx_readl` while a screen-to-system transfer holds at least four
   * bytes: the dword is the buffer's next four bytes, least significant
   * first; with more left only the read position moved.
   */
  lemma {:induction false} ReadLStreams(c: Chip, d: Dev, addr: nat)
    requires DevOk(d) && DestWaiting(d.e) && d.e.blt.msdBufCnt >= 4
    ensures var p := d.e.blt.msdBufPos;
            ReadLOn(c, d, addr).0 == Compose32(d.buf[p], d.buf[p + 1], d.buf[p + 2], d.buf[p + 3])
    ensures d.e.blt.msdBufCnt > 4 ==> ReadLOn(c, d, addr).1 == d.(e := Drained4(d.e))
  {
    var e0 := d.e;
    var e1 := Drained(e0);
    DrainedWaits(e0);
    var e2 := Drained(e1);
    DrainedWaits(e1);
    var e3 := Drained(e2);
    DrainedWaits(e2);
    BankedByteTaken(c, d, addr);
    BankedByteTaken(c, d.(e := e1), addr + 1);
    BankedByteTaken(c, d.(e := e2), addr + 2);
    BankedByteTaken(c, d.(e := e3), addr + 3);
    FourTaken(c, d, [0, 0, 0, 0]);
  }

  /** An MMIO read outside the registers and the overlap takes the next buffer byte of a waiting transfer. */
  lemma MmioByteTaken(c: Chip, d: Dev, addr: nat)
    requires DevOk(d) && DestWaiting(d.e) && !DoMmio(c.cfg.sr17, addr) && !d.m.mmioVramOverlap
    ensures MmioReadOn(c, d, addr) == SysDestReadOn(c, d, 0)
  {
  }

  /**
   * `gd543x_mmio_readl` outside the registers and the overlap while a
   * screen-to-system transfer holds at least four bytes: the buffer's next
   * four bytes, least significant first.
   */
  lemma {:induction false} MmioReadLStreams(c: Chip, d: Dev, addr: nat)
    requires DevOk(d) && NoRegisters(c, addr) && !d.m.mmioVramOverlap && DestWaiting(d.e) && d.e.blt.msdBufCnt >= 4
    ensures var p := d.e.blt.msdBufPos;
            MmioReadLOn(c, d, addr).0 == Compose32(d.buf[p], d.buf[p + 1], d.buf[p + 2], d.buf[p + 3])
    ensures d.e.blt.msdBufCnt > 4 ==> MmioReadLOn(c, d, addr).1 == d.(e := Drained4(d.e))
  {
    var e0 := d.e;
    var e1 := Drained(e0);
    DrainedWaits(e0);
    var e2 := Drained(e1);
    DrainedWaits(e1);
    var e3 := Drained(e2);
    DrainedWaits(e2);
    MmioByteTaken(c, d, addr);
    MmioByteTaken(c, d.(e := e1), addr + 1);
    MmioByteTaken(c, d.(e := e2), addr + 2);
    MmioByteTaken(c, d.(e := e3), addr + 3);
    FourTaken(c, d, [0, 0, 0, 0]);
  }

  /** A linear read in SVGA modes outside the MMIO window takes the next buffer byte of a waiting transfer (no second aperture). */
  lemma LinearByteTaken(c: Chip, d: Dev, addr: nat)
    requires DevOk(d) && Svga(c) && !InMmioWindow(c, |d.v.bytes|, addr % 0x400000)
    requires DestWaiting(d.e) && !Aperture2On(c.id, d.e)
    ensures ReadBLinearOn(c, d, addr) == SysDestReadOn(c, d, Quadrant(d.m, addr))
  {
  }

  /**
   * `gd54xx_readl_linear` in SVGA modes outside the MMIO window while a
   * screen-to-system transfer holds at least four bytes (no second
   * aperture): the buffer's next four bytes, each adjusted for its quadrant.
   */
  lemma {:induction false} ReadLLinearStreams(c: Chip, d: Dev, addr: nat)
    requires DevOk(d) && Svga(c) && OutsideWindow(c, d, addr)
    requires DestWaiting(d.e) && !Aperture2On(c.id, d.e) && d.e.blt.msdBufCnt >= 4
    ensures var bs := Taken(d.e, d.buf, [Quadrant(d.m, addr), Quadrant(d.m, addr + 1), Quadrant(d.m, addr + 2), Quadrant(d.m, addr + 3)]);
            ReadLLinearOn(c, d, addr).0 == Compose32(bs[0], bs[1], bs[2], bs[3])
    ensures d.e.blt.msdBufCnt > 4 ==> ReadLLinearOn(c, d, addr).1 == d.(e := Drained4(d.e))
  {
    var e0 := d.e;
    var e1 := Drained(e0);
    DrainedWaits(e0);
    var e2 := Drained(e1);
    DrainedWaits(e1);
    var e3 := Drained(e2);
    DrainedWaits(e2);
    LinearByteTaken(c, d, addr);
    LinearByteTaken(c, d.(e := e1), addr + 1);
    LinearByteTaken(c, d.(e := e2), addr + 2);
    LinearByteTaken(c, d.(e := e3), addr + 3);
    FourTaken(c, d, [Quadrant(d.m, addr), Quadrant(d.m, addr + 1), Quadrant(d.m, addr + 2), Quadrant(d.m, addr + 3)]);
  }

  /**
   * `gd5436_aperture2_readl` while a screen-to-system transfer through the
   * second aperture holds at least four bytes: the buffer's next four
   * bytes, each adjusted for its quadrant.
   */
  lemma {:induction false} Aperture2ReadLStreams(c: Chip, d: Dev, addr: nat)
    requires DevOk(d) && DestWaiting(d.e) && Aperture2On(c.id, d.e) && d.e.blt.msdBufCnt >= 4
    ensures var bs := Taken(d.e, d.buf, [Quadrant(d.m, addr), Quadrant(d.m, addr + 1), Quadrant(d.m, addr + 2), Quadrant(d.m, addr + 3)]);
            Aperture2ReadLOn(c, d, addr).0 == Compose32(bs[0], bs[1], bs[2], bs[3])
    ensures d.e.blt.msdBufCnt > 4 ==> Aperture2ReadLOn(c, d, addr).1 == d.(e := Drained4(d.e))
  {
    var e0 := d.e;
    var e1 := Drained(e0);
    DrainedWaits(e0);
    var e2 := Drained(e1);
    DrainedWaits(e1);
    var e3 := Drained(e2);
    DrainedWaits(e2);
    Aperture2ByteTaken(c, d, addr);
    Aperture2ByteTaken(c, d.(e := e1), addr + 1);
    Aperture2ByteTaken(c, d.(e := e2), addr + 2);
    Aperture2ByteTaken(c, d.(e := e3), addr + 3);
    FourTaken(c, d, [Quadrant(d.m, addr), Quadrant(d.m, addr + 1), Quadrant(d.m, addr + 2), Quadrant(d.m, addr + 3)]);
  }

  /** A second-aperture read takes the next buffer byte of a transfer routed there. */
  lemma Aperture2ByteTaken(c: Chip, d: Dev, addr: nat)
    requires DevOk(d) && DestWaiting(d.e) && Aperture2On(c.id, d.e)
    ensures Aperture2ReadBOn(c, d, addr) == SysDestReadOn(c, d, Quadrant(d.m, addr))
  {
  }

  /** A second-aperture write goes to a waiting transfer routed there. */
  lemma Aperture2ByteFeeds(c: Chip, d: Dev, addr: nat, val: bv8)
    requires DevOk(d) && SrcWaiting(d.e) && Aperture2On(c.id, d.e)
    ensures Aperture2WriteBOn(c, d, addr, val) == SysSrcWriteOn(c, d, Quadrant(d.m, addr), val)
  {
  }

  /** Consecutive addresses stay apart modulo a memory size of at least four. */
  lemma CellsApart(b: int, n: int, i: int, j: int)
    requires n >= 4 && 0 <= i < j < 4
    ensures (b + i) % n != (b + j) % n
  {
    var x, y := b + i, b + j;
    var k := y / n - x / n;
    assert x == n * (x / n) + x % n && y == n * (y / n) + y % n;
    assert j - i == n * k + (y % n - x % n);
    if k >= 1 {
      assert n * k >= n;
    } else {
      assert n * k <= 0;
    }
  }

  /** The four cells of a banked dword access are distinct. */
  lemma BankedCellsApart(c: Chip, d: Dev, addr: nat)
    requires DevOk(d)
    ensures var k0, k1, k2, k3 := BankedIndex(c, d.m, |d.v.bytes|, addr, 0), BankedIndex(c, d.m, |d.v.bytes|, addr, 1), BankedIndex(c, d.m, |d.v.bytes|, addr, 2), BankedIndex(c, d.m, |d.v.bytes|, addr, 3);
            k0 != k1 && k0 != k2 && k0 != k3 && k1 != k2 && k1 != k3 && k2 != k3
  {
    var b := BankedAddress(addr, d.m.bankedMask, c.cfg.banks);
    var n := |d.v.bytes|;
    CellsApart(b, n, 0, 1);
    CellsApart(b, n, 0, 2);
    CellsApart(b, n, 0, 3);
    CellsApart(b, n, 1, 2);
    CellsApart(b, n, 1, 3);
    CellsApart(b, n, 2, 3);
    assert b + 0 == b;
  }

  /**
   * A dword stored through the banked window while no transfer waits reads
   * back unchanged through the banked window.
   */
  lemma {:induction false} BankedRoundTrip(c: Chip, d: Dev, addr: nat, val: bv32)
    requires DevOk(d) && !SrcWaiting(d.e) && !DestWaiting(d.e)
    ensures ReadLOn(c, WriteLOn(c, d, addr, val), addr).0 == val
  {
    var k0, k1, k2, k3 := BankedIndex(c, d.m, |d.v.bytes|, addr, 0), BankedIndex(c, d.m, |d.v.bytes|, addr, 1), BankedIndex(c, d.m, |d.v.bytes|, addr, 2), BankedIndex(c, d.m, |d.v.bytes|, addr, 3);
    BankedCellsApart(c, d, addr);
    var m := d.v.bytes;
    Updated4(m, k0, k1, k2, k3, Lane32(val, 0), Lane32(val, 1), Lane32(val, 2), Lane32(val, 3));
    var m' := m[k0 := Lane32(val, 0)][k1 := Lane32(val, 1)][k2 := Lane32(val, 2)][k3 := Lane32(val, 3)];
    var d' := WriteLOn(c, d, addr, val);
    assert d'.v.bytes == m';
    assert BankedIndex(c, d'.m, |d'.v.bytes|, addr, 0) == k0 && BankedIndex(c, d'.m, |d'.v.bytes|, addr, 1) == k1;
    assert BankedIndex(c, d'.m, |d'.v.bytes|, addr, 2) == k2 && BankedIndex(c, d'.m, |d'.v.bytes|, addr, 3) == k3;
    Compose32Lanes(val);
  }

  /** Reducing a dword-aligned address modulo a whole number of dwords keeps it aligned. */
  lemma AlignedMod(a: int, n: int)
    requires a % 4 == 0 && n > 0 && n % 4 == 0
    ensures (a % n) % 4 == 0
  {
    var q, m := a / n, n / 4;
    assert n == 4 * m;
    assert a % n == a - n * q;
    assert n * q == 4 * (m * q);
  }

  /**
   * A dword stored through the linear window at an aligned address in SVGA
   * modes, outside the MMIO window, in quadrants 0 to 2 and while no
   * transfer waits, reads back unchanged through the linear window.
   */
  lemma {:induction false} LinearRoundTrip(c: Chip, d: Dev, addr: nat, val: bv32)
    requires DevOk(d) && Svga(c) && !InMmioWindow(c, |d.v.bytes|, addr % 0x400000)
    requires !SrcWaiting(d.e) && !DestWaiting(d.e) && Quadrant(d.m, addr) != 3 && addr % 4 == 0
    ensures ReadLLinearOn(c, WriteLLinearOn(c, d, addr, val), addr).0 == val
  {
    var n := |d.v.bytes|;
    AlignedMod(addr, 0x400000);
    AlignedMod(addr % 0x400000, n);
    var k := LinearIndex(|d.v.bytes|, addr);
    var d' := WriteLLinearOn(c, d, addr, val);
    assert d'.v.bytes == Gd54xxLanes.WriteL(d.v.bytes, Quadrant(d.m, addr), k, val);
    WriteLReadL(d.v.bytes, Quadrant(d.m, addr), k, val);
  }

  /**
   * A register byte written through the MMIO window, when the write starts
   * or resets nothing, reads back through the window as the register layout
   * keeps it (`ReadBack`).
   */
  lemma MmioRegisterRoundTrip(c: Chip, d: Dev, addr: nat, val: bv8)
    requires DevOk(d) && DoMmio(c.cfg.sr17, addr) && WriteAction(c.id, d.e.regs, addr % 256, val) == NoAction
    ensures MmioReadOn(c, MmioWriteOn(c, d, addr, val), addr).0 == ReadBack(c.id, addr % 256, val)
  {
    ReadAfterWrite(c.id, d.e.regs, addr % 256, val);
  }
}
