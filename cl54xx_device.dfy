/*
 * The CL-GD54xx memory router on a value of the device state: the path a
 * CPU access through the banked window, the memory-mapped registers, the
 * linear window or the second aperture takes, and what it leaves. While a
 * transfer between system memory and the screen waits, byte accesses go to
 * the transfer engine instead of video memory, and word and dword accesses
 * are split into byte accesses that each choose their path again. The
 * class in `Gd54xx` performs the same accesses in place and is proved equal
 * to these functions.
 */
module Gd54xxDevice {
  import opened Gd54xxOps
  import opened Gd54xxRegs
  import opened Gd54xxLanes
  import opened Gd54xxMemory
  import opened Gd54xxEngine
  import opened Gd54xxGeometry

  /** The chip revision and the router settings, fixed for a device. */
  datatype Chip = Chip(id: bv8, cfg: Config)

  /** The device state: the engine, video memory, the 32-byte memory-to-system buffer and the mapping. */
  datatype Dev = Dev(e: Engine, v: Vram, buf: seq<bv8>, m: Mapping)

  /** The ranges the code keeps the state in. */
  predicate DevOk(d: Dev)
  {
    |d.v.bytes| >= 0x10000 && |d.v.bytes| % 4 == 0 && |d.buf| == 32 && d.e.Ok(|d.v.bytes|)
    && (d.m.apertureMask == 0 || d.m.apertureMask == 3)
    && (d.m.bankedMask == 0x7fff || d.m.bankedMask == 0xffff)
  }

  /** The engine is paused. */
  predicate Paused(e: Engine)
  {
    e.regs.status & StatusPaused != 0
  }

  /** A system-to-screen transfer is waiting for CPU data. */
  predicate SrcWaiting(e: Engine)
  {
    e.countMinusOne != 0 && !e.blt.msIsDest && !Paused(e)
  }

  /** A screen-to-system transfer has data for the CPU. */
  predicate DestWaiting(e: Engine)
  {
    e.countMinusOne != 0 && e.blt.msIsDest && !Paused(e)
  }

  /** The second aperture carries the transfer data (5436 and later, colour expansion, APERTURE2 set). */
  predicate Aperture2On(id: bv8, e: Engine)
  {
    Is5436(id) && e.regs.mode & ModeColorExpand != 0 && e.regs.status & StatusAperture2 != 0
  }

  /** Dword-granular colour expansion, for which the banked window swaps the bytes of streamed words and dwords. */
  predicate DwordExpand(r: Regs)
  {
    r.mode & ModeColorExpand != 0 && r.modeext & ExtDwordGranularity != 0
  }

  /** The mapping after `gd543x_recalc_mapping`. */
  function Remapped(c: Chip, prev: Mapping): Mapping
  {
    RecalcMapping(c.id, c.cfg.pci, c.cfg.vlb, c.cfg.memEnabled, c.cfg.sr07, c.cfg.gr06, c.cfg.gr0b, prev)
  }

  /** SR7 selects an extended (SVGA) pixel mode, so the linear window goes through the Cirrus router. */
  predicate Svga(c: Chip)
  {
    c.cfg.sr07 & Sr7Svga != 0
  }

  /** The top 256 bytes of an `n`-byte video memory answer as MMIO registers when SR17 enables that. */
  predicate InMmioWindow(c: Chip, n: int, a: int)
  {
    n - 256 <= a < n && c.cfg.sr17 & Sr17MmioEnable != 0 && c.cfg.sr17 & Sr17UsePciAddr != 0
  }

  /** The aperture quadrant of a linear or second-aperture address under mapping `m`. */
  function Quadrant(m: Mapping, addr: nat): (ap: int)
    requires m.apertureMask == 0 || m.apertureMask == 3
    ensures 0 <= ap < 4
  {
    Aperture(addr, m.apertureMask)
  }

  /** The index in an `n`-byte video memory byte `i` of a banked-window access at `addr` reaches under mapping `m`. */
  function BankedIndex(c: Chip, m: Mapping, n: int, addr: nat, i: nat): (k: int)
    requires n > 0 && (m.bankedMask == 0x7fff || m.bankedMask == 0xffff)
    ensures 0 <= k < n
  {
    (BankedAddress(addr, m.bankedMask, c.cfg.banks) + i) % n
  }

  /** The index in an `n`-byte video memory of a linear-window address in SVGA modes: the 4 MB mask, then the memory size. */
  function LinearIndex(n: int, addr: nat): (a: int)
    requires n > 0
    ensures 0 <= a < n
  {
    addr % 0x400000 % n
  }

  /** Video memory after one byte store: the byte replaced and its 4 KB block marked. */
  function Plotted(v: Vram, k: int, b: bv8): (v': Vram)
    requires 0 <= k < |v.bytes|
    ensures |v'.bytes| == |v.bytes| && v'.bytes[k] == b
  {
    Vram(v.bytes[k := b], v.changed + {k / BlockSize})
  }

  /** Video memory after the byte stores `vs` at `ks`, in order, each marking its block. */
  function PlottedAll(v: Vram, ks: seq<int>, vs: seq<bv8>): (v': Vram)
    requires |ks| == |vs| && forall i :: 0 <= i < |ks| ==> 0 <= ks[i] < |v.bytes|
    ensures |v'.bytes| == |v.bytes|
  {
    Vram(Updated(v.bytes, ks, vs), v.changed + BlocksOf(ks))
  }

  /** The four bytes of a dword, least significant first. */
  function Bytes32(v: bv32): (bs: seq<bv8>)
    ensures |bs| == 4
  {
    [Lane32(v, 0), Lane32(v, 1), Lane32(v, 2), Lane32(v, 3)]
  }

  /**
   * `gd54xx_mem_sys_src_write` on the device: the CPU byte goes into the
   * data latch (`Latched`); a full latch is handed to the engine (`FedOn`).
   * Until the fourth byte only the latch changes.
   */
  function SysSrcWriteOn(c: Chip, d: Dev, ap: int, val: bv8): (d': Dev)
    requires DevOk(d)
    ensures DevOk(d') && d'.m == d.m
    ensures d.e.blt.sysCnt != 3 ==> d' == d.(e := Latched(d.e, ap, val))
  {
    LatchedOk(d.e, ap, val, |d.v.bytes|);
    var r := FedOn(c.id, Latched(d.e, ap, val), d.v, d.buf);
    Dev(r.2, r.0, r.1, d.m)
  }

  /**
   * What handing the full latch `w` to the engine leaves: one start call
   * with the whole dword, or four of one byte each for byte-granular colour
   * expansion (`FedOn`).
   */
  function DwordFed(c: Chip, d: Dev, w: bv32): (d': Dev)
    requires DevOk(d)
    ensures DevOk(d') && d'.m == d.m
  {
    var r := FedOn(c.id, d.e.(blt := d.e.blt.(sysSrc32 := w, sysCnt := 0)), d.v, d.buf);
    Dev(r.2, r.0, r.1, d.m)
  }

  /**
   * `gd54xx_mem_sys_dest_read` on the device: the byte `DestByte` gives;
   * while more than one byte is left only the read position moves, and an
   * empty buffer changes nothing.
   */
  function SysDestReadOn(c: Chip, d: Dev, ap: int): (r: (bv8, Dev))
    requires DevOk(d)
    ensures DevOk(r.1) && r.1.m == d.m && r.0 == DestByte(d.e, d.buf, ap)
    ensures d.e.blt.msdBufCnt > 1 ==> r.1 == d.(e := Drained(d.e))
    ensures d.e.blt.msdBufCnt == 0 ==> r.1 == d
  {
    var x := DestReadOn(c.id, d.e, d.v, d.buf, ap);
    (x.0, Dev(x.3, x.1, x.2, d.m))
  }

  /** `gd54xx_write`: a waiting transfer takes the byte, else it is stored where the banks map the address. */
  function WriteOn(c: Chip, d: Dev, addr: nat, val: bv8): (d': Dev)
    requires DevOk(d)
    ensures DevOk(d') && d'.m == d.m
  {
    if SrcWaiting(d.e) then SysSrcWriteOn(c, d, 0, val)
    else d.(v := Plotted(d.v, BankedIndex(c, d.m, |d.v.bytes|, addr, 0), val))
  }

  /**
   * `gd54xx_writew`: while a transfer waits, two byte writes (the bytes
   * swapped for dword-granular colour expansion); else a word store.
   */
  function WriteWOn(c: Chip, d: Dev, addr: nat, val: bv16): (d': Dev)
    requires DevOk(d)
    ensures DevOk(d') && d'.m == d.m
  {
    if SrcWaiting(d.e) then
      var w := if DwordExpand(d.e.regs) then Compose16(Lane16(val, 1), Lane16(val, 0)) else val;
      Write2On(c, d, addr, Lane16(w, 0), Lane16(w, 1))
    else d.(v := PlottedAll(d.v, [BankedIndex(c, d.m, |d.v.bytes|, addr, 0), BankedIndex(c, d.m, |d.v.bytes|, addr, 1)], [Lane16(val, 0), Lane16(val, 1)]))
  }

  /** The dword the banked window streams for `val`: byte-reversed for dword-granular colour expansion. */
  function Streamed32(r: Regs, val: bv32): bv32
  {
    if DwordExpand(r) then Compose32(Lane32(val, 3), Lane32(val, 2), Lane32(val, 1), Lane32(val, 0)) else val
  }

  /** `gd54xx_writel`: while a transfer waits, four byte writes of `Streamed32`; else a dword store. */
  function WriteLOn(c: Chip, d: Dev, addr: nat, val: bv32): (d': Dev)
    requires DevOk(d)
    ensures DevOk(d') && d'.m == d.m
  {
    if SrcWaiting(d.e) then
      var w := Streamed32(d.e.regs, val);
      Write2On(c, Write2On(c, d, addr, Lane32(w, 0), Lane32(w, 1)), addr + 2, Lane32(w, 2), Lane32(w, 3))
    else
      var ks := [BankedIndex(c, d.m, |d.v.bytes|, addr, 0), BankedIndex(c, d.m, |d.v.bytes|, addr, 1), BankedIndex(c, d.m, |d.v.bytes|, addr, 2), BankedIndex(c, d.m, |d.v.bytes|, addr, 3)];
      d.(v := PlottedAll(d.v, ks, Bytes32(val)))
  }

  /** `gd54xx_read`: the next buffer byte while a transfer has data, else the byte the banks map the address to. */
  function ReadOn(c: Chip, d: Dev, addr: nat): (r: (bv8, Dev))
    requires DevOk(d)
    ensures DevOk(r.1) && r.1.m == d.m
    ensures !DestWaiting(d.e) ==> r.1 == d
  {
    if DestWaiting(d.e) then SysDestReadOn(c, d, 0)
    else (d.v.bytes[BankedIndex(c, d.m, |d.v.bytes|, addr, 0)], d)
  }

  /** `gd54xx_readw`: two byte reads while a transfer has data, else a little-endian word. */
  function ReadWOn(c: Chip, d: Dev, addr: nat): (r: (bv16, Dev))
    requires DevOk(d)
    ensures DevOk(r.1) && r.1.m == d.m
    ensures !DestWaiting(d.e) ==> r.1 == d
  {
    if DestWaiting(d.e) then
      var p := Read2On(c, d, addr);
      (Compose16(p.0, p.1), p.2)
    else (Compose16(d.v.bytes[BankedIndex(c, d.m, |d.v.bytes|, addr, 0)], d.v.bytes[BankedIndex(c, d.m, |d.v.bytes|, addr, 1)]), d)
  }

  /** `gd54xx_readl`: four byte reads while a transfer has data, else a little-endian dword. */
  function ReadLOn(c: Chip, d: Dev, addr: nat): (r: (bv32, Dev))
    requires DevOk(d)
    ensures DevOk(r.1) && r.1.m == d.m
    ensures !DestWaiting(d.e) ==> r.1 == d
  {
    if DestWaiting(d.e) then
      var p := Read2On(c, d, addr);
      var q := Read2On(c, p.2, addr + 2);
      (Compose32(p.0, p.1, q.0, q.1), q.2)
    else
      var m := d.v.bytes;
      (Compose32(m[BankedIndex(c, d.m, |d.v.bytes|, addr, 0)], m[BankedIndex(c, d.m, |d.v.bytes|, addr, 1)], m[BankedIndex(c, d.m, |d.v.bytes|, addr, 2)], m[BankedIndex(c, d.m, |d.v.bytes|, addr, 3)]), d)
  }

  /**
   * The register half of `gd543x_mmio_write`: the byte goes to blitter
   * register `off`, a mode or status write recalculates the mapping, then
   * the write resets the engine, or sets BUSY and makes the start call of
   * `gd54xx_start_blit` (`StartOn`), as `WriteAction` says. Only a start
   * touches video memory or the buffer.
   */
  function RegWriteOn(c: Chip, d: Dev, off: int, val: bv8): (d': Dev)
    requires DevOk(d)
    ensures DevOk(d')
    ensures d'.m == if off == 0x18 || off == 0x40 then Remapped(c, d.m) else d.m
    ensures WriteAction(c.id, d.e.regs, off, val) != StartEngine ==> d'.v == d.v && d'.buf == d.buf
  {
    WriteRegBounded(c.id, d.e.regs, off, val);
    var w := d.e.(regs := WriteReg(c.id, d.e.regs, off, val));
    var m := if off == 0x18 || off == 0x40 then Remapped(c, d.m) else d.m;
    Acted(c, d.(e := w, m := m), WriteAction(c.id, d.e.regs, off, val))
  }

  /** What a register write goes on to do once the byte is stored: nothing, reset the engine, or start it. */
  function Acted(c: Chip, d: Dev, act: Action): (d': Dev)
    requires DevOk(d)
    ensures DevOk(d') && d'.m == d.m
    ensures act != StartEngine ==> d'.v == d.v && d'.buf == d.buf
  {
    match act
    case NoAction => d
    case ResetEngine => d.(e := Stop(d.e))
    case StartEngine => Launched(c, d)
  }

  /** The start case of `RegWriteOn`: BUSY set, then `gd54xx_start_blit` with no CPU data. */
  function Launched(c: Chip, d: Dev): (d': Dev)
    requires DevOk(d)
    ensures DevOk(d') && d'.m == d.m
  {
    var r := StartOn(c.id, d.e.(regs := d.e.regs.(status := d.e.regs.status | StatusBusy)), 0, 0xffff_ffff, d.v, d.buf);
    Dev(r.2, r.0, r.1, d.m)
  }

  /** `gd543x_mmio_write`: inside the MMIO window a register write at `addr % 256`; outside, while the window overlaps video memory, a banked write. */
  function MmioWriteOn(c: Chip, d: Dev, addr: nat, val: bv8): (d': Dev)
    requires DevOk(d)
    ensures DevOk(d')
    ensures !DoMmio(c.cfg.sr17, addr) ==> d'.m == d.m
    ensures !DoMmio(c.cfg.sr17, addr) && !d.m.mmioVramOverlap ==> d' == d
  {
    if DoMmio(c.cfg.sr17, addr) then RegWriteOn(c, d, addr % 256, val)
    else if d.m.mmioVramOverlap then WriteOn(c, d, addr, val)
    else d
  }

  /** `gd543x_mmio_writeb`: outside the window a waiting transfer takes the byte, else an MMIO write. */
  function MmioWriteBOn(c: Chip, d: Dev, addr: nat, val: bv8): (d': Dev)
    requires DevOk(d)
    ensures DevOk(d')
  {
    if !DoMmio(c.cfg.sr17, addr) && SrcWaiting(d.e) then SysSrcWriteOn(c, d, 0, val)
    else MmioWriteOn(c, d, addr, val)
  }

  /**
   * `gd543x_mmio_writew`: two MMIO writes inside the window; outside it,
   * while the window overlaps video memory, two MMIO writes when a transfer
   * waits and two banked writes otherwise.
   */
  function MmioWriteWOn(c: Chip, d: Dev, addr: nat, val: bv16): (d': Dev)
    requires DevOk(d)
    ensures DevOk(d')
    ensures !DoMmio(c.cfg.sr17, addr) && !d.m.mmioVramOverlap ==> d' == d
  {
    if DoMmio(c.cfg.sr17, addr) || (d.m.mmioVramOverlap && SrcWaiting(d.e)) then
      MmioWrite2On(c, d, addr, Lane16(val, 0), Lane16(val, 1))
    else if d.m.mmioVramOverlap then
      Write2On(c, d, addr, Lane16(val, 0), Lane16(val, 1))
    else d
  }

  /** `gd543x_mmio_writel`: `MmioWriteWOn` with four bytes, least significant first. */
  function MmioWriteLOn(c: Chip, d: Dev, addr: nat, val: bv32): (d': Dev)
    requires DevOk(d)
    ensures DevOk(d')
    ensures !DoMmio(c.cfg.sr17, addr) && !d.m.mmioVramOverlap ==> d' == d
  {
    if DoMmio(c.cfg.sr17, addr) || (d.m.mmioVramOverlap && SrcWaiting(d.e)) then
      MmioWrite2On(c, MmioWrite2On(c, d, addr, Lane32(val, 0), Lane32(val, 1)), addr + 2, Lane32(val, 2), Lane32(val, 3))
    else if d.m.mmioVramOverlap then
      Write2On(c, Write2On(c, d, addr, Lane32(val, 0), Lane32(val, 1)), addr + 2, Lane32(val, 2), Lane32(val, 3))
    else d
  }

  /**
   * `gd543x_mmio_read`: inside the MMIO window the blitter register byte;
   * outside it a banked read while the window overlaps video memory, else
   * the next buffer byte of a waiting transfer, else 0xff.
   */
  function MmioReadOn(c: Chip, d: Dev, addr: nat): (r: (bv8, Dev))
    requires DevOk(d)
    ensures DevOk(r.1) && r.1.m == d.m
    ensures DoMmio(c.cfg.sr17, addr) || !DestWaiting(d.e) ==> r.1 == d
  {
    if DoMmio(c.cfg.sr17, addr) then (ReadReg(c.id, d.e.regs, addr % 256), d)
    else if d.m.mmioVramOverlap then ReadOn(c, d, addr)
    else if DestWaiting(d.e) then SysDestReadOn(c, d, 0)
    else (0xff, d)
  }

  /** `gd543x_mmio_readw`: two byte reads, little-endian, in the order of `MmioReadOn`'s cases. */
  function MmioReadWOn(c: Chip, d: Dev, addr: nat): (r: (bv16, Dev))
    requires DevOk(d)
    ensures DevOk(r.1) && r.1.m == d.m
  {
    if DoMmio(c.cfg.sr17, addr) || (!d.m.mmioVramOverlap && DestWaiting(d.e)) then
      var p := MmioRead2On(c, d, addr);
      (Compose16(p.0, p.1), p.2)
    else if d.m.mmioVramOverlap then
      var p := Read2On(c, d, addr);
      (Compose16(p.0, p.1), p.2)
    else (0xffff, d)
  }

  /** `gd543x_mmio_readl`: four byte reads, least significant first, in the order of `MmioReadOn`'s cases. */
  function MmioReadLOn(c: Chip, d: Dev, addr: nat): (r: (bv32, Dev))
    requires DevOk(d)
    ensures DevOk(r.1) && r.1.m == d.m
  {
    if DoMmio(c.cfg.sr17, addr) || (!d.m.mmioVramOverlap && DestWaiting(d.e)) then
      var p := MmioRead2On(c, d, addr);
      var q := MmioRead2On(c, p.2, addr + 2);
      (Compose32(p.0, p.1, q.0, q.1), q.2)
    else if d.m.mmioVramOverlap then
      var p := Read2On(c, d, addr);
      var q := Read2On(c, p.2, addr + 2);
      (Compose32(p.0, p.1, q.0, q.1), q.2)
    else (0xffff_ffff, d)
  }

  /**
   * `gd54xx_readb_linear`: outside SVGA modes a plain byte read; else the
   * MMIO window's register byte, a waiting transfer's next buffer byte (no
   * second aperture), or the quadrant's byte.
   */
  function ReadBLinearOn(c: Chip, d: Dev, addr: nat): (r: (bv8, Dev))
    requires DevOk(d)
    ensures DevOk(r.1) && r.1.m == d.m
    ensures !DestWaiting(d.e) ==> r.1 == d
  {
    var a := addr % 0x400000;
    if !Svga(c) then (d.v.bytes[a % |d.v.bytes|], d)
    else if InMmioWindow(c, |d.v.bytes|, a) then (ReadReg(c.id, d.e.regs, a % 256), d)
    else if DestWaiting(d.e) && !Aperture2On(c.id, d.e) then SysDestReadOn(c, d, Quadrant(d.m, addr))
    else (Gd54xxLanes.ReadB(d.v.bytes, Quadrant(d.m, addr), LinearIndex(|d.v.bytes|, addr)), d)
  }

  /** `gd54xx_readw_linear`: `ReadBLinearOn`'s cases for a word; a waiting transfer hands out two byte reads. */
  function ReadWLinearOn(c: Chip, d: Dev, addr: nat): (r: (bv16, Dev))
    requires DevOk(d)
    ensures DevOk(r.1) && r.1.m == d.m
    ensures !DestWaiting(d.e) ==> r.1 == d
  {
    var a := addr % 0x400000;
    var n := |d.v.bytes|;
    if !Svga(c) then (Compose16(d.v.bytes[a % n], d.v.bytes[(a + 1) % n]), d)
    else if InMmioWindow(c, n, a) then (Compose16(ReadReg(c.id, d.e.regs, a % 256), ReadReg(c.id, d.e.regs, (a % 256 + 1) % 256)), d)
    else if DestWaiting(d.e) && !Aperture2On(c.id, d.e) then
      var p := ReadBLinear2On(c, d, addr);
      (Compose16(p.0, p.1), p.2)
    else (Gd54xxLanes.ReadW(d.v.bytes, Quadrant(d.m, addr), LinearIndex(|d.v.bytes|, addr)), d)
  }

  /** `gd54xx_readl_linear`: `ReadBLinearOn`'s cases for a dword; a waiting transfer hands out four byte reads. */
  function ReadLLinearOn(c: Chip, d: Dev, addr: nat): (r: (bv32, Dev))
    requires DevOk(d)
    ensures DevOk(r.1) && r.1.m == d.m
    ensures !DestWaiting(d.e) ==> r.1 == d
  {
    var a := addr % 0x400000;
    var n := |d.v.bytes|;
    var regs := d.e.regs;
    if !Svga(c) then (Compose32(d.v.bytes[a % n], d.v.bytes[(a + 1) % n], d.v.bytes[(a + 2) % n], d.v.bytes[(a + 3) % n]), d)
    else if InMmioWindow(c, n, a) then
      var off := a % 256;
      (Compose32(ReadReg(c.id, regs, off), ReadReg(c.id, regs, (off + 1) % 256),
                 ReadReg(c.id, regs, (off + 2) % 256), ReadReg(c.id, regs, (off + 3) % 256)), d)
    else if DestWaiting(d.e) && !Aperture2On(c.id, d.e) then
      var p := ReadBLinear2On(c, d, addr);
      var q := ReadBLinear2On(c, p.2, addr + 2);
      (Compose32(p.0, p.1, q.0, q.1), q.2)
    else (Gd54xxLanes.ReadL(d.v.bytes, Quadrant(d.m, addr), LinearIndex(|d.v.bytes|, addr)), d)
  }

  /**
   * `gd54xx_writeb_linear`: outside SVGA modes a plain byte store at the
   * unmasked address; else a register write in the MMIO window, the byte to
   * a waiting transfer (no second aperture), or a store at the quadrant's
   * cell (quadrant 3 drops it).
   */
  function WriteBLinearOn(c: Chip, d: Dev, addr: nat, val: bv8): (d': Dev)
    requires DevOk(d)
    ensures DevOk(d')
    ensures !(Svga(c) && InMmioWindow(c, |d.v.bytes|, addr % 0x400000)) ==> d'.m == d.m
  {
    var a := addr % 0x400000;
    var ap := Quadrant(d.m, addr);
    if !Svga(c) then d.(v := Plotted(d.v, addr % |d.v.bytes|, val))
    else if InMmioWindow(c, |d.v.bytes|, a) then RegWriteOn(c, d, a % 256, val)
    else if SrcWaiting(d.e) && !Aperture2On(c.id, d.e) then SysSrcWriteOn(c, d, ap, val)
    else if ap == 3 then d
    else
      var k := LinearIndex(|d.v.bytes|, addr);
      SwizzleInside(|d.v.bytes|, ap, k);
      d.(v := Plotted(d.v, Swizzle(ap, k), val))
  }

  /** A swizzled address stays inside a memory of whole dwords. */
  lemma SwizzleInside(n: int, ap: int, a: int)
    requires n % 4 == 0 && 0 <= a < n
    ensures Swizzle(ap, a) < n
  {
    var p := Swizzle(ap, a);
    var q, r := a / 4, n / 4;
    assert p == 4 * q + p % 4 && p % 4 < 4;
    assert n == 4 * r;
    assert a == 4 * q + a % 4;
    assert q < r;
  }

  /** The memory indices a linear word store in quadrant `ap` reaches, in the order it stores them. */
  function WordCells(n: int, ap: int, a: int): (ks: seq<int>)
    requires n >= 4 && n % 4 == 0 && 0 <= a < n && 0 <= ap < 3
    ensures |ks| == 2 && forall i :: 0 <= i < 2 ==> 0 <= ks[i] < n
  {
    if ap == 0 then [Wrap(n, a), Wrap(n, a + 1)]
    else
      var b := if ap == 2 then Xor2(a) else a;
      assert b / 4 == a / 4 && b < n;
      [Wrap(n, b + 1), Wrap(n, b)]
  }

  /** The memory indices a linear dword store in quadrant `ap` reaches, lane 0 first. */
  function DwordCells(n: int, ap: int, a: int): (ks: seq<int>)
    requires n >= 4 && n % 4 == 0 && 0 <= a < n && 0 <= ap < 3
    ensures |ks| == 4 && forall i :: 0 <= i < 4 ==> 0 <= ks[i] < n
  {
    if ap == 1 then [Wrap(n, a + 1), Wrap(n, a), Wrap(n, a + 3), Wrap(n, a + 2)]
    else if ap == 2 then [Wrap(n, a + 3), Wrap(n, a + 2), Wrap(n, a + 1), Wrap(n, a)]
    else [Wrap(n, a), Wrap(n, a + 1), Wrap(n, a + 2), Wrap(n, a + 3)]
  }

  /** Storing one more byte at the end of a run of stores. */
  lemma UpdatedSnoc(m: seq<bv8>, ks: seq<int>, vs: seq<bv8>, k: int, v: bv8)
    requires |ks| == |vs| && (forall i :: 0 <= i < |ks| ==> 0 <= ks[i] < |m|) && 0 <= k < |m|
    ensures Updated(m, ks + [k], vs + [v]) == Updated(m, ks, vs)[k := v]
  {
    assert (ks + [k])[..|ks|] == ks && (vs + [v])[..|vs|] == vs;
  }

  /** A linear word store is the run of byte stores at `WordCells`. */
  lemma {:induction false} WordCellsStore(m: seq<bv8>, ap: int, a: int, v: bv16)
    requires InMemory(m, a) && 0 <= ap < 3
    ensures Gd54xxLanes.WriteW(m, ap, a, v) == Updated(m, WordCells(|m|, ap, a), [Lane16(v, 0), Lane16(v, 1)])
  {
    var ks := WordCells(|m|, ap, a);
    UpdatedSnoc(m, [], [], ks[0], Lane16(v, 0));
    UpdatedSnoc(m, [ks[0]], [Lane16(v, 0)], ks[1], Lane16(v, 1));
    assert [ks[0]] + [ks[1]] == ks;
  }

  /** Four stores in a row. */
  lemma {:induction false} Updated4(m: seq<bv8>, k0: int, k1: int, k2: int, k3: int, v0: bv8, v1: bv8, v2: bv8, v3: bv8)
    requires 0 <= k0 < |m| && 0 <= k1 < |m| && 0 <= k2 < |m| && 0 <= k3 < |m|
    ensures Updated(m, [k0, k1, k2, k3], [v0, v1, v2, v3]) == m[k0 := v0][k1 := v1][k2 := v2][k3 := v3]
  {
    var ks, vs := [k0, k1, k2, k3], [v0, v1, v2, v3];
    assert ks[..3] == [k0, k1, k2] && vs[..3] == [v0, v1, v2];
    assert ks[..3][..2] == [k0, k1] && vs[..3][..2] == [v0, v1];
    assert ks[..3][..2][..1] == [k0] && vs[..3][..2][..1] == [v0];
    assert Updated(m, [k0], [v0]) == m[k0 := v0];
    assert Updated(m, [k0, k1], [v0, v1]) == m[k0 := v0][k1 := v1];
    assert Updated(m, [k0, k1, k2], [v0, v1, v2]) == m[k0 := v0][k1 := v1][k2 := v2];
  }

  /** A linear dword store is the run of byte stores at `DwordCells`. */
  lemma {:induction false} DwordCellsStore(m: seq<bv8>, ap: int, a: int, v: bv32)
    requires InMemory(m, a) && 0 <= ap < 3
    ensures Gd54xxLanes.WriteL(m, ap, a, v) == Updated(m, DwordCells(|m|, ap, a), Bytes32(v))
  {
    var ks := DwordCells(|m|, ap, a);
    Updated4(m, ks[0], ks[1], ks[2], ks[3], Lane32(v, 0), Lane32(v, 1), Lane32(v, 2), Lane32(v, 3));
    assert [ks[0], ks[1], ks[2], ks[3]] == ks;
  }

  /** `gd54xx_writew_linear`: `WriteBLinearOn`'s cases for a word; a waiting transfer takes two byte writes. */
  function WriteWLinearOn(c: Chip, d: Dev, addr: nat, val: bv16): (d': Dev)
    requires DevOk(d)
    ensures DevOk(d')
    ensures !(Svga(c) && InMmioWindow(c, |d.v.bytes|, addr % 0x400000)) && !SrcWaiting(d.e) ==> d'.m == d.m
  {
    var a := addr % 0x400000;
    var n := |d.v.bytes|;
    var ap := Quadrant(d.m, addr);
    if !Svga(c) then d.(v := PlottedAll(d.v, [addr % n, (addr + 1) % n], [Lane16(val, 0), Lane16(val, 1)]))
    else if InMmioWindow(c, n, a) then
      RegWriteOn(c, RegWriteOn(c, d, a % 256, Lane16(val, 0)), (a % 256 + 1) % 256, Lane16(val, 1))
    else if SrcWaiting(d.e) && !Aperture2On(c.id, d.e) then
      WriteBLinear2On(c, d, addr, Lane16(val, 0), Lane16(val, 1))
    else if ap == 3 then d
    else
      var k := LinearIndex(|d.v.bytes|, addr);
      d.(v := Vram(Gd54xxLanes.WriteW(d.v.bytes, ap, k, val), d.v.changed + BlocksOf(WordCells(n, ap, k))))
  }

  /** `gd54xx_writel_linear`: `WriteBLinearOn`'s cases for a dword; a waiting transfer takes four byte writes. */
  function WriteLLinearOn(c: Chip, d: Dev, addr: nat, val: bv32): (d': Dev)
    requires DevOk(d)
    ensures DevOk(d')
    ensures !(Svga(c) && InMmioWindow(c, |d.v.bytes|, addr % 0x400000)) && !SrcWaiting(d.e) ==> d'.m == d.m
  {
    var a := addr % 0x400000;
    var n := |d.v.bytes|;
    var ap := Quadrant(d.m, addr);
    if !Svga(c) then d.(v := PlottedAll(d.v, [addr % n, (addr + 1) % n, (addr + 2) % n, (addr + 3) % n], Bytes32(val)))
    else if InMmioWindow(c, n, a) then
      RegWriteLOn(c, d, a % 256, val)
    else if SrcWaiting(d.e) && !Aperture2On(c.id, d.e) then WriteBLinear4On(c, d, addr, Lane32(val, 0), Lane32(val, 1), Lane32(val, 2), Lane32(val, 3))
    else if ap == 3 then d
    else
      var k := LinearIndex(|d.v.bytes|, addr);
      d.(v := Vram(Gd54xxLanes.WriteL(d.v.bytes, ap, k, val), d.v.changed + BlocksOf(DwordCells(n, ap, k))))
  }

  /** Four register writes of the bytes of `val` at `off` and the next three offsets, wrapping at 256. */
  function RegWriteLOn(c: Chip, d: Dev, off: int, val: bv32): (d': Dev)
    requires DevOk(d)
    ensures DevOk(d')
  {
    var d1 := RegWriteOn(c, d, off, Lane32(val, 0));
    var d2 := RegWriteOn(c, d1, (off + 1) % 256, Lane32(val, 1));
    var d3 := RegWriteOn(c, d2, (off + 2) % 256, Lane32(val, 2));
    RegWriteOn(c, d3, (off + 3) % 256, Lane32(val, 3))
  }

  /** Four linear byte writes, `b0` to `b3` at `addr` and the next three addresses. */
  function WriteBLinear4On(c: Chip, d: Dev, addr: nat, b0: bv8, b1: bv8, b2: bv8, b3: bv8): (d': Dev)
    requires DevOk(d)
    ensures DevOk(d')
  {
    WriteBLinear2On(c, WriteBLinear2On(c, d, addr, b0, b1), addr + 2, b2, b3)
  }

  /** Two linear byte writes, `v0` at `addr` and `v1` at the next address. */
  function WriteBLinear2On(c: Chip, d: Dev, addr: nat, v0: bv8, v1: bv8): (d': Dev)
    requires DevOk(d)
    ensures DevOk(d')
  {
    WriteBLinearOn(c, WriteBLinearOn(c, d, addr, v0), addr + 1, v1)
  }

  /** `gd5436_aperture2_readb`: the next buffer byte of a transfer routed through the second aperture, else 0xff. */
  function Aperture2ReadBOn(c: Chip, d: Dev, addr: nat): (r: (bv8, Dev))
    requires DevOk(d)
    ensures DevOk(r.1) && r.1.m == d.m
    ensures !(DestWaiting(d.e) && Aperture2On(c.id, d.e)) ==> r == (0xff, d)
  {
    if DestWaiting(d.e) && Aperture2On(c.id, d.e) then SysDestReadOn(c, d, Quadrant(d.m, addr))
    else (0xff, d)
  }

  /** `gd5436_aperture2_readw`: two byte reads while such a transfer has data, else all ones. */
  function Aperture2ReadWOn(c: Chip, d: Dev, addr: nat): (r: (bv16, Dev))
    requires DevOk(d)
    ensures DevOk(r.1) && r.1.m == d.m
    ensures !(DestWaiting(d.e) && Aperture2On(c.id, d.e)) ==> r == (0xffff, d)
  {
    if DestWaiting(d.e) && Aperture2On(c.id, d.e) then
      var p := Aperture2Read2On(c, d, addr);
      (Compose16(p.0, p.1), p.2)
    else (0xffff, d)
  }

  /** `gd5436_aperture2_readl`: four byte reads while such a transfer has data, else all ones. */
  function Aperture2ReadLOn(c: Chip, d: Dev, addr: nat): (r: (bv32, Dev))
    requires DevOk(d)
    ensures DevOk(r.1) && r.1.m == d.m
    ensures !(DestWaiting(d.e) && Aperture2On(c.id, d.e)) ==> r == (0xffff_ffff, d)
  {
    if DestWaiting(d.e) && Aperture2On(c.id, d.e) then
      var p := Aperture2Read2On(c, d, addr);
      var q := Aperture2Read2On(c, p.2, addr + 2);
      (Compose32(p.0, p.1, q.0, q.1), q.2)
    else (0xffff_ffff, d)
  }

  /** `gd5436_aperture2_writeb`: a transfer routed through the second aperture takes the byte; otherwise it is dropped. */
  function Aperture2WriteBOn(c: Chip, d: Dev, addr: nat, val: bv8): (d': Dev)
    requires DevOk(d)
    ensures DevOk(d') && d'.m == d.m
    ensures !(SrcWaiting(d.e) && Aperture2On(c.id, d.e)) ==> d' == d
  {
    if SrcWaiting(d.e) && Aperture2On(c.id, d.e) then SysSrcWriteOn(c, d, Quadrant(d.m, addr), val)
    else d
  }

  /** `gd5436_aperture2_writew`: two byte writes while such a transfer waits, else nothing. */
  function Aperture2WriteWOn(c: Chip, d: Dev, addr: nat, val: bv16): (d': Dev)
    requires DevOk(d)
    ensures DevOk(d') && d'.m == d.m
    ensures !(SrcWaiting(d.e) && Aperture2On(c.id, d.e)) ==> d' == d
  {
    if SrcWaiting(d.e) && Aperture2On(c.id, d.e) then
      Aperture2Write2On(c, d, addr, Lane16(val, 0), Lane16(val, 1))
    else d
  }

  /** `gd5436_aperture2_writel`: four byte writes while such a transfer waits, else nothing. */
  function Aperture2WriteLOn(c: Chip, d: Dev, addr: nat, val: bv32): (d': Dev)
    requires DevOk(d)
    ensures DevOk(d') && d'.m == d.m
    ensures !(SrcWaiting(d.e) && Aperture2On(c.id, d.e)) ==> d' == d
  {
    if SrcWaiting(d.e) && Aperture2On(c.id, d.e) then
      Aperture2Write2On(c, Aperture2Write2On(c, d, addr, Lane32(val, 0), Lane32(val, 1)), addr + 2, Lane32(val, 2), Lane32(val, 3))
    else d
  }

  /** Two banked reads, at `addr` and at the next address, in order. */
  function Read2On(c: Chip, d: Dev, addr: nat): (r: (bv8, bv8, Dev))
    requires DevOk(d)
    ensures DevOk(r.2) && r.2.m == d.m
  {
    var r0 := ReadOn(c, d, addr);
    var r1 := ReadOn(c, r0.1, addr + 1);
    (r0.0, r1.0, r1.1)
  }

  /** Two MMIO reads, at `addr` and at the next address, in order. */
  function MmioRead2On(c: Chip, d: Dev, addr: nat): (r: (bv8, bv8, Dev))
    requires DevOk(d)
    ensures DevOk(r.2) && r.2.m == d.m
  {
    var r0 := MmioReadOn(c, d, addr);
    var r1 := MmioReadOn(c, r0.1, addr + 1);
    (r0.0, r1.0, r1.1)
  }

  /** Two linear byte reads, at `addr` and at the next address, in order. */
  function ReadBLinear2On(c: Chip, d: Dev, addr: nat): (r: (bv8, bv8, Dev))
    requires DevOk(d)
    ensures DevOk(r.2) && r.2.m == d.m
  {
    var r0 := ReadBLinearOn(c, d, addr);
    var r1 := ReadBLinearOn(c, r0.1, addr + 1);
    (r0.0, r1.0, r1.1)
  }

  /** Two second-aperture byte reads, at `addr` and at the next address, in order. */
  function Aperture2Read2On(c: Chip, d: Dev, addr: nat): (r: (bv8, bv8, Dev))
    requires DevOk(d)
    ensures DevOk(r.2) && r.2.m == d.m
  {
    var r0 := Aperture2ReadBOn(c, d, addr);
    var r1 := Aperture2ReadBOn(c, r0.1, addr + 1);
    (r0.0, r1.0, r1.1)
  }

  /** Two banked writes, `v0` at `addr` and `v1` at the next address. */
  function Write2On(c: Chip, d: Dev, addr: nat, v0: bv8, v1: bv8): (d': Dev)
    requires DevOk(d)
    ensures DevOk(d') && d'.m == d.m
  {
    WriteOn(c, WriteOn(c, d, addr, v0), addr + 1, v1)
  }

  /** Two MMIO writes, `v0` at `addr` and `v1` at the next address. */
  function MmioWrite2On(c: Chip, d: Dev, addr: nat, v0: bv8, v1: bv8): (d': Dev)
    requires DevOk(d)
    ensures DevOk(d')
  {
    MmioWriteOn(c, MmioWriteOn(c, d, addr, v0), addr + 1, v1)
  }

  /** Two second-aperture byte writes, `v0` at `addr` and `v1` at the next address. */
  function Aperture2Write2On(c: Chip, d: Dev, addr: nat, v0: bv8, v1: bv8): (d': Dev)
    requires DevOk(d)
    ensures DevOk(d') && d'.m == d.m
  {
    Aperture2WriteBOn(c, Aperture2WriteBOn(c, d, addr, v0), addr + 1, v1)
  }
}
