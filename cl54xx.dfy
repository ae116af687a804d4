/*
 * The CL-GD54xx blitter and memory router as a stateful device: the engine
 * state, the mapping the router derives from the sequencer and graphics
 * registers, the 32-byte memory-to-system buffer and video memory, updated
 * in place by the register writes and by the banked, linear, second
 * aperture and memory-mapped accessors. Each accessor is proved to leave
 * the device as the function of the same access in `Gd54xxDevice` says.
 */
module Gd54xx {
  import opened Gd54xxOps
  import opened Gd54xxRegs
  import opened Gd54xxLanes
  import opened Gd54xxMemory
  import opened Gd54xxEngine
  import opened Gd54xxDevice

  class Device {
    const chip: Chip
    const mem: VideoMemory
    const msdBuf: array<bv8>
    var eng: Engine
    var mapping: Mapping

    /** A device of chip revision `id` with `size` bytes of video memory, its engine idle. */
    constructor (id: bv8, cfg: Config, size: nat)
      requires size >= 0x10000 && size % 4 == 0
      ensures Valid() && fresh(mem) && fresh(mem.bytes) && fresh(msdBuf)
      ensures chip == Chip(id, cfg) && mem.bytes.Length == size
      ensures eng.countMinusOne == 0 && !eng.rejected
    {
      chip := Chip(id, cfg);
      mem := new VideoMemory(size);
      msdBuf := new bv8[32](_ => 0);
      eng := Engine(Regs(0, 0, 0, 0, 0, 0, 0, 0, 0, 0, 0, 0, 0, 0, 0),
                    Counters(false, 0, 0, 0, 0, 0, 0, 0, 0, 0, 0, 1, 0, 1), 0, false);
      mapping := RecalcMapping(id, cfg.pci, cfg.vlb, cfg.memEnabled, cfg.sr07, cfg.gr06, cfg.gr0b, Mapping(0, 0x7fff, false));
    }

    /** The invariant every operation keeps. */
    predicate Valid()
      reads this
    {
      mem.bytes.Length >= 0x10000 && mem.bytes.Length % 4 == 0 && msdBuf.Length == 32 && msdBuf != mem.bytes
      && eng.Ok(mem.bytes.Length)
      && (mapping.apertureMask == 0 || mapping.apertureMask == 3)
      && (mapping.bankedMask == 0x7fff || mapping.bankedMask == 0xffff)
    }

    /** The device as a value. */
    ghost function Snap(): (d: Dev)
      reads this, mem, mem.bytes, msdBuf
      ensures Valid() ==> DevOk(d)
    {
      Dev(eng, mem.Contents(), msdBuf[..], mapping)
    }

    /** `gd54xx_reset_blit`. */
    method ResetBlit()
      requires Valid()
      modifies this
      ensures Valid() && eng == Stop(old(eng)) && mapping == old(mapping)
    {
      eng := Stop(eng);
    }

    /** `gd54xx_start_blit`: video memory, the buffer and the engine as `StartOn` gives them. */
    method StartBlit(cpuDat: bv32, count: nat)
      requires Valid()
      modifies this, mem, mem.bytes, msdBuf
      ensures Valid() && mapping == old(mapping)
      ensures (mem.Contents(), msdBuf[..], eng) == StartOn(chip.id, old(eng), cpuDat, count, old(mem.Contents()), old(msdBuf[..]))
    {
      eng := StartCall(mem, msdBuf, chip.id, eng, cpuDat, count);
    }

    /**
     * `gd54xx_mem_sys_src_write`: the CPU byte goes into the data latch;
     * once the latch holds a whole dword it is handed to the engine, lane
     * by lane for byte-granular colour expansion, else at once.
     */
    method MemSysSrcWrite(ap: int, val: bv8)
      requires Valid()
      modifies this, mem, mem.bytes, msdBuf
      ensures Valid() && Snap() == SysSrcWriteOn(chip, old(Snap()), ap, val)
    {
      LatchedOk(eng, ap, val, mem.bytes.Length);
      eng := Latched(eng, ap, val);
      Feed();
    }

    /** The second half of `gd54xx_mem_sys_src_write`: a full latch is handed to the engine as `FedOn` says, a partial one waits. */
    method Feed()
      requires Valid()
      modifies this, mem, mem.bytes, msdBuf
      ensures Valid() && mapping == old(mapping)
      ensures (mem.Contents(), msdBuf[..], eng) == FedOn(chip.id, old(eng), old(mem.Contents()), old(msdBuf[..]))
    {
      if eng.blt.sysCnt == 0 {
        if ByteGranular(eng.regs) {
          FeedLanes();
        } else {
          StartBlit(eng.blt.sysSrc32, 32);
        }
      }
    }

    /** A full latch handed over lane by lane, least significant first: four start calls of 8 bits. */
    method FeedLanes()
      requires Valid()
      modifies this, mem, mem.bytes, msdBuf
      ensures Valid() && mapping == old(mapping)
      ensures (mem.Contents(), msdBuf[..], eng) == LaneStarts(chip.id, old(eng), old(mem.Contents()), old(msdBuf[..]), 4)
    {
      ghost var l, v0, b0 := eng, mem.Contents(), msdBuf[..];
      var i := 0;
      while i < 4
        invariant 0 <= i <= 4 && Valid() && mapping == old(mapping)
        invariant (mem.Contents(), msdBuf[..], eng) == LaneStarts(chip.id, l, v0, b0, i)
      {
        StartLane(l, v0, b0, i);
        i := i + 1;
      }
    }

    /** One turn of the lane loop: the start call of lane `i` of the latch, after those of the lower lanes. */
    method StartLane(ghost l: Engine, ghost v0: Vram, ghost b0: seq<bv8>, i: nat)
      requires Valid() && i < 4 && |v0.bytes| == mem.bytes.Length && l.Ok(|v0.bytes|) && |b0| == 32
      requires (mem.Contents(), msdBuf[..], eng) == LaneStarts(chip.id, l, v0, b0, i)
      modifies this, mem, mem.bytes, msdBuf
      ensures Valid() && mapping == old(mapping)
      ensures (mem.Contents(), msdBuf[..], eng) == LaneStarts(chip.id, l, v0, b0, i + 1)
    {
      StartBlit(Lane32(eng.blt.sysSrc32, i) as bv32, 8);
    }

    /**
     * `gd54xx_mem_sys_dest_read`: the next buffer byte (0xff from an empty
     * buffer). Taking the last byte refills the buffer with a further start
     * call while the transfer has rows left, and stops the engine otherwise.
     */
    method MemSysDestRead(ap: int) returns (b: bv8)
      requires Valid()
      modifies this, mem, mem.bytes, msdBuf
      ensures Valid() && (b, Snap()) == SysDestReadOn(chip, old(Snap()), ap)
    {
      b := DestByte(eng, msdBuf[..], ap);
      if eng.blt.msdBufCnt != 0 {
        var granular := ByteGranular(eng.regs);
        eng := Drained(eng);
        if eng.blt.msdBufCnt == 0 {
          if eng.countMinusOne == 1 {
            Refill(granular);
          } else {
            ResetBlit();
          }
        }
      }
    }

    /** The refill of an emptied buffer: the read position back to 0, then a start call of one byte or one dword of all ones. */
    method Refill(granular: bool)
      requires Valid()
      modifies this, mem, mem.bytes, msdBuf
      ensures Valid() && mapping == old(mapping)
      ensures (mem.Contents(), msdBuf[..], eng)
           == StartOn(chip.id, old(eng).(blt := old(eng).blt.(msdBufPos := 0)), if granular then 0xff else 0xffff_ffff,
                      if granular then 8 else 32, old(mem.Contents()), old(msdBuf[..]))
    {
      eng := eng.(blt := eng.blt.(msdBufPos := 0));
      if granular {
        StartBlit(0xff, 8);
      } else {
        StartBlit(0xffff_ffff, 32);
      }
    }

    /** `gd54xx_write`: a waiting transfer takes the byte, else it is stored where the banks map the address. */
    method Write(addr: nat, val: bv8)
      requires Valid()
      modifies this, mem, mem.bytes, msdBuf
      ensures Valid() && Snap() == WriteOn(chip, old(Snap()), addr, val)
    {
      if SrcWaiting(eng) {
        MemSysSrcWrite(0, val);
      } else {
        mem.Plot(BankedIndex(chip, mapping, mem.bytes.Length, addr, 0), val);
      }
    }

    /** `gd54xx_writew`: two byte writes while a transfer waits (swapped for dword-granular colour expansion), else a word store. */
    method WriteW(addr: nat, val: bv16)
      requires Valid()
      modifies this, mem, mem.bytes, msdBuf
      ensures Valid() && Snap() == WriteWOn(chip, old(Snap()), addr, val)
    {
      if SrcWaiting(eng) {
        var w := if DwordExpand(eng.regs) then Compose16(Lane16(val, 1), Lane16(val, 0)) else val;
        Write2(addr, Lane16(w, 0), Lane16(w, 1));
      } else {
        var n := mem.bytes.Length;
        mem.PlotAll([BankedIndex(chip, mapping, n, addr, 0), BankedIndex(chip, mapping, n, addr, 1)], [Lane16(val, 0), Lane16(val, 1)]);
      }
    }

    /** `gd54xx_writel`: four byte writes of `Streamed32` while a transfer waits, else a dword store. */
    method WriteL(addr: nat, val: bv32)
      requires Valid()
      modifies this, mem, mem.bytes, msdBuf
      ensures Valid() && Snap() == WriteLOn(chip, old(Snap()), addr, val)
    {
      if SrcWaiting(eng) {
        var w := Streamed32(eng.regs, val);
        Write2(addr, Lane32(w, 0), Lane32(w, 1));
        Write2(addr + 2, Lane32(w, 2), Lane32(w, 3));
      } else {
        var n := mem.bytes.Length;
        var ks := [BankedIndex(chip, mapping, n, addr, 0), BankedIndex(chip, mapping, n, addr, 1),
                   BankedIndex(chip, mapping, n, addr, 2), BankedIndex(chip, mapping, n, addr, 3)];
        mem.PlotAll(ks, Bytes32(val));
      }
    }

    /** `gd54xx_read`: the next buffer byte while a transfer has data, else the byte the banks map the address to. */
    method Read(addr: nat) returns (b: bv8)
      requires Valid()
      modifies this, mem, mem.bytes, msdBuf
      ensures Valid() && (b, Snap()) == ReadOn(chip, old(Snap()), addr)
    {
      if DestWaiting(eng) {
        b := MemSysDestRead(0);
      } else {
        b := mem.bytes[BankedIndex(chip, mapping, mem.bytes.Length, addr, 0)];
      }
    }

    /** `gd54xx_readw`: two byte reads while a transfer has data, else a little-endian word. */
    method ReadW(addr: nat) returns (w: bv16)
      requires Valid()
      modifies this, mem, mem.bytes, msdBuf
      ensures Valid() && (w, Snap()) == ReadWOn(chip, old(Snap()), addr)
    {
      if DestWaiting(eng) {
        var b0, b1 := Read2(addr);
        w := Compose16(b0, b1);
      } else {
        var n := mem.bytes.Length;
        w := Compose16(mem.bytes[BankedIndex(chip, mapping, n, addr, 0)], mem.bytes[BankedIndex(chip, mapping, n, addr, 1)]);
      }
    }

    /** `gd54xx_readl`: four byte reads while a transfer has data, else a little-endian dword. */
    method ReadL(addr: nat) returns (l: bv32)
      requires Valid()
      modifies this, mem, mem.bytes, msdBuf
      ensures Valid() && (l, Snap()) == ReadLOn(chip, old(Snap()), addr)
    {
      if DestWaiting(eng) {
        var b0, b1 := Read2(addr);
        var b2, b3 := Read2(addr + 2);
        l := Compose32(b0, b1, b2, b3);
      } else {
        var n := mem.bytes.Length;
        l := Compose32(mem.bytes[BankedIndex(chip, mapping, n, addr, 0)], mem.bytes[BankedIndex(chip, mapping, n, addr, 1)],
                       mem.bytes[BankedIndex(chip, mapping, n, addr, 2)], mem.bytes[BankedIndex(chip, mapping, n, addr, 3)]);
      }
    }

    /**
     * The register half of `gd543x_mmio_write`: the byte goes to blitter
     * register `off` (a mode or status write recalculates the mapping), then
     * the write may reset the engine or start it.
     */
    method RegisterWrite(off: int, val: bv8)
      requires Valid()
      modifies this, mem, mem.bytes, msdBuf
      ensures Valid() && Snap() == RegWriteOn(chip, old(Snap()), off, val)
    {
      ghost var d0 := Snap();
      var act := WriteAction(chip.id, eng.regs, off, val);
      WriteRegBounded(chip.id, eng.regs, off, val);
      eng := eng.(regs := WriteReg(chip.id, eng.regs, off, val));
      if off == 0x18 || off == 0x40 {
        mapping := Remapped(chip, mapping);
      }
      assert Snap() == d0.(e := eng, m := mapping);
      Apply(act);
    }

    /** What a register write goes on to do once the byte is stored, as `Acted` says. */
    method Apply(act: Action)
      requires Valid()
      modifies this, mem, mem.bytes, msdBuf
      ensures Valid() && Snap() == Acted(chip, old(Snap()), act)
    {
      match act
      case NoAction =>
      case ResetEngine => ResetBlit();
      case StartEngine => Launch();
    }

    /** A register write that starts the engine: BUSY is set, then a start call runs. */
    method Launch()
      requires Valid()
      modifies this, mem, mem.bytes, msdBuf
      ensures Valid() && Snap() == Launched(chip, old(Snap()))
    {
      ghost var d0 := Snap();
      eng := eng.(regs := eng.regs.(status := eng.regs.status | StatusBusy));
      assert Snap() == d0.(e := eng);
      StartBlit(0, 0xffff_ffff);
    }

    /** `gd543x_mmio_write`: inside the MMIO window a register write at `addr % 256`; outside it, while the window overlaps video memory, a banked write. */
    method MmioWrite(addr: nat, val: bv8)
      requires Valid()
      modifies this, mem, mem.bytes, msdBuf
      ensures Valid() && Snap() == MmioWriteOn(chip, old(Snap()), addr, val)
    {
      if DoMmio(chip.cfg.sr17, addr) {
        RegisterWrite(addr % 256, val);
      } else if mapping.mmioVramOverlap {
        Write(addr, val);
      }
    }

    /** `gd543x_mmio_writeb`: outside the window a waiting transfer takes the byte, else an MMIO write. */
    method MmioWriteB(addr: nat, val: bv8)
      requires Valid()
      modifies this, mem, mem.bytes, msdBuf
      ensures Valid() && Snap() == MmioWriteBOn(chip, old(Snap()), addr, val)
    {
      if !DoMmio(chip.cfg.sr17, addr) && SrcWaiting(eng) {
        MemSysSrcWrite(0, val);
      } else {
        MmioWrite(addr, val);
      }
    }

    /**
     * `gd543x_mmio_writew`: two MMIO writes inside the window; outside it,
     * while the window overlaps video memory, two MMIO writes when a transfer
     * waits and two banked writes otherwise.
     */
    method MmioWriteW(addr: nat, val: bv16)
      requires Valid()
      modifies this, mem, mem.bytes, msdBuf
      ensures Valid() && Snap() == MmioWriteWOn(chip, old(Snap()), addr, val)
    {
      if DoMmio(chip.cfg.sr17, addr) || (mapping.mmioVramOverlap && SrcWaiting(eng)) {
        MmioWrite2(addr, Lane16(val, 0), Lane16(val, 1));
      } else if mapping.mmioVramOverlap {
        Write2(addr, Lane16(val, 0), Lane16(val, 1));
      }
    }

    /** `gd543x_mmio_writel`: as `MmioWriteW` with four bytes, least significant first, each routed again. */
    method MmioWriteL(addr: nat, val: bv32)
      requires Valid()
      modifies this, mem, mem.bytes, msdBuf
      ensures Valid() && Snap() == MmioWriteLOn(chip, old(Snap()), addr, val)
    {
      if DoMmio(chip.cfg.sr17, addr) || (mapping.mmioVramOverlap && SrcWaiting(eng)) {
        MmioWriteLRouted(addr, val);
      } else if mapping.mmioVramOverlap {
        MmioWriteLBanked(addr, val);
      }
    }

    /** `gd543x_mmio_writel` inside the window, or outside it for a waiting transfer: four MMIO writes. */
    method MmioWriteLRouted(addr: nat, val: bv32)
      requires Valid() && (DoMmio(chip.cfg.sr17, addr) || (mapping.mmioVramOverlap && SrcWaiting(eng)))
      modifies this, mem, mem.bytes, msdBuf
      ensures Valid() && Snap() == MmioWriteLOn(chip, old(Snap()), addr, val)
    {
      MmioWrite2(addr, Lane32(val, 0), Lane32(val, 1));
      MmioWrite2(addr + 2, Lane32(val, 2), Lane32(val, 3));
    }

    /** `gd543x_mmio_writel` outside the window, overlapping video memory, no transfer waiting: four banked writes. */
    method MmioWriteLBanked(addr: nat, val: bv32)
      requires Valid() && !DoMmio(chip.cfg.sr17, addr) && mapping.mmioVramOverlap && !SrcWaiting(eng)
      modifies this, mem, mem.bytes, msdBuf
      ensures Valid() && Snap() == MmioWriteLOn(chip, old(Snap()), addr, val)
    {
      Write2(addr, Lane32(val, 0), Lane32(val, 1));
      Write2(addr + 2, Lane32(val, 2), Lane32(val, 3));
    }

    /**
     * `gd543x_mmio_read`: inside the MMIO window the blitter register byte;
     * outside it a banked read while the window overlaps video memory, else
     * the next buffer byte of a waiting transfer, else 0xff.
     */
    method MmioRead(addr: nat) returns (b: bv8)
      requires Valid()
      modifies this, mem, mem.bytes, msdBuf
      ensures Valid() && (b, Snap()) == MmioReadOn(chip, old(Snap()), addr)
    {
      if DoMmio(chip.cfg.sr17, addr) {
        b := ReadReg(chip.id, eng.regs, addr % 256);
      } else if mapping.mmioVramOverlap {
        b := Read(addr);
      } else if DestWaiting(eng) {
        b := MemSysDestRead(0);
      } else {
        b := 0xff;
      }
    }

    /** `gd543x_mmio_readw`: two byte reads, little-endian, each routed again. */
    method MmioReadW(addr: nat) returns (w: bv16)
      requires Valid()
      modifies this, mem, mem.bytes, msdBuf
      ensures Valid() && (w, Snap()) == MmioReadWOn(chip, old(Snap()), addr)
    {
      if DoMmio(chip.cfg.sr17, addr) || (!mapping.mmioVramOverlap && DestWaiting(eng)) {
        var b0, b1 := MmioRead2(addr);
        w := Compose16(b0, b1);
      } else if mapping.mmioVramOverlap {
        var b0, b1 := Read2(addr);
        w := Compose16(b0, b1);
      } else {
        w := 0xffff;
      }
    }

    /** Two MMIO reads, at `addr` and at the next address. */
    method MmioRead2(addr: nat) returns (b0: bv8, b1: bv8)
      requires Valid()
      modifies this, mem, mem.bytes, msdBuf
      ensures Valid() && (b0, b1, Snap()) == MmioRead2On(chip, old(Snap()), addr)
    {
      b0 := MmioRead(addr);
      b1 := MmioRead(addr + 1);
    }

    /** Two banked reads, at `addr` and at the next address. */
    method Read2(addr: nat) returns (b0: bv8, b1: bv8)
      requires Valid()
      modifies this, mem, mem.bytes, msdBuf
      ensures Valid() && (b0, b1, Snap()) == Read2On(chip, old(Snap()), addr)
    {
      b0 := Read(addr);
      b1 := Read(addr + 1);
    }

    /** `gd543x_mmio_readl`: four byte reads, least significant first, each routed again. */
    method MmioReadL(addr: nat) returns (l: bv32)
      requires Valid()
      modifies this, mem, mem.bytes, msdBuf
      ensures Valid() && (l, Snap()) == MmioReadLOn(chip, old(Snap()), addr)
    {
      if DoMmio(chip.cfg.sr17, addr) || (!mapping.mmioVramOverlap && DestWaiting(eng)) {
        l := MmioReadLRouted(addr);
      } else if mapping.mmioVramOverlap {
        l := MmioReadLBanked(addr);
      } else {
        l := 0xffff_ffff;
      }
    }

    /** `gd543x_mmio_readl` inside the window, or outside it for a transfer with data and no overlap: four MMIO reads. */
    method MmioReadLRouted(addr: nat) returns (l: bv32)
      requires Valid() && (DoMmio(chip.cfg.sr17, addr) || (!mapping.mmioVramOverlap && DestWaiting(eng)))
      modifies this, mem, mem.bytes, msdBuf
      ensures Valid() && (l, Snap()) == MmioReadLOn(chip, old(Snap()), addr)
    {
      var b0, b1 := MmioRead2(addr);
      var b2, b3 := MmioRead2(addr + 2);
      l := Compose32(b0, b1, b2, b3);
    }

    /** `gd543x_mmio_readl` outside the window while it overlaps video memory: four banked reads. */
    method MmioReadLBanked(addr: nat) returns (l: bv32)
      requires Valid() && !DoMmio(chip.cfg.sr17, addr) && mapping.mmioVramOverlap
      modifies this, mem, mem.bytes, msdBuf
      ensures Valid() && (l, Snap()) == MmioReadLOn(chip, old(Snap()), addr)
    {
      var b0, b1 := Read2(addr);
      var b2, b3 := Read2(addr + 2);
      l := Compose32(b0, b1, b2, b3);
    }

    /**
     * `gd54xx_readb_linear`: outside SVGA modes a plain byte read; else the
     * MMIO window's register byte, a waiting transfer's next buffer byte (no
     * second aperture), or the quadrant's byte.
     */
    method ReadBLinear(addr: nat) returns (b: bv8)
      requires Valid()
      modifies this, mem, mem.bytes, msdBuf
      ensures Valid() && (b, Snap()) == ReadBLinearOn(chip, old(Snap()), addr)
    {
      var a := addr % 0x400000;
      var n := mem.bytes.Length;
      if !Svga(chip) {
        b := mem.bytes[a % n];
      } else if InMmioWindow(chip, n, a) {
        b := ReadReg(chip.id, eng.regs, a % 256);
      } else if DestWaiting(eng) && !Aperture2On(chip.id, eng) {
        b := MemSysDestRead(Quadrant(mapping, addr));
      } else {
        b := Gd54xxLanes.ReadB(mem.bytes[..], Quadrant(mapping, addr), LinearIndex(n, addr));
      }
    }

    /** `gd54xx_readw_linear`: `ReadBLinear`'s cases for a word; a waiting transfer hands out two byte reads. */
    method ReadWLinear(addr: nat) returns (w: bv16)
      requires Valid()
      modifies this, mem, mem.bytes, msdBuf
      ensures Valid() && (w, Snap()) == ReadWLinearOn(chip, old(Snap()), addr)
    {
      var a := addr % 0x400000;
      var n := mem.bytes.Length;
      if !Svga(chip) {
        w := Compose16(mem.bytes[a % n], mem.bytes[(a + 1) % n]);
      } else if InMmioWindow(chip, n, a) {
        w := Compose16(ReadReg(chip.id, eng.regs, a % 256), ReadReg(chip.id, eng.regs, (a % 256 + 1) % 256));
      } else if DestWaiting(eng) && !Aperture2On(chip.id, eng) {
        w := ReadWLinearStreamed(addr);
      } else {
        w := Gd54xxLanes.ReadW(mem.bytes[..], Quadrant(mapping, addr), LinearIndex(n, addr));
      }
    }

    /** The streaming case of `gd54xx_readw_linear`: two linear byte reads, least significant first. */
    method ReadWLinearStreamed(addr: nat) returns (w: bv16)
      requires Valid() && Svga(chip) && !InMmioWindow(chip, mem.bytes.Length, addr % 0x400000)
      requires DestWaiting(eng) && !Aperture2On(chip.id, eng)
      modifies this, mem, mem.bytes, msdBuf
      ensures Valid() && (w, Snap()) == ReadWLinearOn(chip, old(Snap()), addr)
    {
      var b0, b1 := ReadBLinear2(addr);
      w := Compose16(b0, b1);
    }

    /** `gd54xx_readl_linear`: `ReadBLinear`'s cases for a dword; a waiting transfer hands out four byte reads. */
    method ReadLLinear(addr: nat) returns (l: bv32)
      requires Valid()
      modifies this, mem, mem.bytes, msdBuf
      ensures Valid() && (l, Snap()) == ReadLLinearOn(chip, old(Snap()), addr)
    {
      var a := addr % 0x400000;
      var n := mem.bytes.Length;
      if !Svga(chip) {
        l := Compose32(mem.bytes[a % n], mem.bytes[(a + 1) % n], mem.bytes[(a + 2) % n], mem.bytes[(a + 3) % n]);
      } else if InMmioWindow(chip, n, a) {
        var off := a % 256;
        l := Compose32(ReadReg(chip.id, eng.regs, off), ReadReg(chip.id, eng.regs, (off + 1) % 256),
                       ReadReg(chip.id, eng.regs, (off + 2) % 256), ReadReg(chip.id, eng.regs, (off + 3) % 256));
      } else if DestWaiting(eng) && !Aperture2On(chip.id, eng) {
        l := ReadLLinearStreamed(addr);
      } else {
        l := Gd54xxLanes.ReadL(mem.bytes[..], Quadrant(mapping, addr), LinearIndex(n, addr));
      }
    }

    /** The streaming case of `gd54xx_readl_linear`: four linear byte reads, least significant first. */
    method ReadLLinearStreamed(addr: nat) returns (l: bv32)
      requires Valid() && Svga(chip) && !InMmioWindow(chip, mem.bytes.Length, addr % 0x400000)
      requires DestWaiting(eng) && !Aperture2On(chip.id, eng)
      modifies this, mem, mem.bytes, msdBuf
      ensures Valid() && (l, Snap()) == ReadLLinearOn(chip, old(Snap()), addr)
    {
      var b0, b1 := ReadBLinear2(addr);
      var b2, b3 := ReadBLinear2(addr + 2);
      l := Compose32(b0, b1, b2, b3);
    }

    /**
     * `gd54xx_writeb_linear`: outside SVGA modes a plain byte store at the
     * unmasked address; else a register write in the MMIO window, the byte to
     * a waiting transfer (no second aperture), or a store at the quadrant's
     * cell (quadrant 3 drops it).
     */
    method WriteBLinear(addr: nat, val: bv8)
      requires Valid()
      modifies this, mem, mem.bytes, msdBuf
      ensures Valid() && Snap() == WriteBLinearOn(chip, old(Snap()), addr, val)
    {
      var a := addr % 0x400000;
      var n := mem.bytes.Length;
      var ap := Quadrant(mapping, addr);
      if !Svga(chip) {
        mem.Plot(addr % n, val);
      } else if InMmioWindow(chip, n, a) {
        RegisterWrite(a % 256, val);
      } else if SrcWaiting(eng) && !Aperture2On(chip.id, eng) {
        MemSysSrcWrite(ap, val);
      } else if ap != 3 {
        var k := LinearIndex(n, addr);
        SwizzleInside(n, ap, k);
        mem.Plot(Swizzle(ap, k), val);
      }
    }

    /** `gd54xx_writew_linear`: `WriteBLinear`'s cases for a word; a waiting transfer takes two byte writes. */
    method WriteWLinear(addr: nat, val: bv16)
      requires Valid()
      modifies this, mem, mem.bytes, msdBuf
      ensures Valid() && Snap() == WriteWLinearOn(chip, old(Snap()), addr, val)
    {
      var a := addr % 0x400000;
      var n := mem.bytes.Length;
      var ap := Quadrant(mapping, addr);
      if !Svga(chip) {
        mem.PlotAll([addr % n, (addr + 1) % n], [Lane16(val, 0), Lane16(val, 1)]);
      } else if InMmioWindow(chip, n, a) {
        RegisterWrite(a % 256, Lane16(val, 0));
        RegisterWrite((a % 256 + 1) % 256, Lane16(val, 1));
      } else if SrcWaiting(eng) && !Aperture2On(chip.id, eng) {
        WriteBLinear2(addr, Lane16(val, 0), Lane16(val, 1));
      } else if ap != 3 {
        var k := LinearIndex(n, addr);
        ghost var m0 := mem.bytes[..];
        mem.PlotAll(WordCells(n, ap, k), [Lane16(val, 0), Lane16(val, 1)]);
        WordCellsStore(m0, ap, k, val);
      }
    }

    /** `gd54xx_writel_linear`: `WriteBLinear`'s cases for a dword; a waiting transfer takes four byte writes. */
    method WriteLLinear(addr: nat, val: bv32)
      requires Valid()
      modifies this, mem, mem.bytes, msdBuf
      ensures Valid() && Snap() == WriteLLinearOn(chip, old(Snap()), addr, val)
    {
      var a := addr % 0x400000;
      var n := mem.bytes.Length;
      var ap := Quadrant(mapping, addr);
      if !Svga(chip) {
        mem.PlotAll([addr % n, (addr + 1) % n, (addr + 2) % n, (addr + 3) % n], Bytes32(val));
      } else if InMmioWindow(chip, n, a) {
        RegisterWriteL(a % 256, val);
      } else if SrcWaiting(eng) && !Aperture2On(chip.id, eng) {
        WriteBLinear4(addr, Lane32(val, 0), Lane32(val, 1), Lane32(val, 2), Lane32(val, 3));
      } else if ap != 3 {
        var k := LinearIndex(n, addr);
        ghost var m0 := mem.bytes[..];
        mem.PlotAll(DwordCells(n, ap, k), Bytes32(val));
        DwordCellsStore(m0, ap, k, val);
      }
    }

    /** Four register writes of the bytes of `val` at `off` and the next three offsets, wrapping at 256. */
    method RegisterWriteL(off: int, val: bv32)
      requires Valid()
      modifies this, mem, mem.bytes, msdBuf
      ensures Valid() && Snap() == RegWriteLOn(chip, old(Snap()), off, val)
    {
      RegisterWrite(off, Lane32(val, 0));
      ghost var s1 := Snap();
      RegisterWrite((off + 1) % 256, Lane32(val, 1));
      ghost var s2 := Snap();
      RegisterWrite((off + 2) % 256, Lane32(val, 2));
      ghost var s3 := Snap();
      RegisterWrite((off + 3) % 256, Lane32(val, 3));
      ghost var s4 := Snap();
    }

    /** Four linear byte writes, `b0` to `b3` at `addr` and the next three addresses. */
    method WriteBLinear4(addr: nat, b0: bv8, b1: bv8, b2: bv8, b3: bv8)
      requires Valid()
      modifies this, mem, mem.bytes, msdBuf
      ensures Valid()
      ensures Snap() == WriteBLinear4On(chip, old(Snap()), addr, b0, b1, b2, b3)
    {
      WriteBLinear2(addr, b0, b1);
      WriteBLinear2(addr + 2, b2, b3);
    }

    /** Two linear byte writes, `v0` at `addr` and `v1` at the next address. */
    method WriteBLinear2(addr: nat, v0: bv8, v1: bv8)
      requires Valid()
      modifies this, mem, mem.bytes, msdBuf
      ensures Valid()
      ensures Snap() == WriteBLinear2On(chip, old(Snap()), addr, v0, v1)
    {
      WriteBLinear(addr, v0);
      WriteBLinear(addr + 1, v1);
    }

    /** `gd5436_aperture2_readb`: the next buffer byte of a transfer routed through the second aperture, else 0xff. */
    method Aperture2ReadB(addr: nat) returns (b: bv8)
      requires Valid()
      modifies this, mem, mem.bytes, msdBuf
      ensures Valid() && (b, Snap()) == Aperture2ReadBOn(chip, old(Snap()), addr)
    {
      if DestWaiting(eng) && Aperture2On(chip.id, eng) {
        b := MemSysDestRead(Quadrant(mapping, addr));
      } else {
        b := 0xff;
      }
    }

    /** `gd5436_aperture2_readw`: two byte reads while such a transfer has data, else all ones. */
    method Aperture2ReadW(addr: nat) returns (w: bv16)
      requires Valid()
      modifies this, mem, mem.bytes, msdBuf
      ensures Valid() && (w, Snap()) == Aperture2ReadWOn(chip, old(Snap()), addr)
    {
      if DestWaiting(eng) && Aperture2On(chip.id, eng) {
        var b0, b1 := Aperture2Read2(addr);
        w := Compose16(b0, b1);
      } else {
        w := 0xffff;
      }
    }

    /** `gd5436_aperture2_readl`: four byte reads while such a transfer has data, else all ones. */
    method Aperture2ReadL(addr: nat) returns (l: bv32)
      requires Valid()
      modifies this, mem, mem.bytes, msdBuf
      ensures Valid() && (l, Snap()) == Aperture2ReadLOn(chip, old(Snap()), addr)
    {
      if DestWaiting(eng) && Aperture2On(chip.id, eng) {
        var b0, b1 := Aperture2Read2(addr);
        var b2, b3 := Aperture2Read2(addr + 2);
        l := Compose32(b0, b1, b2, b3);
      } else {
        l := 0xffff_ffff;
      }
    }

    /** `gd5436_aperture2_writeb`: a transfer routed through the second aperture takes the byte; otherwise it is dropped. */
    method Aperture2WriteB(addr: nat, val: bv8)
      requires Valid()
      modifies this, mem, mem.bytes, msdBuf
      ensures Valid() && Snap() == Aperture2WriteBOn(chip, old(Snap()), addr, val)
    {
      if SrcWaiting(eng) && Aperture2On(chip.id, eng) {
        MemSysSrcWrite(Quadrant(mapping, addr), val);
      }
    }

    /** `gd5436_aperture2_writew`: two byte writes while such a transfer waits, else nothing. */
    method Aperture2WriteW(addr: nat, val: bv16)
      requires Valid()
      modifies this, mem, mem.bytes, msdBuf
      ensures Valid() && Snap() == Aperture2WriteWOn(chip, old(Snap()), addr, val)
    {
      if SrcWaiting(eng) && Aperture2On(chip.id, eng) {
        Aperture2Write2(addr, Lane16(val, 0), Lane16(val, 1));
      }
    }

    /** `gd5436_aperture2_writel`: four byte writes while such a transfer waits, else nothing. */
    method Aperture2WriteL(addr: nat, val: bv32)
      requires Valid()
      modifies this, mem, mem.bytes, msdBuf
      ensures Valid() && Snap() == Aperture2WriteLOn(chip, old(Snap()), addr, val)
    {
      if SrcWaiting(eng) && Aperture2On(chip.id, eng) {
        Aperture2Write2(addr, Lane32(val, 0), Lane32(val, 1));
        Aperture2Write2(addr + 2, Lane32(val, 2), Lane32(val, 3));
      }
    }
    /** Two banked writes, `v0` at `addr` and `v1` at the next address. */
    method Write2(addr: nat, v0: bv8, v1: bv8)
      requires Valid()
      modifies this, mem, mem.bytes, msdBuf
      ensures Valid() && Snap() == Write2On(chip, old(Snap()), addr, v0, v1)
    {
      Write(addr, v0);
      Write(addr + 1, v1);
    }

    /** Two MMIO writes, `v0` at `addr` and `v1` at the next address. */
    method MmioWrite2(addr: nat, v0: bv8, v1: bv8)
      requires Valid()
      modifies this, mem, mem.bytes, msdBuf
      ensures Valid() && Snap() == MmioWrite2On(chip, old(Snap()), addr, v0, v1)
    {
      MmioWrite(addr, v0);
      MmioWrite(addr + 1, v1);
    }

    /** Two linear byte reads, at `addr` and at the next address. */
    method ReadBLinear2(addr: nat) returns (b0: bv8, b1: bv8)
      requires Valid()
      modifies this, mem, mem.bytes, msdBuf
      ensures Valid() && (b0, b1, Snap()) == ReadBLinear2On(chip, old(Snap()), addr)
    {
      b0 := ReadBLinear(addr);
      b1 := ReadBLinear(addr + 1);
    }

    /** Two second-aperture byte reads, at `addr` and at the next address. */
    method Aperture2Read2(addr: nat) returns (b0: bv8, b1: bv8)
      requires Valid()
      modifies this, mem, mem.bytes, msdBuf
      ensures Valid() && (b0, b1, Snap()) == Aperture2Read2On(chip, old(Snap()), addr)
    {
      b0 := Aperture2ReadB(addr);
      b1 := Aperture2ReadB(addr + 1);
    }

    /** Two second-aperture byte writes, `v0` at `addr` and `v1` at the next address. */
    method Aperture2Write2(addr: nat, v0: bv8, v1: bv8)
      requires Valid()
      modifies this, mem, mem.bytes, msdBuf
      ensures Valid() && Snap() == Aperture2Write2On(chip, old(Snap()), addr, v0, v1)
    {
      Aperture2WriteB(addr, v0);
      Aperture2WriteB(addr + 1, v1);
    }
  }
}
