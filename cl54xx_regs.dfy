/*
 * The register file of the CL-GD54xx blitter as the memory-mapped window
 * (offsets 0x00-0x40 of the MMIO block) presents it: which bits each byte
 * write keeps on each chip revision, what each byte read returns, and which
 * writes start or reset the engine.
 */
module Gd54xxRegs {
  import opened Gd54xxOps

  /** The programmable blitter registers. */
  datatype Regs = Regs(
    bgCol: bv32, fgCol: bv32,
    width: bv16, height: bv16, dstPitch: bv16, srcPitch: bv16,
    dstAddr: bv32, srcAddr: bv32,
    mask: bv8, mode: bv8, rop: bv8, modeext: bv8,
    transCol: bv16, transMask: bv16,
    status: bv8)

  /** 5436 or later: the larger height field, the mode extension register and auto-start. */
  predicate Is5436(id: bv8) { id >= Id5436 }

  /** `v` with byte `i` replaced by `b`. */
  function SetLane32(v: bv32, i: int, b: bv8): bv32
    requires 0 <= i < 4
  {
    match i
    case 0 => (v & 0xffffff00) | (b as bv32)
    case 1 => (v & 0xffff00ff) | ((b as bv32) << 8)
    case 2 => (v & 0xff00ffff) | ((b as bv32) << 16)
    case 3 => (v & 0x00ffffff) | ((b as bv32) << 24)
  }

  /** `v` with its low byte replaced by `b`. */
  function SetLow16(v: bv16, b: bv8): bv16 { (v & 0xff00) | (b as bv16) }

  /** `v` with its high byte replaced by `b`. */
  function SetHigh16(v: bv16, b: bv8): bv16 { (v & 0x00ff) | ((b as bv16) << 8) }

  /**
   * A colour register byte: all four bytes on the 5434 and later, only the
   * low two (which also clears the upper half) on earlier chips.
   */
  function SetColour(id: bv8, c: bv32, i: int, b: bv8): bv32
    requires 0 <= i < 4
  {
    if Is5434(id) then SetLane32(c, i, b)
    else if i == 0 then (c & 0xff00) | (b as bv32)
    else if i == 1 then (c & 0x00ff) | ((b as bv32) << 8)
    else c
  }

  /** An address register byte; the high byte is cut to 22 bits (5434 and later) or 21 bits. */
  function SetAddress(id: bv8, a: bv32, i: int, b: bv8): bv32
    requires 0 <= i < 3
  {
    if i == 0 then (a & 0xffff00) | (b as bv32)
    else if i == 1 then (a & 0xff00ff) | ((b as bv32) << 8)
    else ((a & 0x00ffff) | ((b as bv32) << 16)) & (if Is5434(id) then 0x3fffff else 0x1fffff)
  }

  /** The register state after a byte write at MMIO offset `off`; unassigned offsets change nothing. */
  function WriteReg(id: bv8, r: Regs, off: int, val: bv8): Regs
  {
    match off
    case 0x00 => r.(bgCol := SetColour(id, r.bgCol, 0, val))
    case 0x01 => r.(bgCol := SetColour(id, r.bgCol, 1, val))
    case 0x02 => r.(bgCol := SetColour(id, r.bgCol, 2, val))
    case 0x03 => r.(bgCol := SetColour(id, r.bgCol, 3, val))
    case 0x04 => r.(fgCol := SetColour(id, r.fgCol, 0, val))
    case 0x05 => r.(fgCol := SetColour(id, r.fgCol, 1, val))
    case 0x06 => r.(fgCol := SetColour(id, r.fgCol, 2, val))
    case 0x07 => r.(fgCol := SetColour(id, r.fgCol, 3, val))
    case 0x08 => r.(width := SetLow16(r.width, val))
    case 0x09 => r.(width := SetHigh16(r.width, val) & (if Is5434(id) then 0x1fff else 0x07ff))
    case 0x0a => r.(height := SetLow16(r.height, val))
    case 0x0b => r.(height := SetHigh16(r.height, val) & (if Is5436(id) then 0x07ff else 0x03ff))
    case 0x0c => r.(dstPitch := SetLow16(r.dstPitch, val))
    case 0x0d => r.(dstPitch := SetHigh16(r.dstPitch, val) & 0x1fff)
    case 0x0e => r.(srcPitch := SetLow16(r.srcPitch, val))
    case 0x0f => r.(srcPitch := SetHigh16(r.srcPitch, val) & 0x1fff)
    case 0x10 => r.(dstAddr := SetAddress(id, r.dstAddr, 0, val))
    case 0x11 => r.(dstAddr := SetAddress(id, r.dstAddr, 1, val))
    case 0x12 => r.(dstAddr := SetAddress(id, r.dstAddr, 2, val))
    case 0x14 => r.(srcAddr := SetAddress(id, r.srcAddr, 0, val))
    case 0x15 => r.(srcAddr := SetAddress(id, r.srcAddr, 1, val))
    case 0x16 => r.(srcAddr := SetAddress(id, r.srcAddr, 2, val))
    case 0x17 => r.(mask := val)
    case 0x18 => r.(mode := val)
    case 0x1a => r.(rop := val)
    case 0x1b => if Is5436(id) then r.(modeext := val) else r
    case 0x1c => r.(transCol := SetLow16(r.transCol, val))
    case 0x1d => r.(transCol := SetHigh16(r.transCol, val))
    case 0x20 => r.(transMask := SetLow16(r.transMask, val))
    case 0x21 => r.(transMask := SetHigh16(r.transMask, val))
    case 0x40 => r.(status := val)
    case _ => r
  }

  /**
   * The bounds the width, height and pitch registers never leave: the
   * writes of their high bytes mask them to 13 bits (width, pitches) and
   * 11 bits (height) at most.
   */
  predicate Bounded(r: Regs)
  {
    r.width <= 0x1fff && r.height <= 0x7ff && r.dstPitch <= 0x1fff && r.srcPitch <= 0x1fff
  }

  /** Every register write keeps the bounds. */
  lemma WriteRegBounded(id: bv8, r: Regs, off: int, val: bv8)
    requires Bounded(r)
    ensures Bounded(WriteReg(id, r, off, val))
  {
    if off == 0x08 { WriteRegBounded08(id, r, val); } else
    if off == 0x09 { WriteRegBounded09(id, r, val); } else
    if off == 0x0a { WriteRegBounded0a(id, r, val); } else
    if off == 0x0b { WriteRegBounded0b(id, r, val); } else
    if off == 0x0c { WriteRegBounded0c(id, r, val); } else
    if off == 0x0d { WriteRegBounded0d(id, r, val); } else
    if off == 0x0e { WriteRegBounded0e(id, r, val); } else
    if off == 0x0f { WriteRegBounded0f(id, r, val); } else {
      WriteOwnerOnly(id, r, off, val, 2);
      WriteOwnerOnly(id, r, off, val, 3);
      WriteOwnerOnly(id, r, off, val, 4);
      WriteOwnerOnly(id, r, off, val, 5);
    }
  }

  lemma WriteRegBounded08(id: bv8, r: Regs, val: bv8)
    requires Bounded(r) ensures Bounded(WriteReg(id, r, 0x08, val)) { LowBounded(r.width, val, 0x1fff); }
  lemma WriteRegBounded09(id: bv8, r: Regs, val: bv8)
    requires Bounded(r) ensures Bounded(WriteReg(id, r, 0x09, val))
  { HighBounded(r.width, val, if Is5434(id) then 0x1fff else 0x07ff); }
  lemma WriteRegBounded0a(id: bv8, r: Regs, val: bv8)
    requires Bounded(r) ensures Bounded(WriteReg(id, r, 0x0a, val)) { LowBounded(r.height, val, 0x7ff); }
  lemma WriteRegBounded0b(id: bv8, r: Regs, val: bv8)
    requires Bounded(r) ensures Bounded(WriteReg(id, r, 0x0b, val))
  { HighBounded(r.height, val, if Is5436(id) then 0x07ff else 0x03ff); }
  lemma WriteRegBounded0c(id: bv8, r: Regs, val: bv8)
    requires Bounded(r) ensures Bounded(WriteReg(id, r, 0x0c, val)) { LowBounded(r.dstPitch, val, 0x1fff); }
  lemma WriteRegBounded0d(id: bv8, r: Regs, val: bv8)
    requires Bounded(r) ensures Bounded(WriteReg(id, r, 0x0d, val)) { HighBounded(r.dstPitch, val, 0x1fff); }
  lemma WriteRegBounded0e(id: bv8, r: Regs, val: bv8)
    requires Bounded(r) ensures Bounded(WriteReg(id, r, 0x0e, val)) { LowBounded(r.srcPitch, val, 0x1fff); }
  lemma WriteRegBounded0f(id: bv8, r: Regs, val: bv8)
    requires Bounded(r) ensures Bounded(WriteReg(id, r, 0x0f, val)) { HighBounded(r.srcPitch, val, 0x1fff); }

  /** Replacing the low byte of a register below 0x800 or 0x2000 keeps it there. */
  lemma LowBounded(v: bv16, b: bv8, m: bv16)
    requires v <= m && (m == 0x1fff || m == 0x7ff)
    ensures SetLow16(v, b) <= m
  {
  }

  /** Masking a register with the high-byte mask keeps it under the larger bound. */
  lemma HighBounded(v: bv16, b: bv8, m: bv16)
    requires m in {0x1fff, 0x7ff, 0x3ff}
    ensures SetHigh16(v, b) & m <= m && (m != 0x1fff ==> SetHigh16(v, b) & m <= 0x7ff)
  {
  }

  /** The value held in one register, at its own width. */
  datatype RegValue = Reg32(v32: bv32) | Reg16(v16: bv16) | Reg8(v8: bv8) | NoRegister

  /** Register `g`, numbered in declaration order; `NoRegister` for any other number. */
  function Register(r: Regs, g: int): RegValue
  {
    if g == 0 then Reg32(r.bgCol) else
    if g == 1 then Reg32(r.fgCol) else
    if g == 2 then Reg16(r.width) else
    if g == 3 then Reg16(r.height) else
    if g == 4 then Reg16(r.dstPitch) else
    if g == 5 then Reg16(r.srcPitch) else
    if g == 6 then Reg32(r.dstAddr) else
    if g == 7 then Reg32(r.srcAddr) else
    if g == 8 then Reg8(r.mask) else
    if g == 9 then Reg8(r.mode) else
    if g == 10 then Reg8(r.rop) else
    if g == 11 then Reg8(r.modeext) else
    if g == 12 then Reg16(r.transCol) else
    if g == 13 then Reg16(r.transMask) else
    if g == 14 then Reg8(r.status) else
    NoRegister
  }

  /** Byte `i` of a register value; bytes beyond its width read 0xff. */
  function RegByte(rv: RegValue, i: int): bv8
  {
    match rv
    case Reg32(v) => if 0 <= i < 4 then Lane32(v, i) else 0xff
    case Reg16(v) => if 0 <= i < 2 then Lane16(v, i) else 0xff
    case Reg8(v) => if i == 0 then v else 0xff
    case NoRegister => 0xff
  }

  /**
   * The byte a read at MMIO offset `off` returns, given the value `rv` of the
   * register the offset belongs to; unassigned offsets and absent bytes read 0xff.
   */
  function ReadField(id: bv8, off: int, rv: RegValue): bv8
  {
    match off
    case 0x00 => RegByte(rv, 0)
    case 0x01 => RegByte(rv, 1)
    case 0x02 => if Is5434(id) then RegByte(rv, 2) else 0xff
    case 0x03 => if Is5434(id) then RegByte(rv, 3) else 0xff
    case 0x04 => RegByte(rv, 0)
    case 0x05 => RegByte(rv, 1)
    case 0x06 => if Is5434(id) then RegByte(rv, 2) else 0xff
    case 0x07 => if Is5434(id) then RegByte(rv, 3) else 0xff
    case 0x08 => RegByte(rv, 0)
    case 0x09 => RegByte(rv, 1) & (if Is5434(id) then 0x1f else 0x07)
    case 0x0a => RegByte(rv, 0)
    case 0x0b => RegByte(rv, 1) & (if Is5436(id) then 0x07 else 0x03)
    case 0x0c => RegByte(rv, 0)
    case 0x0d => RegByte(rv, 1) & 0x1f
    case 0x0e => RegByte(rv, 0)
    case 0x0f => RegByte(rv, 1) & 0x1f
    case 0x10 => RegByte(rv, 0)
    case 0x11 => RegByte(rv, 1)
    case 0x12 => RegByte(rv, 2) & (if Is5434(id) then 0x3f else 0x1f)
    case 0x14 => RegByte(rv, 0)
    case 0x15 => RegByte(rv, 1)
    case 0x16 => RegByte(rv, 2) & (if Is5434(id) then 0x3f else 0x1f)
    case 0x17 => RegByte(rv, 0)
    case 0x18 => RegByte(rv, 0)
    case 0x1a => RegByte(rv, 0)
    case 0x1b => if Is5436(id) then RegByte(rv, 0) else 0xff
    case 0x1c => RegByte(rv, 0)
    case 0x1d => RegByte(rv, 1)
    case 0x20 => RegByte(rv, 0)
    case 0x21 => RegByte(rv, 1)
    case 0x40 => RegByte(rv, 0)
    case _ => 0xff
  }

  /** The byte a read at MMIO offset `off` returns. */
  function ReadReg(id: bv8, r: Regs, off: int): bv8
  {
    ReadField(id, off, Register(r, Owner(off)))
  }

  /** The register (numbered in declaration order) that MMIO offset `off` belongs to; -1 for none. */
  function Owner(off: int): (g: int)
    ensures -1 <= g < 15
  {
    match off
    case 0x00 => 0 case 0x01 => 0 case 0x02 => 0 case 0x03 => 0
    case 0x04 => 1 case 0x05 => 1 case 0x06 => 1 case 0x07 => 1
    case 0x08 => 2 case 0x09 => 2 case 0x0a => 3 case 0x0b => 3
    case 0x0c => 4 case 0x0d => 4 case 0x0e => 5 case 0x0f => 5
    case 0x10 => 6 case 0x11 => 6 case 0x12 => 6
    case 0x14 => 7 case 0x15 => 7 case 0x16 => 7
    case 0x17 => 8 case 0x18 => 9 case 0x1a => 10 case 0x1b => 11
    case 0x1c => 12 case 0x1d => 12 case 0x20 => 13 case 0x21 => 13
    case 0x40 => 14
    case _ => -1
  }

  /**
   * The register layout as a table: the bits of each offset that a write
   * keeps and a read returns on chip `id`. Zero marks an offset that is
   * absent on this chip (it reads as 0xff whatever was written).
   */
  function Implemented(id: bv8, off: int): (bits: bv8)
  {
    match off
    case 0x00 => 0xff case 0x01 => 0xff case 0x04 => 0xff case 0x05 => 0xff
    case 0x02 => (if Is5434(id) then 0xff else 0x00) case 0x03 => (if Is5434(id) then 0xff else 0x00)
    case 0x06 => (if Is5434(id) then 0xff else 0x00) case 0x07 => (if Is5434(id) then 0xff else 0x00)
    case 0x08 => 0xff case 0x09 => (if Is5434(id) then 0x1f else 0x07)
    case 0x0a => 0xff case 0x0b => (if Is5436(id) then 0x07 else 0x03)
    case 0x0c => 0xff case 0x0d => 0x1f case 0x0e => 0xff case 0x0f => 0x1f
    case 0x10 => 0xff case 0x11 => 0xff case 0x12 => (if Is5434(id) then 0x3f else 0x1f)
    case 0x14 => 0xff case 0x15 => 0xff case 0x16 => (if Is5434(id) then 0x3f else 0x1f)
    case 0x17 => 0xff case 0x18 => 0xff case 0x1a => 0xff case 0x1b => (if Is5436(id) then 0xff else 0x00)
    case 0x1c => 0xff case 0x1d => 0xff case 0x20 => 0xff case 0x21 => 0xff
    case 0x40 => 0xff
    case _ => 0x00
  }

  /** The value reading offset `off` gives after writing `val` there, by the layout table. */
  function ReadBack(id: bv8, off: int, val: bv8): bv8
  {
    if Implemented(id, off) == 0 then 0xff else val & Implemented(id, off)
  }

  /** Reading a register just written gives the written bits the chip keeps, and 0xff where it has none. */
  lemma ReadAfterWrite(id: bv8, r: Regs, off: int, val: bv8)
    ensures ReadReg(id, WriteReg(id, r, off, val), off) == ReadBack(id, off, val)
  {
    if off == 0x00 { ReadAfterWrite00(id, r, val); } else
    if off == 0x01 { ReadAfterWrite01(id, r, val); } else
    if off == 0x02 { ReadAfterWrite02(id, r, val); } else
    if off == 0x03 { ReadAfterWrite03(id, r, val); } else
    if off == 0x04 { ReadAfterWrite04(id, r, val); } else
    if off == 0x05 { ReadAfterWrite05(id, r, val); } else
    if off == 0x06 { ReadAfterWrite06(id, r, val); } else
    if off == 0x07 { ReadAfterWrite07(id, r, val); } else
    if off == 0x08 { ReadAfterWrite08(id, r, val); } else
    if off == 0x09 { ReadAfterWrite09(id, r, val); } else
    if off == 0x0a { ReadAfterWrite0a(id, r, val); } else
    if off == 0x0b { ReadAfterWrite0b(id, r, val); } else
    if off == 0x0c { ReadAfterWrite0c(id, r, val); } else
    if off == 0x0d { ReadAfterWrite0d(id, r, val); } else
    if off == 0x0e { ReadAfterWrite0e(id, r, val); } else
    if off == 0x0f { ReadAfterWrite0f(id, r, val); } else
    if off == 0x10 { ReadAfterWrite10(id, r, val); } else
    if off == 0x11 { ReadAfterWrite11(id, r, val); } else
    if off == 0x12 { ReadAfterWrite12(id, r, val); } else
    if off == 0x14 { ReadAfterWrite14(id, r, val); } else
    if off == 0x15 { ReadAfterWrite15(id, r, val); } else
    if off == 0x16 { ReadAfterWrite16(id, r, val); } else
    if off == 0x17 { ReadAfterWrite17(id, r, val); } else
    if off == 0x18 { ReadAfterWrite18(id, r, val); } else
    if off == 0x1a { ReadAfterWrite1a(id, r, val); } else
    if off == 0x1b { ReadAfterWrite1b(id, r, val); } else
    if off == 0x1c { ReadAfterWrite1c(id, r, val); } else
    if off == 0x1d { ReadAfterWrite1d(id, r, val); } else
    if off == 0x20 { ReadAfterWrite20(id, r, val); } else
    if off == 0x21 { ReadAfterWrite21(id, r, val); } else
    if off == 0x40 { ReadAfterWrite40(id, r, val); } else {
      assert WriteReg(id, r, off, val) == r;
    }
  }

  // One lemma per register keeps each bit-vector identity a separate, small proof.
  lemma ReadAfterWrite00(id: bv8, r: Regs, val: bv8)
    ensures ReadReg(id, WriteReg(id, r, 0x00, val), 0x00) == ReadBack(id, 0x00, val) {}
  lemma ReadAfterWrite01(id: bv8, r: Regs, val: bv8)
    ensures ReadReg(id, WriteReg(id, r, 0x01, val), 0x01) == ReadBack(id, 0x01, val) {}
  lemma ReadAfterWrite02(id: bv8, r: Regs, val: bv8)
    ensures ReadReg(id, WriteReg(id, r, 0x02, val), 0x02) == ReadBack(id, 0x02, val) {}
  lemma ReadAfterWrite03(id: bv8, r: Regs, val: bv8)
    ensures ReadReg(id, WriteReg(id, r, 0x03, val), 0x03) == ReadBack(id, 0x03, val) {}
  lemma ReadAfterWrite04(id: bv8, r: Regs, val: bv8)
    ensures ReadReg(id, WriteReg(id, r, 0x04, val), 0x04) == ReadBack(id, 0x04, val) {}
  lemma ReadAfterWrite05(id: bv8, r: Regs, val: bv8)
    ensures ReadReg(id, WriteReg(id, r, 0x05, val), 0x05) == ReadBack(id, 0x05, val) {}
  lemma ReadAfterWrite06(id: bv8, r: Regs, val: bv8)
    ensures ReadReg(id, WriteReg(id, r, 0x06, val), 0x06) == ReadBack(id, 0x06, val) {}
  lemma ReadAfterWrite07(id: bv8, r: Regs, val: bv8)
    ensures ReadReg(id, WriteReg(id, r, 0x07, val), 0x07) == ReadBack(id, 0x07, val) {}
  lemma ReadAfterWrite08(id: bv8, r: Regs, val: bv8)
    ensures ReadReg(id, WriteReg(id, r, 0x08, val), 0x08) == ReadBack(id, 0x08, val) {}
  lemma ReadAfterWrite09(id: bv8, r: Regs, val: bv8)
    ensures ReadReg(id, WriteReg(id, r, 0x09, val), 0x09) == ReadBack(id, 0x09, val) {}
  lemma ReadAfterWrite0a(id: bv8, r: Regs, val: bv8)
    ensures ReadReg(id, WriteReg(id, r, 0x0a, val), 0x0a) == ReadBack(id, 0x0a, val) {}
  lemma ReadAfterWrite0b(id: bv8, r: Regs, val: bv8)
    ensures ReadReg(id, WriteReg(id, r, 0x0b, val), 0x0b) == ReadBack(id, 0x0b, val) {}
  lemma ReadAfterWrite0c(id: bv8, r: Regs, val: bv8)
    ensures ReadReg(id, WriteReg(id, r, 0x0c, val), 0x0c) == ReadBack(id, 0x0c, val) {}
  lemma ReadAfterWrite0d(id: bv8, r: Regs, val: bv8)
    ensures ReadReg(id, WriteReg(id, r, 0x0d, val), 0x0d) == ReadBack(id, 0x0d, val) {}
  lemma ReadAfterWrite0e(id: bv8, r: Regs, val: bv8)
    ensures ReadReg(id, WriteReg(id, r, 0x0e, val), 0x0e) == ReadBack(id, 0x0e, val) {}
  lemma ReadAfterWrite0f(id: bv8, r: Regs, val: bv8)
    ensures ReadReg(id, WriteReg(id, r, 0x0f, val), 0x0f) == ReadBack(id, 0x0f, val) {}
  lemma ReadAfterWrite10(id: bv8, r: Regs, val: bv8)
    ensures ReadReg(id, WriteReg(id, r, 0x10, val), 0x10) == ReadBack(id, 0x10, val) {}
  lemma ReadAfterWrite11(id: bv8, r: Regs, val: bv8)
    ensures ReadReg(id, WriteReg(id, r, 0x11, val), 0x11) == ReadBack(id, 0x11, val) {}
  lemma ReadAfterWrite12(id: bv8, r: Regs, val: bv8)
    ensures ReadReg(id, WriteReg(id, r, 0x12, val), 0x12) == ReadBack(id, 0x12, val) {}
  lemma ReadAfterWrite14(id: bv8, r: Regs, val: bv8)
    ensures ReadReg(id, WriteReg(id, r, 0x14, val), 0x14) == ReadBack(id, 0x14, val) {}
  lemma ReadAfterWrite15(id: bv8, r: Regs, val: bv8)
    ensures ReadReg(id, WriteReg(id, r, 0x15, val), 0x15) == ReadBack(id, 0x15, val) {}
  lemma ReadAfterWrite16(id: bv8, r: Regs, val: bv8)
    ensures ReadReg(id, WriteReg(id, r, 0x16, val), 0x16) == ReadBack(id, 0x16, val) {}
  lemma ReadAfterWrite17(id: bv8, r: Regs, val: bv8)
    ensures ReadReg(id, WriteReg(id, r, 0x17, val), 0x17) == ReadBack(id, 0x17, val) {}
  lemma ReadAfterWrite18(id: bv8, r: Regs, val: bv8)
    ensures ReadReg(id, WriteReg(id, r, 0x18, val), 0x18) == ReadBack(id, 0x18, val) {}
  lemma ReadAfterWrite1a(id: bv8, r: Regs, val: bv8)
    ensures ReadReg(id, WriteReg(id, r, 0x1a, val), 0x1a) == ReadBack(id, 0x1a, val) {}
  lemma ReadAfterWrite1b(id: bv8, r: Regs, val: bv8)
    ensures ReadReg(id, WriteReg(id, r, 0x1b, val), 0x1b) == ReadBack(id, 0x1b, val) {}
  lemma ReadAfterWrite1c(id: bv8, r: Regs, val: bv8)
    ensures ReadReg(id, WriteReg(id, r, 0x1c, val), 0x1c) == ReadBack(id, 0x1c, val) {}
  lemma ReadAfterWrite1d(id: bv8, r: Regs, val: bv8)
    ensures ReadReg(id, WriteReg(id, r, 0x1d, val), 0x1d) == ReadBack(id, 0x1d, val) {}
  lemma ReadAfterWrite20(id: bv8, r: Regs, val: bv8)
    ensures ReadReg(id, WriteReg(id, r, 0x20, val), 0x20) == ReadBack(id, 0x20, val) {}
  lemma ReadAfterWrite21(id: bv8, r: Regs, val: bv8)
    ensures ReadReg(id, WriteReg(id, r, 0x21, val), 0x21) == ReadBack(id, 0x21, val) {}
  lemma ReadAfterWrite40(id: bv8, r: Regs, val: bv8)
    ensures ReadReg(id, WriteReg(id, r, 0x40, val), 0x40) == ReadBack(id, 0x40, val) {}


  /** A byte write changes no register other than the one its offset belongs to. */
  lemma WriteOwnerOnly(id: bv8, r: Regs, off: int, val: bv8, g: int)
    requires g != Owner(off)
    ensures Register(WriteReg(id, r, off, val), g) == Register(r, g)
  {
    if off == 0x00 { WriteOwnerOnly00(id, r, val, g); } else
    if off == 0x01 { WriteOwnerOnly01(id, r, val, g); } else
    if off == 0x02 { WriteOwnerOnly02(id, r, val, g); } else
    if off == 0x03 { WriteOwnerOnly03(id, r, val, g); } else
    if off == 0x04 { WriteOwnerOnly04(id, r, val, g); } else
    if off == 0x05 { WriteOwnerOnly05(id, r, val, g); } else
    if off == 0x06 { WriteOwnerOnly06(id, r, val, g); } else
    if off == 0x07 { WriteOwnerOnly07(id, r, val, g); } else
    if off == 0x08 { WriteOwnerOnly08(id, r, val, g); } else
    if off == 0x09 { WriteOwnerOnly09(id, r, val, g); } else
    if off == 0x0a { WriteOwnerOnly0a(id, r, val, g); } else
    if off == 0x0b { WriteOwnerOnly0b(id, r, val, g); } else
    if off == 0x0c { WriteOwnerOnly0c(id, r, val, g); } else
    if off == 0x0d { WriteOwnerOnly0d(id, r, val, g); } else
    if off == 0x0e { WriteOwnerOnly0e(id, r, val, g); } else
    if off == 0x0f { WriteOwnerOnly0f(id, r, val, g); } else
    if off == 0x10 { WriteOwnerOnly10(id, r, val, g); } else
    if off == 0x11 { WriteOwnerOnly11(id, r, val, g); } else
    if off == 0x12 { WriteOwnerOnly12(id, r, val, g); } else
    if off == 0x14 { WriteOwnerOnly14(id, r, val, g); } else
    if off == 0x15 { WriteOwnerOnly15(id, r, val, g); } else
    if off == 0x16 { WriteOwnerOnly16(id, r, val, g); } else
    if off == 0x17 { WriteOwnerOnly17(id, r, val, g); } else
    if off == 0x18 { WriteOwnerOnly18(id, r, val, g); } else
    if off == 0x1a { WriteOwnerOnly1a(id, r, val, g); } else
    if off == 0x1b { WriteOwnerOnly1b(id, r, val, g); } else
    if off == 0x1c { WriteOwnerOnly1c(id, r, val, g); } else
    if off == 0x1d { WriteOwnerOnly1d(id, r, val, g); } else
    if off == 0x20 { WriteOwnerOnly20(id, r, val, g); } else
    if off == 0x21 { WriteOwnerOnly21(id, r, val, g); } else
    if off == 0x40 { WriteOwnerOnly40(id, r, val, g); } else {
      assert WriteReg(id, r, off, val) == r;
    }
  }

  lemma WriteOwnerOnly00(id: bv8, r: Regs, val: bv8, g: int)
    requires g != Owner(0x00) ensures Register(WriteReg(id, r, 0x00, val), g) == Register(r, g) {}
  lemma WriteOwnerOnly01(id: bv8, r: Regs, val: bv8, g: int)
    requires g != Owner(0x01) ensures Register(WriteReg(id, r, 0x01, val), g) == Register(r, g) {}
  lemma WriteOwnerOnly02(id: bv8, r: Regs, val: bv8, g: int)
    requires g != Owner(0x02) ensures Register(WriteReg(id, r, 0x02, val), g) == Register(r, g) {}
  lemma WriteOwnerOnly03(id: bv8, r: Regs, val: bv8, g: int)
    requires g != Owner(0x03) ensures Register(WriteReg(id, r, 0x03, val), g) == Register(r, g) {}
  lemma WriteOwnerOnly04(id: bv8, r: Regs, val: bv8, g: int)
    requires g != Owner(0x04) ensures Register(WriteReg(id, r, 0x04, val), g) == Register(r, g) {}
  lemma WriteOwnerOnly05(id: bv8, r: Regs, val: bv8, g: int)
    requires g != Owner(0x05) ensures Register(WriteReg(id, r, 0x05, val), g) == Register(r, g) {}
  lemma WriteOwnerOnly06(id: bv8, r: Regs, val: bv8, g: int)
    requires g != Owner(0x06) ensures Register(WriteReg(id, r, 0x06, val), g) == Register(r, g) {}
  lemma WriteOwnerOnly07(id: bv8, r: Regs, val: bv8, g: int)
    requires g != Owner(0x07) ensures Register(WriteReg(id, r, 0x07, val), g) == Register(r, g) {}
  lemma WriteOwnerOnly08(id: bv8, r: Regs, val: bv8, g: int)
    requires g != Owner(0x08) ensures Register(WriteReg(id, r, 0x08, val), g) == Register(r, g) {}
  lemma WriteOwnerOnly09(id: bv8, r: Regs, val: bv8, g: int)
    requires g != Owner(0x09) ensures Register(WriteReg(id, r, 0x09, val), g) == Register(r, g) {}
  lemma WriteOwnerOnly0a(id: bv8, r: Regs, val: bv8, g: int)
    requires g != Owner(0x0a) ensures Register(WriteReg(id, r, 0x0a, val), g) == Register(r, g) {}
  lemma WriteOwnerOnly0b(id: bv8, r: Regs, val: bv8, g: int)
    requires g != Owner(0x0b) ensures Register(WriteReg(id, r, 0x0b, val), g) == Register(r, g) {}
  lemma WriteOwnerOnly0c(id: bv8, r: Regs, val: bv8, g: int)
    requires g != Owner(0x0c) ensures Register(WriteReg(id, r, 0x0c, val), g) == Register(r, g) {}
  lemma WriteOwnerOnly0d(id: bv8, r: Regs, val: bv8, g: int)
    requires g != Owner(0x0d) ensures Register(WriteReg(id, r, 0x0d, val), g) == Register(r, g) {}
  lemma WriteOwnerOnly0e(id: bv8, r: Regs, val: bv8, g: int)
    requires g != Owner(0x0e) ensures Register(WriteReg(id, r, 0x0e, val), g) == Register(r, g) {}
  lemma WriteOwnerOnly0f(id: bv8, r: Regs, val: bv8, g: int)
    requires g != Owner(0x0f) ensures Register(WriteReg(id, r, 0x0f, val), g) == Register(r, g) {}
  lemma WriteOwnerOnly10(id: bv8, r: Regs, val: bv8, g: int)
    requires g != Owner(0x10) ensures Register(WriteReg(id, r, 0x10, val), g) == Register(r, g) {}
  lemma WriteOwnerOnly11(id: bv8, r: Regs, val: bv8, g: int)
    requires g != Owner(0x11) ensures Register(WriteReg(id, r, 0x11, val), g) == Register(r, g) {}
  lemma WriteOwnerOnly12(id: bv8, r: Regs, val: bv8, g: int)
    requires g != Owner(0x12) ensures Register(WriteReg(id, r, 0x12, val), g) == Register(r, g) {}
  lemma WriteOwnerOnly14(id: bv8, r: Regs, val: bv8, g: int)
    requires g != Owner(0x14) ensures Register(WriteReg(id, r, 0x14, val), g) == Register(r, g) {}
  lemma WriteOwnerOnly15(id: bv8, r: Regs, val: bv8, g: int)
    requires g != Owner(0x15) ensures Register(WriteReg(id, r, 0x15, val), g) == Register(r, g) {}
  lemma WriteOwnerOnly16(id: bv8, r: Regs, val: bv8, g: int)
    requires g != Owner(0x16) ensures Register(WriteReg(id, r, 0x16, val), g) == Register(r, g) {}
  lemma WriteOwnerOnly17(id: bv8, r: Regs, val: bv8, g: int)
    requires g != Owner(0x17) ensures Register(WriteReg(id, r, 0x17, val), g) == Register(r, g) {}
  lemma WriteOwnerOnly18(id: bv8, r: Regs, val: bv8, g: int)
    requires g != Owner(0x18) ensures Register(WriteReg(id, r, 0x18, val), g) == Register(r, g) {}
  lemma WriteOwnerOnly1a(id: bv8, r: Regs, val: bv8, g: int)
    requires g != Owner(0x1a) ensures Register(WriteReg(id, r, 0x1a, val), g) == Register(r, g) {}
  lemma WriteOwnerOnly1b(id: bv8, r: Regs, val: bv8, g: int)
    requires g != Owner(0x1b) ensures Register(WriteReg(id, r, 0x1b, val), g) == Register(r, g) {}
  lemma WriteOwnerOnly1c(id: bv8, r: Regs, val: bv8, g: int)
    requires g != Owner(0x1c) ensures Register(WriteReg(id, r, 0x1c, val), g) == Register(r, g) {}
  lemma WriteOwnerOnly1d(id: bv8, r: Regs, val: bv8, g: int)
    requires g != Owner(0x1d) ensures Register(WriteReg(id, r, 0x1d, val), g) == Register(r, g) {}
  lemma WriteOwnerOnly20(id: bv8, r: Regs, val: bv8, g: int)
    requires g != Owner(0x20) ensures Register(WriteReg(id, r, 0x20, val), g) == Register(r, g) {}
  lemma WriteOwnerOnly21(id: bv8, r: Regs, val: bv8, g: int)
    requires g != Owner(0x21) ensures Register(WriteReg(id, r, 0x21, val), g) == Register(r, g) {}
  lemma WriteOwnerOnly40(id: bv8, r: Regs, val: bv8, g: int)
    requires g != Owner(0x40) ensures Register(WriteReg(id, r, 0x40, val), g) == Register(r, g) {}

  /** A byte write never changes what an offset of another register reads. */
  lemma WriteFrame(id: bv8, r: Regs, off: int, val: bv8, other: int)
    requires Owner(other) != Owner(off)
    ensures ReadReg(id, WriteReg(id, r, off, val), other) == ReadReg(id, r, other)
  {
    WriteOwnerOnly(id, r, off, val, Owner(other));
  }

  /** What a register byte write sets in motion besides storing the byte. */
  datatype Action = NoAction | ResetEngine | StartEngine

  /**
   * The engine action a write of `val` at offset `off` triggers, given the
   * registers `before` it: on the 5436 and later a write of the top
   * destination byte starts the engine when auto-start is set and it is idle;
   * a status write resets it on a rising RESET bit and otherwise starts it on
   * a rising START bit.
   */
  function WriteAction(id: bv8, before: Regs, off: int, val: bv8): Action
  {
    if off == 0x12 then
      if Is5436(id) && before.status & StatusAutoStart != 0 && before.status & StatusBusy == 0
      then StartEngine else NoAction
    else if off == 0x40 then
      if before.status & StatusReset == 0 && val & StatusReset != 0 then ResetEngine
      else if before.status & StatusStart == 0 && val & StatusStart != 0 then StartEngine
      else NoAction
    else NoAction
  }

  /** Only the top destination byte and the status register trigger anything. */
  lemma ActionOffsets(id: bv8, before: Regs, off: int, val: bv8)
    ensures WriteAction(id, before, off, val) != NoAction ==> off == 0x12 || off == 0x40
  {
  }

  /**
   * Writing back the status already held triggers nothing: both RESET and
   * START act on a rising edge only.
   */
  lemma StatusRewriteIdle(id: bv8, r: Regs)
    ensures WriteAction(id, r, 0x40, r.status) == NoAction
  {
  }

  /** A status write that raises RESET resets the engine, whatever it does to START. */
  lemma ResetWins(id: bv8, r: Regs, val: bv8)
    ensures WriteAction(id, r, 0x40, val) == ResetEngine
        <==> r.status & StatusReset == 0 && val & StatusReset != 0
  {
  }

  /** A status write starts the engine exactly on a rising START bit that is not also a rising RESET. */
  lemma StartOnRisingEdge(id: bv8, r: Regs, val: bv8)
    ensures WriteAction(id, r, 0x40, val) == StartEngine
        <==> !(r.status & StatusReset == 0 && val & StatusReset != 0)
             && r.status & StatusStart == 0 && val & StatusStart != 0
  {
  }

  /** Auto-start fires only on the 5436 and later, and never while the engine is busy. */
  lemma AutoStartIff(id: bv8, r: Regs, val: bv8)
    ensures WriteAction(id, r, 0x12, val) == StartEngine
        <==> Is5436(id) && r.status & StatusAutoStart != 0 && r.status & StatusBusy == 0
  {
  }
}
