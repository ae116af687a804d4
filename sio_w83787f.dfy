/*
 * Winbond W83787F Super I/O configuration port.
 *
 * The chip answers on three I/O ports: 0x250 takes the unlock key, 0x251
 * selects a configuration register and 0x252 reads or writes it. Writes that
 * change address-select bits re-decode where the serial ports, the parallel
 * port and the floppy controller sit; those re-decodes are calls into other
 * devices and are modelled here as a list of effects carrying the decoded
 * values.
 */
module W83787F {

  const ConfigPort := 0x250
  const IndexPort := 0x251
  const DataPort := 0x252
  /** Number of bytes in the register file. */
  const RegCount := 42
  /** Largest index port 0x251 accepts. */
  const MaxIndex: bv8 := 0x15

  /** Where a legacy port is decoded, or that it is switched off. */
  datatype PortConfig = Disabled | Enabled(base: int, irq: int)

  /** Where the floppy controller is decoded. */
  datatype FdcConfig = FdcOff | FdcAt(base: int)

  /** A call the chip makes into another device model. */
  datatype Effect =
    | UartSetup(uart: int, cfg: PortConfig)
    | LptSetup(cfg: PortConfig)
    | FdcAttach(fdc: FdcConfig)
    | FdcSwap(swap: bool)
    | FdcRwc(drive: int, kind: bv8)
    | FdcBootDrive(boot: bv8)
    | FdcWriteProtect(on: bool)
    | FdcDisableWrite(on: bool)
    | FdcEnhancedMode(on: bool)
    | FdcReset

  /** COM1 and COM2 as the serial layer defines them. */
  const Serial1 := Enabled(0x3f8, 4)
  const Serial2 := Enabled(0x2f8, 3)

  /** The unlock key: 0x88 with bit 0 taken from HEFERE, bit 5 of register 0xC. */
  function Key(r0c: bv8): (k: bv8)
    ensures k == 0x88 || k == 0x89
    ensures k == 0x89 <==> r0c & 0x20 != 0
  {
    0x88 | ((r0c >> 5) & 1)
  }

  /** Address and IRQ of UART `uart` (0 or 1) for registers 1, 3 and 4. */
  function UartDecode(r1: bv8, r3: bv8, r4: bv8, uart: int): (c: PortConfig)
    requires uart == 0 || uart == 1
    ensures c.Enabled? ==> c.base in {0x3f8, 0x2f8, 0x3e8, 0x2e8} && c.irq in {3, 4}
    ensures r4 & (if uart == 0 then 0x20 else 0x10) != 0 ==> c == Disabled
  {
    var urs0 := r1 & (if uart == 0 then 0x01 else 0x02) != 0;
    var urs1 := r1 & (if uart == 0 then 0x04 else 0x08) != 0;
    var urs2 := r3 & (if uart == 0 then 0x08 else 0x04) != 0;
    var decoded :=
      if urs2 then
        (if uart == 1 then Enabled(0x3f8, 4) else Enabled(0x2f8, 3))
      else if !urs1 && !urs0 then
        (if uart == 1 then Enabled(0x3e8, 4) else Enabled(0x2e8, 3))
      else if !urs1 && urs0 then
        (if uart == 1 then Enabled(0x2e8, 3) else Enabled(0x3e8, 4))
      else if urs1 && !urs0 then
        (if uart == 1 then Enabled(0x2f8, 3) else Enabled(0x3f8, 4))
      else Disabled;
    if r4 & (if uart == 0 then 0x20 else 0x10) != 0 then Disabled else decoded
  }

  /** The port table indexed by the two-bit printer select `ptrs`. */
  function LptTable(ptrs0: bool, ptrs1: bool): PortConfig
  {
    if !ptrs1 && !ptrs0 then Enabled(0x3bc, 7)
    else if !ptrs1 && ptrs0 then Enabled(0x278, 5)
    else if ptrs1 && !ptrs0 then Enabled(0x378, 7)
    else Disabled
  }

  /**
   * The parallel-port decode as the chip model writes it: the low select bit
   * is bit 2 of register 1 and the high one is "bit 0 or bit 2", so the high
   * bit is set whenever the low one is.
   */
  function LptDecodeAsWritten(r1: bv8, r4: bv8): (c: PortConfig)
    ensures r4 & 0x80 != 0 ==> c == Disabled
  {
    if r4 & 0x80 != 0 then Disabled else LptTable(r1 & 4 != 0, r1 & 5 != 0)
  }

  /**
   * The parallel-port decode with the select bits the write handler watches
   * (bits 4 and 5 of register 1); this is the decode the device below uses.
   */
  function LptDecode(r1: bv8, r4: bv8): (c: PortConfig)
    ensures r4 & 0x80 != 0 ==> c == Disabled
    ensures c.Enabled? ==> c in {Enabled(0x3bc, 7), Enabled(0x278, 5), Enabled(0x378, 7)}
  {
    if r4 & 0x80 != 0 then Disabled else LptTable(r1 & 0x10 != 0, r1 & 0x20 != 0)
  }

  /** Floppy controller base from register 0: off when bit 5 is set. */
  function FdcDecode(r0: bv8): (c: FdcConfig)
    ensures c == FdcOff <==> r0 & 0x20 != 0
    ensures c.FdcAt? ==> (c.base == 0x3f0 <==> r0 & 0x10 != 0)
  {
    if r0 & 0x20 != 0 then FdcOff else FdcAt(if r0 & 0x10 != 0 then 0x3f0 else 0x370)
  }

  /** Register 6 keeps only the bits of 0xF3; every other register stores the byte. */
  function Stored(reg: bv8, val: bv8): (s: bv8)
    ensures reg != 6 ==> s == val
    ensures reg == 6 ==> s & 0x0c == 0 && s | (val & 0x0c) == val
  {
    if reg == 6 then val & 0xF3 else val
  }

  /** The effect for `e` when `valxor & bits` is non-zero, else nothing. */
  function When(valxor: bv8, bits: bv8, e: Effect): seq<Effect>
  {
    if valxor & bits != 0 then [e] else []
  }

  /**
   * The calls a data write to register `reg` makes, given the bits it
   * changed (`valxor`) and the register file after the write.
   */
  function WriteEffects(reg: bv8, valxor: bv8, r: seq<bv8>): seq<Effect>
    requires |r| == RegCount
  {
    if reg == 0 then
      When(valxor, 0x30, FdcAttach(FdcDecode(r[0])))
      + When(valxor, 0x0c, LptSetup(LptDecode(r[1], r[4])))
    else if reg == 1 then
      When(valxor, 0x80, FdcSwap(r[1] & 0x80 != 0))
      + When(valxor, 0x30, LptSetup(LptDecode(r[1], r[4])))
      + When(valxor, 0x0a, UartSetup(1, UartDecode(r[1], r[3], r[4], 1)))
      + When(valxor, 0x05, UartSetup(0, UartDecode(r[1], r[3], r[4], 0)))
    else if reg == 3 then
      When(valxor, 0x80, LptSetup(LptDecode(r[1], r[4])))
      + When(valxor, 0x08, UartSetup(0, UartDecode(r[1], r[3], r[4], 0)))
      + When(valxor, 0x04, UartSetup(1, UartDecode(r[1], r[3], r[4], 1)))
    else if reg == 4 then
      When(valxor, 0x10, UartSetup(1, UartDecode(r[1], r[3], r[4], 1)))
      + When(valxor, 0x20, UartSetup(0, UartDecode(r[1], r[3], r[4], 0)))
      + When(valxor, 0x80, LptSetup(LptDecode(r[1], r[4])))
    else if reg == 6 then
      When(valxor, 0x08, FdcAttach(if r[6] & 0x08 == 0 then FdcAt(0x3f0) else FdcOff))
    else if reg == 7 then
      When(valxor, 0x03, FdcRwc(0, r[7] & 3))
      + When(valxor, 0x0c, FdcRwc(1, (r[7] >> 2) & 3))
      + When(valxor, 0x30, FdcRwc(2, (r[7] >> 4) & 3))
      + When(valxor, 0xc0, FdcRwc(3, (r[7] >> 6) & 3))
    else if reg == 8 then
      When(valxor, 0x03, FdcBootDrive(r[8] & 3))
      + When(valxor, 0x10, FdcWriteProtect(r[8] & 0x10 != 0))
      + When(valxor, 0x20, FdcDisableWrite(r[8] & 0x20 != 0))
    else if reg == 9 then
      When(valxor, 0x20, FdcEnhancedMode(r[9] & 0x20 != 0))
      + When(valxor, 0x80, LptSetup(LptDecode(r[1], r[4])))
    else []
  }

  /** Every printer setup in `fx` sets the port up as `c`. */
  ghost predicate PrinterAs(fx: seq<Effect>, c: PortConfig)
  {
    forall i :: 0 <= i < |fx| && fx[i].LptSetup? ==> fx[i].cfg == c
  }

  /** Two effect lists that set the printer up as `c` do so one after the other. */
  lemma PrinterAsJoin(a: seq<Effect>, b: seq<Effect>, c: PortConfig)
    requires PrinterAs(a, c) && PrinterAs(b, c)
    ensures PrinterAs(a + b, c)
  {
    forall i | 0 <= i < |a + b| && (a + b)[i].LptSetup?
      ensures (a + b)[i].cfg == c
    {
      if i >= |a| {
        assert (a + b)[i] == b[i - |a|];
      }
    }
  }

  /** A call made only when `valxor & bits` is non-zero keeps `PrinterAs` when it is not a printer setup other than `c`. */
  lemma PrinterAsWhen(valxor: bv8, bits: bv8, e: Effect, c: PortConfig)
    requires e.LptSetup? ==> e.cfg == c
    ensures PrinterAs(When(valxor, bits, e), c)
  {
  }

  /**
   * Every printer setup a data write calls for uses the decode of select
   * bits 4-5 of register 1 (`LptDecode`), whichever register was written.
   */
  lemma {:induction false} WriteEffectsPrinter(reg: bv8, valxor: bv8, r: seq<bv8>)
    requires |r| == RegCount
    ensures PrinterAs(WriteEffects(reg, valxor, r), LptDecode(r[1], r[4]))
  {
    var c := LptDecode(r[1], r[4]);
    var lpt := LptSetup(c);
    var u0 := UartSetup(0, UartDecode(r[1], r[3], r[4], 0));
    var u1 := UartSetup(1, UartDecode(r[1], r[3], r[4], 1));
    if reg == 0 {
      var a, b := When(valxor, 0x30, FdcAttach(FdcDecode(r[0]))), When(valxor, 0x0c, lpt);
      PrinterAsWhen(valxor, 0x30, FdcAttach(FdcDecode(r[0])), c);
      PrinterAsWhen(valxor, 0x0c, lpt, c);
      PrinterAsJoin(a, b, c);
    } else if reg == 1 {
      var a, b := When(valxor, 0x80, FdcSwap(r[1] & 0x80 != 0)), When(valxor, 0x30, lpt);
      var d, f := When(valxor, 0x0a, u1), When(valxor, 0x05, u0);
      PrinterAsWhen(valxor, 0x80, FdcSwap(r[1] & 0x80 != 0), c);
      PrinterAsWhen(valxor, 0x30, lpt, c);
      PrinterAsWhen(valxor, 0x0a, u1, c);
      PrinterAsWhen(valxor, 0x05, u0, c);
      PrinterAsJoin(a, b, c);
      PrinterAsJoin(a + b, d, c);
      PrinterAsJoin(a + b + d, f, c);
    } else if reg == 3 {
      var a, b, d := When(valxor, 0x80, lpt), When(valxor, 0x08, u0), When(valxor, 0x04, u1);
      PrinterAsWhen(valxor, 0x80, lpt, c);
      PrinterAsWhen(valxor, 0x08, u0, c);
      PrinterAsWhen(valxor, 0x04, u1, c);
      PrinterAsJoin(a, b, c);
      PrinterAsJoin(a + b, d, c);
    } else if reg == 4 {
      var a, b, d := When(valxor, 0x10, u1), When(valxor, 0x20, u0), When(valxor, 0x80, lpt);
      PrinterAsWhen(valxor, 0x10, u1, c);
      PrinterAsWhen(valxor, 0x20, u0, c);
      PrinterAsWhen(valxor, 0x80, lpt, c);
      PrinterAsJoin(a, b, c);
      PrinterAsJoin(a + b, d, c);
    } else if reg == 9 {
      var a, b := When(valxor, 0x20, FdcEnhancedMode(r[9] & 0x20 != 0)), When(valxor, 0x80, lpt);
      PrinterAsWhen(valxor, 0x20, FdcEnhancedMode(r[9] & 0x20 != 0), c);
      PrinterAsWhen(valxor, 0x80, lpt, c);
      PrinterAsJoin(a, b, c);
    } else if reg == 6 {
      PrinterAsWhen(valxor, 0x08, FdcAttach(if r[6] & 0x08 == 0 then FdcAt(0x3f0) else FdcOff), c);
    } else if reg == 7 {
      var a, b := When(valxor, 0x03, FdcRwc(0, r[7] & 3)), When(valxor, 0x0c, FdcRwc(1, (r[7] >> 2) & 3));
      var d, f := When(valxor, 0x30, FdcRwc(2, (r[7] >> 4) & 3)), When(valxor, 0xc0, FdcRwc(3, (r[7] >> 6) & 3));
      PrinterAsWhen(valxor, 0x03, FdcRwc(0, r[7] & 3), c);
      PrinterAsWhen(valxor, 0x0c, FdcRwc(1, (r[7] >> 2) & 3), c);
      PrinterAsWhen(valxor, 0x30, FdcRwc(2, (r[7] >> 4) & 3), c);
      PrinterAsWhen(valxor, 0xc0, FdcRwc(3, (r[7] >> 6) & 3), c);
      PrinterAsJoin(a, b, c);
      PrinterAsJoin(a + b, d, c);
      PrinterAsJoin(a + b + d, f, c);
    } else if reg == 8 {
      var a, b := When(valxor, 0x03, FdcBootDrive(r[8] & 3)), When(valxor, 0x10, FdcWriteProtect(r[8] & 0x10 != 0));
      var d := When(valxor, 0x20, FdcDisableWrite(r[8] & 0x20 != 0));
      PrinterAsWhen(valxor, 0x03, FdcBootDrive(r[8] & 3), c);
      PrinterAsWhen(valxor, 0x10, FdcWriteProtect(r[8] & 0x10 != 0), c);
      PrinterAsWhen(valxor, 0x20, FdcDisableWrite(r[8] & 0x20 != 0), c);
      PrinterAsJoin(a, b, c);
      PrinterAsJoin(a + b, d, c);
    }
  }

  /** The register file right after reset; register 9 comes from the board. */
  function ResetRegs(regInit: bv16): (r: seq<bv8>)
    ensures |r| == RegCount
  {
    seq(RegCount, i => 0)[0 := 0x50][1 := 0x2C][3 := 0x30][7 := 0xF5]
      [9 := (regInit & 0xff) as bv8][0xa := 0x1F][0xc := 0x2C][0xd := 0xA3]
  }

  /** The calls reset makes: printer at 0x378/IRQ 7, floppy reset, COM1 and COM2. */
  const ResetEffects := [LptSetup(Enabled(0x378, 7)), FdcReset, UartSetup(0, Serial1), UartSetup(1, Serial2)]

  // ----------------------------------------------------------------- decode lemmas

  /**
   * A UART is switched off exactly when its bit in register 4 says so, or
   * when its URS2 bit is clear and both of its URS1/URS0 bits are set.
   */
  lemma UartOffExactly(r1: bv8, r3: bv8, r4: bv8, uart: int)
    requires uart == 0 || uart == 1
    ensures var off := if uart == 0 then 0x20 else 0x10;
            var urs := if uart == 0 then 0x05 else 0x0a;
            var urs2 := if uart == 0 then 0x08 else 0x04;
            UartDecode(r1, r3, r4, uart) == Disabled
            <==> r4 & off != 0 || (r3 & urs2 == 0 && r1 & urs == urs)
  {
    if uart == 0 { UrsBoth(r1, 0x01, 0x04); } else { UrsBoth(r1, 0x02, 0x08); }
  }

  /** Both of two single bits are set exactly when their union is. */
  lemma UrsBoth(r: bv8, a: bv8, b: bv8)
    requires (a == 0x01 && b == 0x04) || (a == 0x02 && b == 0x08)
    ensures (r & a != 0 && r & b != 0) <==> r & (a | b) == a | b
  {
  }

  /** With URS2 set and the port not switched off, UART 1 is COM1 and UART 0 is COM2. */
  lemma UartUrs2(r1: bv8, r3: bv8, r4: bv8, uart: int)
    requires uart == 0 || uart == 1
    requires r3 & (if uart == 0 then 0x08 else 0x04) != 0
    requires r4 & (if uart == 0 then 0x20 else 0x10) == 0
    ensures UartDecode(r1, r3, r4, uart) == if uart == 1 then Serial1 else Serial2
  {
  }

  /**
   * The printer decode as written never selects 0x278/IRQ 5: whenever the
   * low select bit (bit 2) is set, so is the high one (bit 0 or bit 2).
   */
  lemma LptAsWrittenMisses278(r1: bv8, r4: bv8)
    ensures LptDecodeAsWritten(r1, r4) != Enabled(0x278, 5)
  {
    if r1 & 4 != 0 {
      assert r1 & 5 != 0;
    }
  }

  /**
   * As written, the reset register file decodes the printer port as
   * switched off, although reset itself sets it up at 0x378/IRQ 7.
   */
  lemma LptAsWrittenDisagreesWithReset(regInit: bv16)
    ensures LptDecodeAsWritten(ResetRegs(regInit)[1], ResetRegs(regInit)[4]) == Disabled
    ensures ResetEffects[0] == LptSetup(Enabled(0x378, 7))
  {
    var r := ResetRegs(regInit);
    assert r[1] == 0x2C && r[4] == 0;
  }

  /** The corrected decode of the reset register file is the port reset sets up. */
  lemma LptResetAgrees(regInit: bv16)
    ensures [LptSetup(LptDecode(ResetRegs(regInit)[1], ResetRegs(regInit)[4]))] == ResetEffects[..1]
  {
    var r := ResetRegs(regInit);
    assert r[1] == 0x2C && r[4] == 0;
  }

  /** The corrected decode selects each table entry by bits 5-4 of register 1, unless bit 7 of register 4 switches it off. */
  lemma LptDecodeSelects(r1: bv8, r4: bv8)
    requires r4 & 0x80 == 0
    ensures LptDecode(r1, r4) == Enabled(0x3bc, 7) <==> r1 & 0x30 == 0x00
    ensures LptDecode(r1, r4) == Enabled(0x278, 5) <==> r1 & 0x30 == 0x10
    ensures LptDecode(r1, r4) == Enabled(0x378, 7) <==> r1 & 0x30 == 0x20
    ensures LptDecode(r1, r4) == Disabled <==> r1 & 0x30 == 0x30
  {
    PtrsBits(r1);
  }

  /** The two select bits and the field they form. */
  lemma PtrsBits(r: bv8)
    ensures r & 0x30 == 0x00 <==> r & 0x10 == 0 && r & 0x20 == 0
    ensures r & 0x30 == 0x10 <==> r & 0x10 != 0 && r & 0x20 == 0
    ensures r & 0x30 == 0x20 <==> r & 0x10 == 0 && r & 0x20 != 0
    ensures r & 0x30 == 0x30 <==> r & 0x10 != 0 && r & 0x20 != 0
  {
  }

  /** The chip's configuration state: register file, index, key and the two locks. */
  class SuperIo {
    const regs: array<bv8>
    /** Board-supplied reset value of register 9. */
    const regInit: bv16
    var locked: bool
    var rwLocked: bool
    var curReg: bv8
    var key: bv8

    ghost predicate Valid()
      reads this
    {
      regs.Length == RegCount && curReg <= MaxIndex
    }

    constructor (regInit: bv16)
      ensures Valid() && fresh(regs) && this.regInit == regInit
      ensures regs[..] == ResetRegs(regInit) && curReg == 0
      ensures key == 0x89 && !locked && !rwLocked
    {
      this.regInit := regInit;
      regs := new bv8[RegCount](i => 0);
      curReg := 0;
      new;
      var _ := Reset();
    }

    /** Zero the whole register file. */
    method ClearRegs()
      modifies regs
      ensures regs[..] == seq(regs.Length, i => 0)
    {
      var i := 0;
      while i < regs.Length
        invariant 0 <= i <= regs.Length
        invariant forall j :: 0 <= j < i ==> regs[j] == 0
      {
        regs[i] := 0;
        i := i + 1;
      }
    }

    /** Reset the register file, the key and both locks; the index is kept. */
    method Reset() returns (fx: seq<Effect>)
      requires regs.Length == RegCount
      modifies this, regs
      ensures regs[..] == ResetRegs(regInit)
      ensures key == Key(regs[0xc]) == 0x89
      ensures !locked && !rwLocked && curReg == old(curReg)
      ensures fx == ResetEffects
    {
      ClearRegs();
      regs[0x00] := 0x50;
      regs[0x01] := 0x2C;
      regs[0x03] := 0x30;
      regs[0x07] := 0xF5;
      regs[0x09] := (regInit & 0xff) as bv8;
      regs[0x0a] := 0x1F;
      regs[0x0c] := 0x2C;
      regs[0x0d] := 0xA3;
      key := 0x89;
      key := Key(regs[0xc]);
      locked := false;
      rwLocked := false;
      fx := ResetEffects;
    }

    /** A write of `val` to I/O port `port`. */
    method Write(port: int, val: bv8) returns (fx: seq<Effect>)
      requires Valid()
      modifies this, regs
      ensures Valid()
      ensures old(rwLocked) ==> rwLocked
      ensures port == ConfigPort ==>
        locked == (val == old(key)) && regs[..] == old(regs[..]) && curReg == old(curReg)
        && rwLocked == old(rwLocked) && key == old(key) && fx == []
      ensures port == IndexPort ==>
        curReg == (if val <= MaxIndex then val else old(curReg))
        && regs[..] == old(regs[..]) && locked == old(locked)
        && rwLocked == old(rwLocked) && key == old(key) && fx == []
      ensures port != ConfigPort && port != IndexPort && !(old(locked) && !old(rwLocked)) ==>
        regs[..] == old(regs[..]) && curReg == old(curReg) && locked == old(locked)
        && rwLocked == old(rwLocked) && key == old(key) && fx == []
      ensures port != ConfigPort && port != IndexPort && old(locked) && !old(rwLocked) ==>
        var s := Stored(curReg, val);
        var valxor := s ^ old(regs[curReg]);
        regs[..] == old(regs[..])[curReg := s] && curReg == old(curReg) && locked
        && rwLocked == (curReg == 9 && valxor & 0x40 != 0 && s & 0x40 != 0)
        && key == (if curReg == 0xc && valxor & 0x20 != 0 then Key(s) else old(key))
        && fx == WriteEffects(curReg, valxor, regs[..])
    {
      if port == ConfigPort {
        locked := val == key;
        return [];
      } else if port == IndexPort {
        if val <= MaxIndex {
          curReg := val;
        }
        return [];
      }
      if !locked || rwLocked {
        return [];
      }
      fx := WriteData(val);
    }

    /** A write to the data port while unlocked: the selected register changes and its side effects follow. */
    method WriteData(val: bv8) returns (fx: seq<Effect>)
      requires Valid() && locked && !rwLocked
      modifies this, regs
      ensures Valid()
      ensures curReg == old(curReg) && locked
      ensures regs[..] == old(regs[..])[curReg := Stored(curReg, val)]
      ensures var valxor := Stored(curReg, val) ^ old(regs[curReg]);
        rwLocked == (curReg == 9 && valxor & 0x40 != 0 && Stored(curReg, val) & 0x40 != 0)
        && key == (if curReg == 0xc && valxor & 0x20 != 0 then Key(Stored(curReg, val)) else old(key))
      ensures fx == WriteEffects(curReg, Stored(curReg, val) ^ old(regs[curReg]), regs[..])
    {
      var v := Stored(curReg, val);
      var valxor := v ^ regs[curReg];
      regs[curReg] := v;
      if curReg == 9 && valxor & 0x40 != 0 {
        rwLocked := v & 0x40 != 0;
      }
      if curReg == 0xc && valxor & 0x20 != 0 {
        key := Key(regs[0xc]);
      }
      fx := WriteEffects(curReg, valxor, regs[..]);
    }

    /** A read of I/O port `port`; `rwc0`/`rwc1` are what the floppy controller reports. */
    function Read(port: int, rwc0: bv8, rwc1: bv8): (v: bv8)
      requires Valid()
      reads this, regs
      ensures !locked ==> v == 0xff
      ensures port != IndexPort && port != DataPort ==> v == 0xff
      ensures locked && port == IndexPort ==> v == curReg
      ensures locked && port == DataPort && curReg == 7 ==> v == rwc0 | (rwc1 << 2)
      ensures locked && port == DataPort && curReg != 7 ==>
        v == if rwLocked then 0xff else regs[curReg]
    {
      if !locked then 0xff
      else if port == IndexPort then curReg
      else if port == DataPort then
        (if curReg == 7 then rwc0 | (rwc1 << 2)
         else if !rwLocked then regs[curReg]
         else 0xff)
      else 0xff
    }
  }
}
