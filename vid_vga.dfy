/*
 * The CRTC register file of the generic VGA core: the mono/colour port
 * alias, the 6-bit CRTC index, the reserved indices, the CR11 bit 7 write
 * protection and the start-address latch. Everything else on the VGA ports
 * is handed on to the SVGA core, which is not part of this model; the
 * hand-over is returned as a value.
 */
module Vga {

  const CrtcIndexPort: bv16 := 0x3D4
  const CrtcDataPort: bv16 := 0x3D5
  /** The CRTC index is six bits wide. */
  const CrtcCount := 64

  /** What a port write passes on to the SVGA core. */
  datatype Forward = Dropped | ToSvga(addr: bv16, val: bv8)

  /**
   * The port a VGA access really addresses: with bit 0 of the miscellaneous
   * output register clear (mono mapping), ports 0x3Bx and 0x3Dx trade places.
   */
  function Alias(addr: bv16, miscout: bv8): (a: bv16)
    ensures miscout & 1 != 0 ==> a == addr
    ensures addr & 0xfff0 == 0x3b0 && miscout & 1 == 0 ==> a & 0xfff0 == 0x3d0 && a & 0xf == addr & 0xf
    ensures addr & 0xfff0 == 0x3d0 && miscout & 1 == 0 ==> a & 0xfff0 == 0x3b0 && a & 0xf == addr & 0xf
    ensures addr & 0xfff0 != 0x3b0 && addr & 0xfff0 != 0x3d0 ==> a == addr
  {
    if (addr & 0xfff0 == 0x3d0 || addr & 0xfff0 == 0x3b0) && miscout & 1 == 0 then addr ^ 0x60
    else addr
  }

  /** Aliasing twice gives the port back. */
  lemma AliasInvolution(addr: bv16, miscout: bv8)
    ensures Alias(Alias(addr, miscout), miscout) == addr
  {
  }

  /** Start address from CR0C/CR0D plus the byte-panning bits 5-6 of CR08. */
  function StartAddress(c0c: bv8, c0d: bv8, c08: bv8): (m: int)
    ensures 0 <= m < 0x10000 + 4
    ensures m - c0d as int - ((c08 & 0x60) >> 5) as int == c0c as int * 256
  {
    (c0c as int * 256 + c0d as int) + ((c08 & 0x60) >> 5) as int
  }

  /** The value a CRTC data write stores into register `reg` (CR07 under protection keeps all but bit 4). */
  function ProtectedValue(reg: bv8, protect: bool, old7: bv8, val: bv8): (v: bv8)
    ensures reg == 7 && protect ==> v & 0x10 == val & 0x10 && v & 0xef == old7 & 0xef
    ensures reg != 7 || !protect ==> v == val
  {
    if reg == 7 && protect then (old7 & !0x10) | (val & 0x10) else val
  }

  /** The VGA core's CRTC state. */
  class VgaCrtc {
    const crtc: array<bv8>
    var crtcreg: bv8
    /** Bit 0 selects colour (set) or mono (clear) port mapping; written by the SVGA core. */
    var miscout: bv8
    var memaddrLatch: int
    var fullchange: int
    var vgaEnabled: bool

    ghost predicate Valid()
      reads this
    {
      crtc.Length == CrtcCount && crtcreg < 64
    }

    constructor (miscout: bv8)
      ensures Valid() && fresh(crtc) && this.miscout == miscout
      ensures crtcreg == 0 && memaddrLatch == 0 && fullchange == 0 && !vgaEnabled
      ensures forall i :: 0 <= i < CrtcCount ==> crtc[i] == 0
    {
      crtc := new bv8[CrtcCount](i => 0);
      crtcreg := 0;
      this.miscout := miscout;
      memaddrLatch := 0;
      fullchange := 0;
      vgaEnabled := false;
    }

    /**
     * A write of `val` to port `addr`. `changeFrameCount` is the global
     * repaint count used when a timing register changes; `recalc` reports
     * that the timings must be recomputed.
     */
    method Out(addr: bv16, val: bv8, changeFrameCount: int) returns (fwd: Forward, recalc: bool)
      requires Valid()
      modifies this, crtc
      ensures Valid() && miscout == old(miscout) && vgaEnabled == old(vgaEnabled)
      ensures Alias(addr, miscout) == CrtcIndexPort ==>
        crtcreg == val & 0x3f && crtc[..] == old(crtc[..]) && fwd == Dropped && !recalc
        && memaddrLatch == old(memaddrLatch) && fullchange == old(fullchange)
      ensures Alias(addr, miscout) != CrtcIndexPort && Alias(addr, miscout) != CrtcDataPort ==>
        crtcreg == old(crtcreg) && crtc[..] == old(crtc[..]) && !recalc
        && memaddrLatch == old(memaddrLatch) && fullchange == old(fullchange)
        && fwd == ToSvga(Alias(addr, miscout), val)
      ensures Alias(addr, miscout) == CrtcDataPort && (old(crtcreg) & 0x20 != 0 || (old(crtcreg) < 7 && old(crtc[0x11]) & 0x80 != 0)) ==>
        crtcreg == old(crtcreg) && crtc[..] == old(crtc[..]) && fwd == Dropped && !recalc
        && memaddrLatch == old(memaddrLatch) && fullchange == old(fullchange)
      ensures Alias(addr, miscout) == CrtcDataPort && old(crtcreg) & 0x20 == 0 && !(old(crtcreg) < 7 && old(crtc[0x11]) & 0x80 != 0) ==>
        var r := old(crtcreg);
        var v := ProtectedValue(r, old(crtc[0x11]) & 0x80 != 0, old(crtc[7]), val);
        var changed := old(crtc[r]) != v && (r < 0xe || r > 0x10);
        crtcreg == r && crtc[..] == old(crtc[..])[r := v]
        && fwd == ToSvga(CrtcDataPort, v)
        && recalc == (changed && r != 0xc && r != 0xd)
        && memaddrLatch == (if changed && (r == 0xc || r == 0xd)
                            then StartAddress(crtc[0xc], crtc[0xd], crtc[8]) else old(memaddrLatch))
        && fullchange == (if !changed then old(fullchange)
                          else if r == 0xc || r == 0xd then 3 else changeFrameCount)
    {
      var a := Alias(addr, miscout);
      recalc := false;
      if a == CrtcIndexPort {
        crtcreg := val & 0x3f;
        return Dropped, false;
      } else if a == CrtcDataPort {
        if crtcreg & 0x20 != 0 {
          return Dropped, false;
        }
        if crtcreg < 7 && crtc[0x11] & 0x80 != 0 {
          return Dropped, false;
        }
        var v := ProtectedValue(crtcreg, crtc[0x11] & 0x80 != 0, crtc[7], val);
        var old_ := crtc[crtcreg];
        crtc[crtcreg] := v;
        if old_ != v && (crtcreg < 0xe || crtcreg > 0x10) {
          if crtcreg == 0xc || crtcreg == 0xd {
            fullchange := 3;
            memaddrLatch := StartAddress(crtc[0xc], crtc[0xd], crtc[8]);
          } else {
            fullchange := changeFrameCount;
            recalc := true;
          }
        }
        return ToSvga(a, v), recalc;
      }
      return ToSvga(a, val), false;
    }

    /** A read of port `addr`; `svgaIn` is what the SVGA core answers for ports this file does not decode. */
    function In(addr: bv16, svgaIn: bv8): (v: bv8)
      requires Valid()
      reads this, crtc
      ensures Alias(addr, miscout) == CrtcIndexPort ==> v == crtcreg
      ensures Alias(addr, miscout) == CrtcDataPort ==> v == if crtcreg & 0x20 != 0 then 0xff else crtc[crtcreg]
      ensures Alias(addr, miscout) != CrtcIndexPort && Alias(addr, miscout) != CrtcDataPort ==> v == svgaIn
    {
      var a := Alias(addr, miscout);
      if a == CrtcIndexPort then crtcreg
      else if a == CrtcDataPort then (if crtcreg & 0x20 != 0 then 0xff else crtc[crtcreg])
      else svgaIn
    }

    method Disable()
      modifies this
      ensures !vgaEnabled
      ensures crtcreg == old(crtcreg) && miscout == old(miscout)
      ensures memaddrLatch == old(memaddrLatch) && fullchange == old(fullchange)
    {
      vgaEnabled := false;
    }

    method Enable()
      modifies this
      ensures vgaEnabled
      ensures crtcreg == old(crtcreg) && miscout == old(miscout)
      ensures memaddrLatch == old(memaddrLatch) && fullchange == old(fullchange)
    {
      vgaEnabled := true;
    }

    function IsEnabled(): (e: bool)
      reads this
      ensures e <==> vgaEnabled
    {
      vgaEnabled
    }
  }

  /**
   * Under CR11 bit 7, a data write to CR00-CR07 leaves those registers as
   * they were except bit 4 of CR07: stated for the register file as a whole.
   */
  lemma ProtectionKeepsTimingRegisters(regs: seq<bv8>, reg: bv8, val: bv8, i: int)
    requires |regs| == CrtcCount && reg < 64 && reg & 0x20 == 0 && regs[0x11] & 0x80 != 0
    requires reg >= 7 && 0 <= i < 7
    ensures regs[reg := ProtectedValue(reg, true, regs[7], val)][i] == regs[i]
    ensures regs[reg := ProtectedValue(reg, true, regs[7], val)][7] & 0xef == regs[7] & 0xef
  {
  }
}
