/*
 * The Mach64 drawing-engine register file as the accelerator write path
 * decodes it. A byte written at offset `o` (the address masked to 10
 * bits) lands in one byte lane of one 32-bit register, or feeds host data
 * to the engine, or is ignored; a few bytes also start a fill or a line.
 * Several registers have 16-bit aliases (DST_X, DST_Y, DST_WIDTH, ...)
 * that reach the halves of the full register.
 */
module Mach64Regs {
  import opened Mach64Lanes

  datatype Option<T> = None | Some(value: T)

  /** The drawing-engine registers the write path stores. */
  datatype Reg =
    | DstOffPitch | DstYX | DstHeightWidth
    | DstBresLnth | DstBresErr | DstBresInc | DstBresDec | DstCntl
    | SrcOffPitch | SrcYX | SrcHeight1Width1 | SrcYXStart | SrcHeight2Width2 | SrcCntl
    | HostCntl | PatReg0 | PatReg1 | PatCntl | ScLeftRight | ScTopBottom
    | DpBkgdClr | DpFrgdClr | WriteMask | ChainMask | DpPixWidth | DpMix | DpSrc
    | ClrCmpClr | ClrCmpMask | ClrCmpCntl | ContextMask | ContextLoadCntl

  /** The register contents. */
  type RegFile = map<Reg, bv32>

  /** A register file holding every register. */
  predicate Full(r: RegFile)
  {
    forall g: Reg :: g in r
  }

  /** Where a byte write goes: register `reg`, the lane picked by the low two bits of `at`. */
  datatype Target = Target(reg: Reg, at: int)

  /** Whether `o` is one of `a`, `a + 1`, `a + 2`, `a + 3`. */
  predicate Dword(o: int, a: int) { a <= o <= a + 3 }

  /** Whether `o` is `a` or `a + 1`. */
  predicate Word(o: int, a: int) { o == a || o == a + 1 }

  /**
   * The register byte a byte write at offset `o` reaches (the cases of
   * `mach64_accel_write_fifo` that use `WRITE8`). The 16-bit aliases of the
   * upper register halves (DST_X, DST_WIDTH, SRC_X, ...) shift the lane by
   * two.
   */
  function ByteTarget(o: int): Option<Target>
  {
    if Dword(o, 0x100) then Some(Target(DstOffPitch, o))
    else if Word(o, 0x104) || Word(o, 0x11c) then Some(Target(DstYX, o + 2))
    else if Word(o, 0x108) || Dword(o, 0x10c) then Some(Target(DstYX, o))
    else if Word(o, 0x110) then Some(Target(DstHeightWidth, o + 2))
    else if Word(o, 0x114) || Dword(o, 0x118) || Word(o, 0x11e) then Some(Target(DstHeightWidth, o))
    else if Dword(o, 0x120) then Some(Target(DstBresLnth, o))
    else if Dword(o, 0x124) then Some(Target(DstBresErr, o))
    else if Dword(o, 0x128) then Some(Target(DstBresInc, o))
    else if Dword(o, 0x12c) then Some(Target(DstBresDec, o))
    else if Dword(o, 0x130) then Some(Target(DstCntl, o))
    else if Dword(o, 0x180) then Some(Target(SrcOffPitch, o))
    else if Word(o, 0x184) || Dword(o, 0x18c) then Some(Target(SrcYX, o))
    else if Word(o, 0x188) then Some(Target(SrcYX, o + 2))
    else if Word(o, 0x190) then Some(Target(SrcHeight1Width1, o + 2))
    else if Word(o, 0x194) || Dword(o, 0x198) then Some(Target(SrcHeight1Width1, o))
    else if Word(o, 0x19c) || Dword(o, 0x1a4) then Some(Target(SrcYXStart, o))
    else if Word(o, 0x1a0) then Some(Target(SrcYXStart, o + 2))
    else if Word(o, 0x1a8) then Some(Target(SrcHeight2Width2, o + 2))
    else if Word(o, 0x1ac) || Dword(o, 0x1b0) then Some(Target(SrcHeight2Width2, o))
    else if Dword(o, 0x1b4) then Some(Target(SrcCntl, o))
    else if Dword(o, 0x240) then Some(Target(HostCntl, o))
    else if Dword(o, 0x280) then Some(Target(PatReg0, o))
    else if Dword(o, 0x284) then Some(Target(PatReg1, o))
    else if Dword(o, 0x288) then Some(Target(PatCntl, o))
    else if Word(o, 0x2a0) || Dword(o, 0x2a8) then Some(Target(ScLeftRight, o))
    else if Word(o, 0x2a4) then Some(Target(ScLeftRight, o + 2))
    else if Word(o, 0x2ac) || Word(o, 0x2b4) || Word(o, 0x2b6) then Some(Target(ScTopBottom, o))
    else if Word(o, 0x2b0) then Some(Target(ScTopBottom, o + 2))
    else if Dword(o, 0x2c0) then Some(Target(DpBkgdClr, o))
    else if Dword(o, 0x2c4) then Some(Target(DpFrgdClr, o))
    else if Dword(o, 0x2c8) then Some(Target(WriteMask, o))
    else if Dword(o, 0x2cc) then Some(Target(ChainMask, o))
    else if Dword(o, 0x2d0) then Some(Target(DpPixWidth, o))
    else if Dword(o, 0x2d4) then Some(Target(DpMix, o))
    else if Dword(o, 0x2d8) then Some(Target(DpSrc, o))
    else if Dword(o, 0x300) then Some(Target(ClrCmpClr, o))
    else if Dword(o, 0x304) then Some(Target(ClrCmpMask, o))
    else if Dword(o, 0x308) then Some(Target(ClrCmpCntl, o))
    else if Dword(o, 0x320) then Some(Target(ContextMask, o))
    else if Word(o, 0x330) then Some(Target(DstCntl, o))
    else if o == 0x332 then Some(Target(SrcCntl, o - 2))
    else if o == 0x333 then Some(Target(PatCntl, o - 3))
    else None
  }

  /** The byte stored: the GUI_TRAJ_CNTL byte at 0x333 keeps only its low three bits for PAT_CNTL. */
  function StoredByte(o: int, val: bv8): bv8
  {
    if o == 0x333 then val & 7 else val
  }

  /** Host data: offsets 0x200-0x23f feed the engine instead of a register. */
  predicate HostData(o: int) { 0x200 <= o < 0x240 }

  /** A byte that starts a rectangle fill: the top byte of DST_HEIGHT, DST_HEIGHT_WIDTH or DST_WIDTH with bit 7 clear. */
  predicate StartsFill(o: int, val: bv8)
  {
    (o == 0x113 || o == 0x11b || o == 0x11f) && val & 0x80 == 0
  }

  /** A byte that starts a line: the top byte of DST_BRES_LNTH with bit 7 clear. */
  predicate StartsLine(o: int, val: bv8)
  {
    o == 0x123 && val & 0x80 == 0
  }

  /** The host-byte-align bit of HOST_CNTL, which the byte at 0x333 copies from its bit 4. */
  const HostByteAlign: bv32 := 1

  /** HOST_CNTL after a byte write at 0x333. */
  function AlignedHostCntl(h: bv32, val: bv8): bv32
  {
    if val & 0x10 != 0 then h | HostByteAlign else h & !HostByteAlign
  }

  /** The register file after the register part of a byte write at offset `o`. */
  function StoreByte(r: RegFile, o: int, val: bv8): (r': RegFile)
    requires Full(r)
    ensures Full(r')
  {
    var r1 := match ByteTarget(o)
      case Some(t) => r[t.reg := Write8(t.at, r[t.reg], StoredByte(o, val))]
      case None => r;
    if o == 0x333 then r1[HostCntl := AlignedHostCntl(r1[HostCntl], val)] else r1
  }

  /** Word offsets of CONTEXT_LOAD_CNTL's halves. */
  const ContextLow := 0x32c
  const ContextHigh := 0x32e

  /** A register can be reached by byte writes only through offsets 0x100-0x333. */
  lemma ByteTargetRange(o: int)
    requires ByteTarget(o).Some?
    ensures 0x100 <= o <= 0x333 && !HostData(o)
    ensures ByteTarget(o).value.reg != ContextLoadCntl
    ensures ByteTarget(o).value.reg == ContextMask ==> Dword(o, 0x320)
  {
  }

  /** No byte write reaches CONTEXT_LOAD_CNTL, and only bytes 0x320-0x323 reach CONTEXT_MASK. */
  lemma StoreByteKeeps(r: RegFile, o: int, val: bv8)
    requires Full(r)
    ensures StoreByte(r, o, val)[ContextLoadCntl] == r[ContextLoadCntl]
    ensures !Dword(o, 0x320) ==> StoreByte(r, o, val)[ContextMask] == r[ContextMask]
  {
    if ByteTarget(o).Some? {
      ByteTargetRange(o);
    }
  }
}
