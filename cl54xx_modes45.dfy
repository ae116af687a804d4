/*
 * Write modes 4 and 5 of the CL-GD54xx: a CPU byte is expanded to eight
 * pixels (sixteen bytes when addressing by 16), one pixel per bit, most
 * significant bit first. Mode 4 writes the foreground colour where the bit
 * is set and leaves the other pixels alone; mode 5 writes foreground or
 * background for every pixel. Both skip pixels whose plane-mask bit (SR2)
 * is clear.
 */
module Gd54xxModes45 {
  import opened Gd54xxGeometry
  import opened Gd54xxLanes
  import opened Gd54xxMemory

  datatype Option<T> = None | Some(value: T)

  /** The expansion colours: GR0 (background) and GR1 (foreground), with GR10 and GR11 as their high bytes. */
  datatype Colours = Colours(bg: bv8, fg: bv8, bgHigh: bv8, fgHigh: bv8)

  /** Bytes one CPU byte expands to. */
  function Span(by16: bool): int
  {
    if by16 then 16 else 8
  }

  /** The pixel (bit number, from the top) byte `j` of the expansion belongs to. */
  function Pixel(by16: bool, j: int): int
  {
    if by16 then j / 2 else j
  }

  /** The mask of pixel `i`: bit 7 is pixel 0. */
  function Bit(i: int): (b: bv8)
    requires 0 <= i < 8
  {
    match i
    case 0 => 0x80 case 1 => 0x40 case 2 => 0x20 case 3 => 0x10
    case 4 => 0x08 case 5 => 0x04 case 6 => 0x02 case 7 => 0x01
  }

  /** Whether pixel `i` of `v` is set. */
  predicate Test(v: bv8, i: int)
    requires 0 <= i < 8
  {
    v & Bit(i) != 0
  }

  /** Pixel `i` of `v & w` is set exactly when it is set in both. */
  lemma AndBit(v: bv8, w: bv8, i: int)
    requires 0 <= i < 8
    ensures (v & w & Bit(i) != 0) == (Test(v, i) && Test(w, i))
  {
  }

  /** The byte mode `mode` stores at offset `j` of the expansion; `None` leaves memory alone. */
  function ModeByte(mode: int, by16: bool, planes: bv8, c: Colours, val: bv8, j: int): Option<bv8>
    requires 0 <= j < Span(by16)
  {
    var p := Pixel(by16, j);
    var high := by16 && j % 2 == 1;
    if mode == 4 then
      if Test(val, p) && Test(planes, p) then Some(if high then c.fgHigh else c.fg) else None
    else if mode == 5 then
      if !Test(planes, p) then None
      else if Test(val, p) then Some(if high then c.fgHigh else c.fg)
      else Some(if high then c.bgHigh else c.bg)
    else None
  }

  /** Where the expansion starts: the address masked to memory, doubled first unless addressing by 16. */
  function Base(by16: bool, addr: nat, n: int): (base: int)
    requires n > 0
    ensures 0 <= base < n
  {
    if by16 then addr % n else (addr * 2) % n
  }

  /** The index whose 4 KB block is marked as changed: the expansion's base in modes 4 and 5, else the raw address. */
  function MarkedIndex(mode: int, by16: bool, addr: nat, n: int): int
    requires n > 0
  {
    if mode == 4 || mode == 5 then Base(by16, addr, n) else addr
  }

  /** The offset of memory index `k` from `base`, going round the end of memory. */
  function Offset(n: int, base: int, k: int): (j: int)
    requires 0 <= base < n && 0 <= k < n
    ensures 0 <= j < n
  {
    if k >= base then k - base else k - base + n
  }

  /** Memory `m` after the pixels below `upto` of the expansion at `base` are stored. */
  function Expanded(m: seq<bv8>, mode: int, by16: bool, planes: bv8, c: Colours, val: bv8, base: int, upto: int): (m': seq<bv8>)
    requires 0 <= base < |m|
    ensures |m'| == |m|
  {
    seq(|m|, k requires 0 <= k < |m| =>
      var j := Offset(|m|, base, k);
      if j < Span(by16) && Pixel(by16, j) < upto && ModeByte(mode, by16, planes, c, val, j).Some?
      then ModeByte(mode, by16, planes, c, val, j).value
      else m[k])
  }

  /** Memory `m` with the bytes of pixel `i` of the expansion at `base` stored. */
  function StoredPixel(m: seq<bv8>, mode: int, by16: bool, planes: bv8, c: Colours, val: bv8, base: int, i: int): (m': seq<bv8>)
    requires 0 <= base < |m| && |m| >= 16 && 0 <= i < 8
    ensures |m'| == |m|
  {
    var n := |m|;
    var j := if by16 then 2 * i else i;
    var m1 := if ModeByte(mode, by16, planes, c, val, j).Some?
              then m[Wrap(n, base + j) := ModeByte(mode, by16, planes, c, val, j).value] else m;
    if by16 && ModeByte(mode, by16, planes, c, val, j + 1).Some?
    then m1[Wrap(n, base + j + 1) := ModeByte(mode, by16, planes, c, val, j + 1).value] else m1
  }

  /** `StoredPixel` spelled out: nothing, or the pixel's byte (two bytes when addressing by 16) in foreground or background. */
  lemma StoredPixelCases(m: seq<bv8>, mode: int, by16: bool, planes: bv8, c: Colours, val: bv8, base: int, i: int)
    requires (mode == 4 || mode == 5) && 0 <= base < |m| && |m| >= 16 && 0 <= i < 8
    ensures var on := if mode == 4 then Test(val, i) && Test(planes, i) else Test(planes, i);
            var fore := mode == 4 || Test(val, i);
            var n := |m|;
            StoredPixel(m, mode, by16, planes, c, val, base, i)
            == if !on then m
               else if by16 then m[Wrap(n, base + 2 * i) := if fore then c.fg else c.bg][Wrap(n, base + 2 * i + 1) := if fore then c.fgHigh else c.bgHigh]
               else m[Wrap(n, base + i) := if fore then c.fg else c.bg]
  {
    var j := if by16 then 2 * i else i;
    assert Pixel(by16, j) == i && (by16 ==> j % 2 == 0);
    assert by16 ==> Pixel(by16, j + 1) == i && (j + 1) % 2 == 1;
  }

  /** Storing one more pixel extends the expansion by that pixel. */
  lemma ExpandedStep(m: seq<bv8>, mode: int, by16: bool, planes: bv8, c: Colours, val: bv8, base: int, i: int)
    requires 0 <= base < |m| && |m| >= 16 && 0 <= i < 8
    ensures Expanded(m, mode, by16, planes, c, val, base, i + 1)
            == StoredPixel(Expanded(m, mode, by16, planes, c, val, base, i), mode, by16, planes, c, val, base, i)
  {
    forall k | 0 <= k < |m|
      ensures Expanded(m, mode, by16, planes, c, val, base, i + 1)[k]
              == StoredPixel(Expanded(m, mode, by16, planes, c, val, base, i), mode, by16, planes, c, val, base, i)[k]
    {
      ExpandedStepAt(m, mode, by16, planes, c, val, base, i, k);
    }
  }

  /** `ExpandedStep` at one memory index. */
  lemma ExpandedStepAt(m: seq<bv8>, mode: int, by16: bool, planes: bv8, c: Colours, val: bv8, base: int, i: int, k: int)
    requires 0 <= base < |m| && |m| >= 16 && 0 <= i < 8 && 0 <= k < |m|
    ensures Expanded(m, mode, by16, planes, c, val, base, i + 1)[k]
            == StoredPixel(Expanded(m, mode, by16, planes, c, val, base, i), mode, by16, planes, c, val, base, i)[k]
  {
    var n := |m|;
    var j := if by16 then 2 * i else i;
    if k == Wrap(n, base + j) {
      ExpandedStepHit(m, mode, by16, planes, c, val, base, i, j);
    } else if by16 && k == Wrap(n, base + j + 1) {
      ExpandedStepHit(m, mode, by16, planes, c, val, base, i, j + 1);
    } else {
      ExpandedStepMiss(m, mode, by16, planes, c, val, base, i, k);
    }
  }

  /** `ExpandedStep` away from the bytes of pixel `i`. */
  lemma ExpandedStepMiss(m: seq<bv8>, mode: int, by16: bool, planes: bv8, c: Colours, val: bv8, base: int, i: int, k: int)
    requires 0 <= base < |m| && |m| >= 16 && 0 <= i < 8 && 0 <= k < |m|
    requires var j := if by16 then 2 * i else i;
             k != Wrap(|m|, base + j) && !(by16 && k == Wrap(|m|, base + j + 1))
    ensures Expanded(m, mode, by16, planes, c, val, base, i + 1)[k]
            == StoredPixel(Expanded(m, mode, by16, planes, c, val, base, i), mode, by16, planes, c, val, base, i)[k]
  {
    var n := |m|;
    var j := if by16 then 2 * i else i;
    OffsetOfWrap(n, base, j);
    OffsetOfWrap(n, base, j + 1);
    var o := Offset(n, base, k);
    assert o != j && (by16 ==> o != j + 1);
    assert o < Span(by16) ==> (Pixel(by16, o) < i + 1 <==> Pixel(by16, o) < i);
  }

  /** `ExpandedStep` at a byte of pixel `i`. */
  lemma ExpandedStepHit(m: seq<bv8>, mode: int, by16: bool, planes: bv8, c: Colours, val: bv8, base: int, i: int, j: int)
    requires 0 <= base < |m| && |m| >= 16 && 0 <= i < 8
    requires j == (if by16 then 2 * i else i) || (by16 && j == 2 * i + 1)
    ensures var k := Wrap(|m|, base + j);
            Expanded(m, mode, by16, planes, c, val, base, i + 1)[k]
            == StoredPixel(Expanded(m, mode, by16, planes, c, val, base, i), mode, by16, planes, c, val, base, i)[k]
  {
    OffsetOfWrap(|m|, base, j);
    assert Pixel(by16, j) == i;
  }

  /** Offset and wrapped index are inverse. */
  lemma OffsetOfWrap(n: int, base: int, j: int)
    requires 0 <= base < n && 0 <= j < n
    ensures Offset(n, base, Wrap(n, base + j)) == j
  {
  }

  /** Memory index of byte `j` of the expansion at `base`. */
  function Cell(n: int, base: int, j: int): int
    requires 0 <= base < n && 0 <= j < n
  {
    Wrap(n, base + j)
  }

  /** Memory index `k` lies at offset `Offset(n, base, k)` of the expansion. */
  lemma WrapOfOffset(n: int, base: int, k: int)
    requires 0 <= base < n && 0 <= k < n
    ensures Cell(n, base, Offset(n, base, k)) == k
  {
  }

  /** Mode 5 with every plane enabled writes each byte of the span, in foreground or background by the pixel's bit. */
  lemma Mode5Fills(m: seq<bv8>, by16: bool, c: Colours, val: bv8, base: int, j: int)
    requires 0 <= base < |m| && |m| >= 16 && 0 <= j < Span(by16)
    ensures var p := Pixel(by16, j);
            var high := by16 && j % 2 == 1;
            Expanded(m, 5, by16, 0xff, c, val, base, 8)[Wrap(|m|, base + j)]
            == if Test(val, p) then (if high then c.fgHigh else c.fg) else (if high then c.bgHigh else c.bg)
  {
    OffsetOfWrap(|m|, base, j);
    var p := Pixel(by16, j);
    assert Test(0xff, p) by { assert 0xff & Bit(p) == Bit(p); }
  }

  /** Mode 4 stores the foreground exactly where the pixel's bit and its plane are set, and keeps memory elsewhere. */
  lemma Mode4Transparent(m: seq<bv8>, by16: bool, planes: bv8, c: Colours, val: bv8, base: int, j: int)
    requires 0 <= base < |m| && |m| >= 16 && 0 <= j < Span(by16)
    ensures var p := Pixel(by16, j);
            var k := Wrap(|m|, base + j);
            Expanded(m, 4, by16, planes, c, val, base, 8)[k]
            == if Test(val, p) && Test(planes, p) then (if by16 && j % 2 == 1 then c.fgHigh else c.fg) else m[k]
  {
    OffsetOfWrap(|m|, base, j);
  }

  /** Where mode 4 stores a byte, mode 5 stores the same byte. */
  lemma Mode4AgreesWithMode5(m: seq<bv8>, m5: seq<bv8>, by16: bool, planes: bv8, c: Colours, val: bv8, base: int, k: int)
    requires 0 <= base < |m| == |m5| && |m| >= 16 && 0 <= k < |m|
    requires Expanded(m, 4, by16, planes, c, val, base, 8)[k] != m[k]
    ensures Expanded(m, 4, by16, planes, c, val, base, 8)[k] == Expanded(m5, 5, by16, planes, c, val, base, 8)[k]
  {
  }

  /** Bytes outside the expansion's span keep their value. */
  lemma ExpandedFrame(m: seq<bv8>, mode: int, by16: bool, planes: bv8, c: Colours, val: bv8, base: int, k: int)
    requires 0 <= base < |m| && |m| >= 16 && 0 <= k < |m|
    requires forall j :: 0 <= j < Span(by16) ==> k != Cell(|m|, base, j)
    ensures Expanded(m, mode, by16, planes, c, val, base, 8)[k] == m[k]
  {
    WrapOfOffset(|m|, base, k);
  }

  /**
   * `gd54xx_write_modes45`: the expansion of `val` at `addr` stored into
   * video memory, and the block of the expansion's base marked. Other write
   * modes store nothing but still mark the address's block.
   */
  method WriteModes45(mem: VideoMemory, mode: int, by16: bool, planes: bv8, c: Colours, val: bv8, addr: nat)
    requires mem.bytes.Length >= 16
    modifies mem, mem.bytes
    ensures mem.bytes[..] == Expanded(old(mem.bytes[..]), mode, by16, planes, c, val, Base(by16, addr, mem.bytes.Length), 8)
    ensures mem.changed == old(mem.changed) + {MarkedIndex(mode, by16, addr, mem.bytes.Length) / BlockSize}
  {
    var n := mem.bytes.Length;
    var base := Base(by16, addr, n);
    ghost var m0 := mem.bytes[..];
    if mode == 4 || mode == 5 {
      var i := 0;
      while i < 8
        invariant 0 <= i <= 8
        invariant mem.bytes[..] == Expanded(m0, mode, by16, planes, c, val, base, i)
        invariant mem.changed == old(mem.changed)
      {
        DrawPixel(mem, mode, by16, planes, c, val, base, i);
        ExpandedStep(m0, mode, by16, planes, c, val, base, i);
        i := i + 1;
      }
    } else {
      assert mem.bytes[..] == Expanded(m0, mode, by16, planes, c, val, base, 8);
    }
    mem.Mark(MarkedIndex(mode, by16, addr, n));
  }

  /** One pass of the loop in `gd54xx_write_modes45`: the byte or two of pixel `i`. */
  method DrawPixel(mem: VideoMemory, mode: int, by16: bool, planes: bv8, c: Colours, val: bv8, base: int, i: int)
    requires (mode == 4 || mode == 5) && 0 <= base < mem.bytes.Length && mem.bytes.Length >= 16 && 0 <= i < 8
    modifies mem.bytes
    ensures mem.bytes[..] == StoredPixel(old(mem.bytes[..]), mode, by16, planes, c, val, base, i)
  {
    var n := mem.bytes.Length;
    StoredPixelCases(mem.bytes[..], mode, by16, planes, c, val, base, i);
    // Mode 4 draws only set bits (of `val & planes`); mode 5 draws every pixel the plane mask enables.
    AndBit(val, planes, i);
    var on := if mode == 4 then Test(val, i) && Test(planes, i) else Test(planes, i);
    if on {
      var fore := mode == 4 || Test(val, i);
      if by16 {
        mem.Poke(Wrap(n, base + 2 * i), if fore then c.fg else c.bg);
        mem.Poke(Wrap(n, base + 2 * i + 1), if fore then c.fgHigh else c.bgHigh);
      } else {
        mem.Poke(Wrap(n, base + i), if fore then c.fg else c.bg);
      }
    }
  }
}
