/*
 * The CL-GD54xx pattern copy (`gd54xx_pattern_copy`): an 8x8 pattern taken
 * from video memory is tiled over the destination rectangle. Each row reads
 * the next of the eight pattern lines; inside a row the pixels run from
 * offset 0 in steps of the pixel width while the offset is at most the
 * width register, so a row always covers whole pixels.
 */
module Gd54xxPattern {
  import opened Gd54xxOps
  import opened Gd54xxRegs
  import opened Gd54xxVisit
  import opened Gd54xxGeometry
  import opened Gd54xxLanes
  import opened Gd54xxMemory

  /**
   * Bytes from one pattern line to the next: eight pixels, 32 at 24 bpp,
   * and one mask byte when the pattern is colour-expanded.
   */
  function PatternPitch(pw: int, expand: bool): (p: int)
    requires 1 <= pw <= 4
    ensures expand ==> p == 1
    ensures !expand && pw == 3 ==> p == 32
    ensures !expand && pw != 3 ==> p == 8 * pw
  {
    if expand then 1 else if pw == 3 then 32 else pw * 8
  }

  /** The offset of pixel `i` of a row: the code steps `x` by the pixel width. */
  function PixelOffset(i: nat, pw: int): nat
    requires 1 <= pw <= 4
  {
    if pw == 1 then i else if pw == 2 then 2 * i else if pw == 3 then 3 * i else 4 * i
  }

  /** The pixels of a row: one at each offset 0, `pw`, `2 * pw`, ... up to `w`. */
  function RowPixels(w: nat, pw: int): (p: nat)
    requires 1 <= pw <= 4
    ensures p >= 1
  {
    if pw == 1 then w + 1 else if pw == 2 then w / 2 + 1 else if pw == 3 then w / 3 + 1 else w / 4 + 1
  }

  /** The bytes a row covers: its whole pixels; the row ends after offset `w` but less than one pixel after it. */
  function RowBytes(w: nat, pw: int): (b: nat)
    requires 1 <= pw <= 4
    ensures w < b <= w + pw
  {
    PixelOffset(RowPixels(w, pw), pw)
  }

  /**
   * Pixel `i` is in a row of `w + 1` bytes exactly when its offset is at most
   * `w`; its bytes end where the next pixel starts, within the row's bytes.
   */
  lemma PixelPlace(w: nat, pw: int, i: nat)
    requires 1 <= pw <= 4
    ensures PixelOffset(i, pw) <= w <==> i < RowPixels(w, pw)
    ensures PixelOffset(i + 1, pw) == PixelOffset(i, pw) + pw
    ensures i < RowPixels(w, pw) ==> PixelOffset(i + 1, pw) <= RowBytes(w, pw)
  {
  }

  /** Byte `c` of a row is in the row's cells. */
  lemma {:induction false} CellInRow(n: int, base: int, dir: int, cols: nat, c: nat)
    requires 0 <= base < n && cols <= n && c < cols
    ensures Cell(n, base, c, dir) in RowCells(n, base, dir, cols)
  {
    if c < cols - 1 {
      CellInRow(n, base, dir, cols - 1, c);
    }
  }

  /** Byte `c` of row `y` is in the rectangle of the first `rows` rows. */
  lemma {:induction false} CellInCells(n: int, base0: int, pd: int, dir: int, cols: nat, rows: nat, y: nat, c: nat)
    requires 0 <= base0 < n && -n < pd < n && cols <= n && y < rows && c < cols
    ensures Cell(n, RowBase(n, base0, pd, y), c, dir) in Cells(n, base0, pd, dir, cols, rows)
  {
    if y < rows - 1 {
      CellInCells(n, base0, pd, dir, cols, rows - 1, y, c);
    } else {
      CellInRow(n, RowBase(n, base0, pd, y), dir, cols, c);
    }
  }

  /**
   * A pattern copy in a memory of `n` bytes: the chip `id` and registers
   * `r`, the pixel width `pw` and left skip `patternX`; the rectangle of
   * `h + 1` rows with pixels at offsets up to `w`, the first row at
   * `dstBase` and each next one `pitch` bytes on; the pattern at `patBase`,
   * its lines `pp` bytes apart, starting at line `patLine0`.
   */
  datatype Tile = Tile(
    n: int, id: bv8, r: Regs, pw: int, patternX: int, w: nat, h: nat, dstBase: int, pitch: int,
    patBase: int, patLine0: int, pp: int)
  {
    /** The ranges the registers give. */
    predicate Ok()
    {
      n >= 0x10000 && 1 <= pw <= 4 && w <= 0x1fff && 0 <= dstBase < n && 0 <= pitch <= 0x1fff
      && 0 <= patBase < n && 0 <= patLine0 < 8 && 1 <= pp <= 32
    }
  }

  /** A pattern copy whose parameters lie in the ranges the registers give. */
  type Pattern = t: Tile | t.Ok()
    witness Tile(0x10000, 0, Regs(0, 0, 0, 0, 0, 0, 0, 0, 0, 0, 0, 0, 0, 0, 0), 1, 0, 0, 0, 0, 0, 0, 0, 1)

  /** The bytes of each row. */
  function Cols(t: Pattern): (c: nat)
    ensures t.w < c <= t.w + t.pw
  {
    RowBytes(t.w, t.pw)
  }

  /** Every byte the copy may write: `Cols` bytes of each of the `h + 1` rows. */
  ghost function Footprint(t: Pattern): set<int>
  {
    Cells(t.n, t.dstBase, t.pitch, 1, Cols(t), t.h + 1)
  }

  /** The memory index of byte `c` of row `y` (rows run forwards). */
  function Dest(t: Pattern, y: nat, c: nat): (k: int)
    requires c < t.n
    ensures 0 <= k < t.n
  {
    Cell(t.n, RowBase(t.n, t.dstBase, t.pitch, y), c, 1)
  }

  /** The memory index of byte `off` of the pattern line row `y` uses: the lines repeat every eight rows. */
  function PatternAt(t: Pattern, y: nat, off: int): (k: int)
    requires 0 <= off < 64
    ensures 0 <= k < t.n
  {
    var line := (t.patLine0 + y) % 8;
    Wrap(t.n, t.patBase + LineOffset(line, t.pp) + off)
  }

  /**
   * The copy the registers `r` and counters `c` describe for chip `id`: the
   * destination rectangle from the destination address and pitch (always
   * forwards), the pattern from the source address with its low three bits
   * cleared, and the first pattern line from those three bits.
   */
  function TileOf(id: bv8, r: Regs, c: Counters, n: int): (t: Pattern)
    requires n >= 0x10000 && 1 <= c.pixelWidth <= 4 && Bounded(r)
    ensures t.r == r && t.pw == c.pixelWidth && t.patternX == c.patternX && t.n == n
  {
    Tile(n, id, r, c.pixelWidth, c.patternX, U16(r.width), U16(r.height), Wrapped(r.dstAddr, n), U16(r.dstPitch),
         Wrapped(r.srcAddr & 0xffff_fff8, n), U32(r.srcAddr) % 8, PatternPitch(c.pixelWidth, Expanding(r)))
  }

  /** The start of pattern line `line`, `pp` bytes apart. */
  function LineOffset(line: int, pp: int): (o: int)
    requires 0 <= line < 8 && 1 <= pp <= 32
    ensures 0 <= o <= 7 * 32
  {
    line * pp
  }

  /** The offset into a pattern line of the pixel at offset `x`: the line holds eight pixels of `pw` bytes. */
  function PatternColumn(x: nat, pw: int): (o: nat)
    requires 1 <= pw <= 4
    ensures o < 8 * pw
  {
    if pw == 1 then x % 8 else if pw == 2 then x % 16 else if pw == 3 then x % 24 else x % 32
  }

  /** The mask byte a colour-expanded pixel of row `y` reads before its bytes; a solid fill or a plain copy reads none. */
  function PixelMask(v: seq<bv8>, t: Pattern, y: nat): bv8
    requires |v| == t.n
  {
    if Expanding(t.r) && t.r.modeext & ExtSolidFill == 0 then v[PatternAt(t, y, 0)] else 0
  }

  /** The source of byte `xx` of the pixel at offset `x`: the pixel's mask byte, or the pattern byte read just before the write. */
  function Fetch(v: seq<bv8>, t: Pattern, y: nat, x: nat, xx: nat, mask: bv8): bv8
    requires |v| == t.n && xx < t.pw
  {
    if Expanding(t.r) then mask else v[PatternAt(t, y, PatternColumn(x, t.pw) + xx)]
  }

  /**
   * The write of byte `xx` of the pixel at offset `x` in row `y`: that byte
   * takes `PatternByte` of its source over its old value.
   */
  function BytePoke(v: Vram, t: Pattern, y: nat, x: nat, xx: nat, pixel: int, mask: bv8): (v': Vram)
    requires |v.bytes| == t.n && xx < t.pw && x + xx < t.n
    ensures |v'.bytes| == t.n
  {
    var k := Dest(t, y, x + xx);
    Vram(v.bytes[k := PatternByte(t.id, t.r, t.pw, t.patternX, x, xx, pixel, Fetch(v.bytes, t, y, x, xx, mask), v.bytes[k])],
         v.changed)
  }

  /**
   * Where the copy is: the memory so far, row `y`, pixel `i` of it with its
   * mask bit `pixel` (counted modulo 8 from each row's start), and the next
   * byte `xx` of that pixel (`pw` once its bytes are written and its mark is
   * due), with the mask byte the pixel read (0 between pixels).
   */
  datatype Stroke = Stroke(v: Vram, y: nat, i: nat, pixel: nat, xx: nat, mask: bv8)

  /** Where copy `t` may be: inside its rows (at the start of the row past the last once it has ended). */
  predicate At(t: Pattern, s: Stroke)
  {
    |s.v.bytes| == t.n && s.y <= t.h + 1 && s.i < RowPixels(t.w, t.pw) && s.pixel < 8 && s.xx <= t.pw
    && (s.xx == 0 ==> s.mask == 0) && (s.y == t.h + 1 ==> s.i == 0 && s.pixel == 0 && s.xx == 0)
  }

  /**
   * One step of the copy, in the code's order: the next byte of the pixel
   * (the pixel's mask byte read first, before its first byte), or, once all
   * are written, the block of the pixel's first byte marked and the walk on
   * to the next pixel, or to the next row after the row's last pixel.
   */
  function Step(t: Pattern, s: Stroke): (s': Stroke)
    requires At(t, s) && s.y <= t.h
    ensures At(t, s')
  {
    var x := PixelOffset(s.i, t.pw);
    assert x <= t.w by { PixelPlace(t.w, t.pw, s.i); }
    if s.xx < t.pw then
      var mask := if s.xx == 0 then PixelMask(s.v.bytes, t, s.y) else s.mask;
      Stroke(BytePoke(s.v, t, s.y, x, s.xx, s.pixel, mask), s.y, s.i, s.pixel, s.xx + 1, mask)
    else
      var v := Vram(s.v.bytes, s.v.changed + {Dest(t, s.y, x) / BlockSize});
      if s.i + 1 < RowPixels(t.w, t.pw) then Stroke(v, s.y, s.i + 1, (s.pixel + 1) % 8, 0, 0) else Stroke(v, s.y + 1, 0, 0, 0, 0)
  }

  /** Where copy `t` of memory `v0` is after `k` steps. */
  function CopyAfter(v0: Vram, t: Pattern, k: nat): (s: Stroke)
    requires |v0.bytes| == t.n
    ensures At(t, s)
    decreases k, 0
  {
    if k == 0 then Stroke(v0, 0, 0, 0, 0, 0) else CopyNext(v0, t, k - 1)
  }

  /** The step after the first `k`: `Step` while rows remain; the copy stays put once the last row is done. */
  function CopyNext(v0: Vram, t: Pattern, k: nat): (s: Stroke)
    requires |v0.bytes| == t.n
    ensures At(t, s)
    decreases k, 1
  {
    var p := CopyAfter(v0, t, k);
    if p.y > t.h then p else Step(t, p)
  }

  /** Where copy `t` goes after pixel `i - 1` of row `y`: pixel `i` with mask bit `pixel`, or the start of the next row past the row's last pixel. */
  function Cursor(v: Vram, t: Pattern, y: nat, i: nat, pixel: nat): Stroke
  {
    if i < RowPixels(t.w, t.pw) then Stroke(v, y, i, pixel, 0, 0) else Stroke(v, y + 1, 0, 0, 0, 0)
  }

  /** The step after the last byte of a pixel marks the block of its first byte and moves on to the next pixel or row. */
  lemma MarkStep(t: Pattern, s: Stroke)
    requires At(t, s) && s.y <= t.h && s.xx == t.pw
    ensures Step(t, s) == Cursor(Vram(s.v.bytes, s.v.changed + {Dest(t, s.y, PixelOffset(s.i, t.pw)) / BlockSize}),
                                 t, s.y, s.i + 1, (s.pixel + 1) % 8)
  {
  }

  /** Step `k`, made while rows remain, is `Step`. */
  lemma CopySucc(v0: Vram, t: Pattern, k: nat)
    requires |v0.bytes| == t.n && k > 0 && CopyAfter(v0, t, k - 1).y <= t.h
    ensures CopyAfter(v0, t, k) == Step(t, CopyAfter(v0, t, k - 1))
  {
  }

  /** The steps of one row: `pw` bytes and a mark per pixel. */
  function RowSteps(t: Pattern): nat
  {
    Area(RowPixels(t.w, t.pw), t.pw + 1)
  }

  /** `gd54xx_pattern_copy` on memory `v`: every step of every row, in order. */
  function PatternCopy(v: Vram, t: Pattern): (v': Vram)
    requires |v.bytes| == t.n
    ensures |v'.bytes| == t.n
  {
    CopyAfter(v, t, Area(t.h + 1, RowSteps(t))).v
  }

  /** `v` differs from `v0` only at indices in `f`, and the blocks marked since are blocks of `f`. */
  ghost predicate Inside(v0: Vram, v: Vram, f: set<int>)
  {
    |v.bytes| == |v0.bytes| && (forall k :: 0 <= k < |v0.bytes| && k !in f ==> v.bytes[k] == v0.bytes[k])
    && v.changed <= v0.changed + Blocks(f)
  }

  /** Staying inside `f` twice stays inside `f`. */
  lemma InsideTrans(a: Vram, b: Vram, c: Vram, f: set<int>)
    ensures Inside(a, b, f) && Inside(b, c, f) ==> Inside(a, c, f)
  {
  }

  /** Every byte of every row of the copy, up to `Cols`, is in `f`. */
  ghost predicate Covers(t: Pattern, f: set<int>)
  {
    forall y: nat, c: nat :: y <= t.h && c < Cols(t) ==> Dest(t, y, c) in f
  }

  /** The rectangle covers the copy's rows. */
  lemma FootprintCovers(t: Pattern)
    ensures Covers(t, Footprint(t))
  {
    forall y: nat, c: nat | y <= t.h && c < Cols(t)
      ensures Dest(t, y, c) in Footprint(t)
    {
      CellInCells(t.n, t.dstBase, t.pitch, 1, Cols(t), t.h + 1, y, c);
    }
  }

  /** Changing one byte, at `k` in `f`, stays inside `f`. */
  lemma PokeInside(v: Vram, k: int, v': Vram, f: set<int>)
    requires k in f && |v'.bytes| == |v.bytes| && v'.changed == v.changed
    requires forall j :: 0 <= j < |v.bytes| && j != k ==> v'.bytes[j] == v.bytes[j]
    ensures Inside(v, v', f)
  {
  }

  /** Marking the block of `k`, in `f`, stays inside `f`. */
  lemma MarkInside(v: Vram, k: int, f: set<int>)
    requires k in f
    ensures Inside(v, Vram(v.bytes, v.changed + {k / BlockSize}), f)
  {
    assert k / BlockSize in Blocks(f);
  }

  /** One step writes or marks only inside `f`. */
  lemma StepInside(t: Pattern, s: Stroke, f: set<int>)
    requires At(t, s) && s.y <= t.h && Covers(t, f)
    ensures Inside(s.v, Step(t, s).v, f)
  {
    var x := PixelOffset(s.i, t.pw);
    PixelPlace(t.w, t.pw, s.i);
    if s.xx < t.pw {
      var mask := if s.xx == 0 then PixelMask(s.v.bytes, t, s.y) else s.mask;
      PokeInside(s.v, Dest(t, s.y, x + s.xx), BytePoke(s.v, t, s.y, x, s.xx, s.pixel, mask), f);
    } else {
      MarkInside(s.v, Dest(t, s.y, x), f);
    }
  }

  /** Step `k` keeps the copy inside `f`. */
  lemma CopyInsideSucc(v0: Vram, t: Pattern, k: nat, f: set<int>)
    requires |v0.bytes| == t.n && Covers(t, f) && k > 0
    ensures Inside(v0, CopyAfter(v0, t, k - 1).v, f) ==> Inside(v0, CopyAfter(v0, t, k).v, f)
  {
    var p := CopyAfter(v0, t, k - 1);
    if p.y <= t.h {
      CopySucc(v0, t, k);
      StepInside(t, p, f);
      InsideTrans(v0, p.v, Step(t, p).v, f);
    }
  }

  /** Any number of steps writes or marks only inside `f`. */
  lemma {:induction false} CopyInside(v0: Vram, t: Pattern, k: nat, f: set<int>)
    requires |v0.bytes| == t.n && Covers(t, f)
    ensures Inside(v0, CopyAfter(v0, t, k).v, f)
  {
    if k > 0 {
      CopyInside(v0, t, k - 1, f);
      CopyInsideSucc(v0, t, k, f);
    }
  }

  /**
   * The pattern copy writes only the rectangle's whole pixels and marks
   * only blocks of them.
   */
  lemma PatternCopyInside(v: Vram, t: Pattern)
    requires |v.bytes| == t.n
    ensures Inside(v, PatternCopy(v, t), Footprint(t))
  {
    FootprintCovers(t);
    CopyInside(v, t, Area(t.h + 1, RowSteps(t)), Footprint(t));
  }

  /**
   * The write of byte `xx` of pixel `i` (at offset `x`, mask bit `pixel`)
   * of row `y`: the source is read (unless the mask byte gives it) and the
   * byte takes `PatternByte` of it over its old value; this is step `k` of
   * the copy.
   */
  method PatternPoke(mem: VideoMemory, t: Pattern, y: nat, x: nat, xx: nat, pixel: nat, mask: bv8,
                     ghost v0: Vram, ghost i: nat, ghost k: nat)
    requires mem.bytes.Length == t.n && |v0.bytes| == t.n && k > 0 && y <= t.h && xx < t.pw
    requires CopyAfter(v0, t, k - 1) == Stroke(mem.Contents(), y, i, pixel, xx, if xx == 0 then 0 else mask)
    requires x == PixelOffset(i, t.pw) && (xx == 0 ==> mask == PixelMask(mem.bytes[..], t, y))
    modifies mem.bytes
    ensures CopyAfter(v0, t, k) == Stroke(mem.Contents(), y, i, pixel, xx + 1, mask)
  {
    ghost var v := mem.Contents();
    CopySucc(v0, t, k);
    var src := if Expanding(t.r) then mask else mem.bytes[PatternAt(t, y, PatternColumn(x, t.pw) + xx)];
    assert src == Fetch(v.bytes, t, y, x, xx, mask);
    var k' := Dest(t, y, x + xx);
    var b := PatternByte(t.id, t.r, t.pw, t.patternX, x, xx, pixel, src, mem.bytes[k']);
    mem.Poke(k', b);
  }

  /**
   * The bytes of pixel `i` of row `y`, at offset `x` (the inner loop of
   * `gd54xx_pattern_copy`), steps `k0 + 1` to `k0 + pw` of the copy.
   * Colour expansion reads the mask byte once, before the pixel's first
   * byte (a solid fill reads nothing); a plain copy reads each pattern byte
   * just before it writes the matching destination byte.
   */
  method PatternBytes(mem: VideoMemory, t: Pattern, y: nat, x: nat, pixel: nat,
                      ghost v0: Vram, ghost i: nat, ghost k0: nat) returns (ghost k: nat, ghost m: bv8)
    requires mem.bytes.Length == t.n && |v0.bytes| == t.n && y <= t.h
    requires CopyAfter(v0, t, k0) == Stroke(mem.Contents(), y, i, pixel, 0, 0) && x == PixelOffset(i, t.pw)
    modifies mem.bytes
    ensures k == k0 + t.pw && CopyAfter(v0, t, k) == Stroke(mem.Contents(), y, i, pixel, t.pw, m)
  {
    var mask: bv8 := 0;
    if Expanding(t.r) && t.r.modeext & ExtSolidFill == 0 {
      mask := mem.bytes[PatternAt(t, y, 0)];
    }
    k := k0;
    var xx := 0;
    while xx < t.pw
      invariant mem.bytes.Length == |v0.bytes| && xx <= t.pw && k == k0 + xx
      invariant CopyAfter(v0, t, k) == Stroke(mem.Contents(), y, i, pixel, xx, if xx == 0 then 0 else mask)
      invariant xx == 0 ==> mask == PixelMask(mem.bytes[..], t, y)
      decreases t.pw - xx
    {
      k := k + 1;
      PatternPoke(mem, t, y, x, xx, pixel, mask, v0, i, k);
      xx := xx + 1;
    }
    m := mask;
  }

  /**
   * The mark after the bytes of the pixel at offset `x`, step `k` of the
   * copy: the block of the pixel's first byte, then on to the next pixel,
   * or to the next row after the row's last pixel.
   */
  method PatternMark(mem: VideoMemory, t: Pattern, y: nat, x: nat, pixel: nat,
                     ghost v0: Vram, ghost i: nat, ghost mask: bv8, ghost k: nat)
    requires mem.bytes.Length == t.n && |v0.bytes| == t.n && k > 0 && y <= t.h && x == PixelOffset(i, t.pw)
    requires CopyAfter(v0, t, k - 1) == Stroke(mem.Contents(), y, i, pixel, t.pw, mask)
    modifies mem
    ensures CopyAfter(v0, t, k) == Cursor(mem.Contents(), t, y, i + 1, (pixel + 1) % 8)
  {
    ghost var s := CopyAfter(v0, t, k - 1);
    PixelPlace(t.w, t.pw, i);
    var d := Dest(t, y, x);
    mem.Mark(d);
    CopySucc(v0, t, k);
    MarkStep(t, s);
  }

  /**
   * Pixel `i` of row `y`, at offset `x` (one pass of the loop over `x` in
   * `gd54xx_pattern_copy`): its bytes, then the mark of the block of its
   * first byte.
   */
  method PatternPixel(mem: VideoMemory, t: Pattern, y: nat, x: nat, pixel: nat, ghost v0: Vram, ghost i: nat, ghost k0: nat)
    returns (ghost k: nat)
    requires mem.bytes.Length == t.n && |v0.bytes| == t.n && y <= t.h
    requires CopyAfter(v0, t, k0) == Stroke(mem.Contents(), y, i, pixel, 0, 0) && x == PixelOffset(i, t.pw)
    modifies mem, mem.bytes
    ensures k == k0 + t.pw + 1 && CopyAfter(v0, t, k) == Cursor(mem.Contents(), t, y, i + 1, (pixel + 1) % 8)
  {
    ghost var mask;
    k, mask := PatternBytes(mem, t, y, x, pixel, v0, i, k0);
    k := k + 1;
    PatternMark(mem, t, y, x, pixel, v0, i, mask, k);
  }

  /** The walk from pixel `i` of a row to the next: its offset, and whether it is still in the row. */
  lemma PixelNext(t: Pattern, i: nat)
    requires i < RowPixels(t.w, t.pw)
    ensures PixelOffset(i + 1, t.pw) == PixelOffset(i, t.pw) + t.pw
    ensures PixelOffset(i + 1, t.pw) <= t.w <==> i + 1 < RowPixels(t.w, t.pw)
  {
    PixelPlace(t.w, t.pw, i);
    PixelPlace(t.w, t.pw, i + 1);
  }

  /** One row of the copy (the loop over `x` in `gd54xx_pattern_copy`): its pixels, each marking the block of its first byte. */
  method PatternRow(mem: VideoMemory, t: Pattern, y: nat, ghost v0: Vram, ghost k0: nat) returns (ghost k: nat)
    requires mem.bytes.Length == t.n && |v0.bytes| == t.n && y <= t.h
    requires CopyAfter(v0, t, k0) == Stroke(mem.Contents(), y, 0, 0, 0, 0)
    modifies mem, mem.bytes
    ensures k == k0 + RowSteps(t) && CopyAfter(v0, t, k) == Stroke(mem.Contents(), y + 1, 0, 0, 0, 0)
  {
    var x := 0;
    var pixel: nat := 0;
    ghost var i: nat := 0;
    k := k0;
    PixelPlace(t.w, t.pw, 0);
    while x <= t.w
      invariant mem.bytes.Length == |v0.bytes| && i <= RowPixels(t.w, t.pw) && x == PixelOffset(i, t.pw) && pixel < 8
      invariant x <= t.w <==> i < RowPixels(t.w, t.pw)
      invariant k == k0 + Area(i, t.pw + 1)
      invariant CopyAfter(v0, t, k) == Cursor(mem.Contents(), t, y, i, pixel)
      decreases t.w + 1 - x
    {
      k := PatternPixel(mem, t, y, x, pixel, v0, i, k);
      PixelNext(t, i);
      pixel := (pixel + 1) % 8;
      x := x + t.pw;
      i := i + 1;
    }
  }

  /**
   * `gd54xx_pattern_copy` over the copy `t`: the rows in order, the pattern
   * line moving on by one (modulo 8) per row.
   */
  method PatternRun(mem: VideoMemory, t: Pattern)
    requires mem.bytes.Length == t.n
    modifies mem, mem.bytes
    ensures mem.Contents() == PatternCopy(old(mem.Contents()), t)
  {
    ghost var v0 := mem.Contents();
    ghost var k: nat := 0;
    var y := 0;
    while y <= t.h
      invariant mem.bytes.Length == |v0.bytes| && y <= t.h + 1 && k == Area(y, RowSteps(t))
      invariant CopyAfter(v0, t, k) == Stroke(mem.Contents(), y, 0, 0, 0, 0)
      decreases t.h + 1 - y
    {
      k := PatternRow(mem, t, y, v0, k);
      y := y + 1;
    }
  }
}
