/*
 * The CL-GD54xx video-to-video blit (`gd54xx_normal_blit`): a walk over
 * `height + 1` rows of `width + 1` destination bytes, reading the source
 * bytes (or the colour-expansion mask) as it goes.
 */
module Gd54xxNormal {
  import opened Gd54xxOps
  import opened Gd54xxRegs
  import opened Gd54xxVisit
  import opened Gd54xxGeometry
  import opened Gd54xxMemory

  /**
   * The bytes a normal blit with registers `r` and direction `dir` may touch
   * in a memory of `n` bytes: `height + 1` rows of `width + 1` bytes.
   */
  ghost function NormalFootprint(r: Regs, dir: int, n: int): set<int>
    requires n >= 0x10000
  {
    Cells(n, Wrapped(r.dstAddr, n), Pitch(r.dstPitch, dir), dir, U16(r.width) + 1, U16(r.height) + 1)
  }

  /** The number of bytes a normal blit with registers `r` visits in all: `height + 1` rows of `width + 1`. */
  function NormalVisits(r: Regs): nat
  {
    Area(U16(r.height) + 1, U16(r.width) + 1)
  }

  /**
   * Where a normal blit reads: the source address, the start of the source
   * row, and the pixel and row counters (`x_count`, `y_count`).
   */
  datatype Reader = Reader(src: int, srcBase: int, xc: int, yc: int)
  {
    /** The ranges the loop keeps: addresses inside a memory of `n` bytes, `xc` below `xMax`. */
    predicate Ok(n: int, xMax: int)
    {
      0 <= src < n && 0 <= srcBase < n && 0 <= xc < xMax && 0 <= yc < 8
    }

    /**
     * After one byte: a copy reads on by `dir`; colour expansion moves to the
     * next mask byte once `xc` has counted through its eight pixels.
     */
    function NextByte(expand: bool, dir: int, n: int, xMax: int): (rd: Reader)
      requires Ok(n, xMax) && 2 <= n && (dir == 1 || dir == -1)
      ensures rd.Ok(n, xMax) && rd.srcBase == srcBase && rd.yc == yc
    {
      var wrapped := xc + 1 == xMax;
      this.(src := if !expand then AddMod(src, dir, n) else if wrapped then AddMod(src, 1, n) else src,
            xc := if wrapped then 0 else xc + 1)
    }

    /**
     * After a row: a copy moves its source row on by the source pitch `spd`;
     * colour expansion carries on with the next mask byte when the row ended
     * part-way through one. `y_count` steps by `dir` modulo 8.
     */
    function NextRow(expand: bool, spd: int, dir: int, n: int, xMax: int): (rd: Reader)
      requires Ok(n, xMax) && 2 <= n && -n < spd < n && (dir == 1 || dir == -1)
      ensures rd.Ok(n, xMax) && rd.xc == 0
    {
      var s := if expand then (if xc != 0 then AddMod(src, 1, n) else src) else AddMod(srcBase, spd, n);
      Reader(s, if expand then srcBase else s, 0, AddMod(yc, dir, 8))
    }
  }

  /**
   * The parameters of a normal blit in a memory of `n` bytes: registers `r`,
   * pixel width `pw`, left skip `patternX` and direction `dir`; rows of
   * `w + 1` bytes, `h + 1` of them, the first starting at `base0` and each
   * next one `dpd` bytes on; reading from `src0`, moving on by `spd` per row
   * when copying.
   */
  datatype Blit = Blit(n: int, r: Regs, pw: int, patternX: int, dir: int, w: nat, h: nat,
                       base0: int, src0: int, dpd: int, spd: int)
  {
    /** The ranges the registers give. */
    predicate Ok()
    {
      n >= 0x10000 && 1 <= pw <= 4 && 0 <= patternX && (dir == 1 || dir == -1) && w <= 0xffff && h <= 0xffff
      && 0 <= base0 < n && 0 <= src0 < n && -0x10000 < dpd < 0x10000 && -0x10000 < spd < 0x10000
    }
  }

  /** A normal blit whose parameters lie in the ranges the registers give. */
  type Job = b: Blit | b.Ok()
    witness Blit(0x10000, Regs(0, 0, 0, 0, 0, 0, 0, 0, 0, 0, 0, 0, 0, 0, 0), 1, 0, 1, 0, 0, 0, 0, 0, 0)

  /** The normal blit registers `r` and counters `c` describe in a memory of `n` bytes. */
  function JobOf(r: Regs, c: Counters, n: int): (j: Job)
    requires n >= 0x10000 && 1 <= c.pixelWidth <= 4 && 0 <= c.patternX && (c.dir == 1 || c.dir == -1)
    ensures j.n == n && j.dir == c.dir && j.w == U16(r.width) && j.h == U16(r.height)
    ensures j.base0 == Wrapped(r.dstAddr, n) && j.dpd == Pitch(r.dstPitch, c.dir)
  {
    Blit(n, r, c.pixelWidth, c.patternX, c.dir, U16(r.width), U16(r.height),
         Wrapped(r.dstAddr, n), Wrapped(r.srcAddr, n), Pitch(r.dstPitch, c.dir), Pitch(r.srcPitch, c.dir))
  }

  /** Where a normal blit is: `row` whole rows and `col` bytes of the next done, the row starting at `dstBase`, reading at `rd`. */
  datatype Walk = Walk(dstBase: int, rd: Reader, row: nat, col: nat)

  /**
   * Where blit `j` may be between two visits: inside its `h + 1` rows of
   * `w + 1` bytes (just past the last row once it has ended), with the row
   * start and the reader inside the memory.
   */
  predicate At(j: Job, st: Walk)
  {
    st.row <= j.h + 1 && st.col <= j.w && (st.row == j.h + 1 ==> st.col == 0 && st.rd.xc == 0)
    && 0 <= st.dstBase < j.n && st.rd.Ok(j.n, j.pw * 8)
  }

  /** The row start is the one `RowBase` names for the row. */
  predicate Based(j: Job, st: Walk)
  {
    st.dstBase == RowBase(j.n, j.base0, j.dpd, st.row)
  }

  /** The place blit `j` starts from: the first byte of the first row, reading at `src0`. */
  function Start(j: Job): (st: Walk)
    ensures At(j, st)
  {
    Walk(j.base0, Reader(j.src0, j.src0, 0, 0), 0, 0)
  }

  /** The bytes blit `j` has visited once it is at `st`. */
  function DoneAt(j: Job, st: Walk): set<int>
    requires st.col <= j.w
  {
    Done(j.n, j.base0, j.dpd, j.dir, j.w + 1, st.row, st.col)
  }

  /** Before the first visit no byte is done. */
  lemma StartDone(j: Job)
    ensures DoneAt(j, Start(j)) == {}
  {
  }

  /**
   * The position after one more byte: the next column, or after the last
   * byte of a row the start of the next row, `dpd` further on, with the
   * reader moved to the next source row.
   */
  function Advance(j: Job, st: Walk, rd: Reader): (next: Walk)
    requires At(j, st) && st.row <= j.h && rd.Ok(j.n, j.pw * 8)
    ensures At(j, next)
    ensures Area(next.row, j.w + 1) + next.col == Area(st.row, j.w + 1) + st.col + 1
  {
    if st.col < j.w then st.(rd := rd, col := st.col + 1)
    else Walk(AddMod(st.dstBase, j.dpd, j.n), rd.NextRow(Expanding(j.r), j.spd, j.dir, j.n, j.pw * 8), st.row + 1, 0)
  }

  /** The bytes done after `Advance` are those done before plus the one just visited. */
  lemma AdvanceDone(j: Job, st: Walk, rd: Reader)
    requires At(j, st) && Based(j, st) && st.row <= j.h && rd.Ok(j.n, j.pw * 8)
    ensures Based(j, Advance(j, st, rd))
    ensures DoneAt(j, Advance(j, st, rd)) == DoneAt(j, st) + {Cell(j.n, st.dstBase, st.col, j.dir)}
  {
    DoneStep(j.n, j.base0, j.dpd, j.dir, j.w + 1, st.row, st.col);
    if st.col == j.w {
      DoneRow(j.n, j.base0, j.dpd, j.dir, j.w + 1, st.row, st.col + 1);
    }
  }

  /** Where blit `j` is after `k` visits, in the code's order; it stays put once the last row is done. */
  function WalkAfter(j: Job, k: nat): (st: Walk)
    ensures At(j, st)
  {
    if k == 0 then Start(j)
    else
      var p := WalkAfter(j, k - 1);
      if p.row > j.h then p else Advance(j, p, p.rd.NextByte(Expanding(j.r), j.dir, j.n, j.pw * 8))
  }

  /** Visit `k`, made while rows remain, moves on as `Advance` says. */
  lemma WalkSucc(j: Job, k: nat)
    requires k > 0 && WalkAfter(j, k - 1).row <= j.h
    ensures var p := WalkAfter(j, k - 1); WalkAfter(j, k) == Advance(j, p, p.rd.NextByte(Expanding(j.r), j.dir, j.n, j.pw * 8))
  {
  }

  /** After the last row a visit leaves the walk where it is. */
  lemma WalkStays(j: Job, k: nat)
    requires k > 0 && WalkAfter(j, k - 1).row > j.h
    ensures WalkAfter(j, k) == WalkAfter(j, k - 1)
  {
  }

  /** How far through the rectangle the walk at `st` is: the bytes of the whole rows done plus those of the current row. */
  function Progress(j: Job, st: Walk): nat
  {
    Area(st.row, j.w + 1) + st.col
  }

  /** A visit made while rows remain moves one byte further; one made after the last row moves nowhere. */
  lemma WalkProgress(j: Job, k: nat)
    requires k > 0
    ensures WalkAfter(j, k - 1).row <= j.h ==> Progress(j, WalkAfter(j, k)) == Progress(j, WalkAfter(j, k - 1)) + 1
    ensures WalkAfter(j, k - 1).row > j.h ==> WalkAfter(j, k) == WalkAfter(j, k - 1)
  {
    if WalkAfter(j, k - 1).row <= j.h {
      WalkSucc(j, k);
    } else {
      WalkStays(j, k);
    }
  }

  /** After `k` visits the walk has made `k` steps through the rectangle, or has ended after fewer. */
  lemma {:induction false} WalkCount(j: Job, k: nat)
    ensures var p := WalkAfter(j, k);
            Progress(j, p) <= k && (p.row <= j.h ==> Progress(j, p) == k)
  {
    if k > 0 {
      WalkCount(j, k - 1);
      WalkProgress(j, k);
    }
  }

  /** The walk keeps the row start `RowBase` names. */
  lemma {:induction false} WalkBased(j: Job, k: nat)
    ensures Based(j, WalkAfter(j, k))
  {
    if k > 0 {
      var p := WalkAfter(j, k - 1);
      WalkBased(j, k - 1);
      if p.row <= j.h {
        WalkSucc(j, k);
        AdvanceDone(j, p, p.rd.NextByte(Expanding(j.r), j.dir, j.n, j.pw * 8));
      } else {
        WalkStays(j, k);
      }
    }
  }

  /** Visit `k`, made while rows remain, adds the byte it visits to the bytes done. */
  lemma WalkDone(j: Job, k: nat)
    requires k > 0 && WalkAfter(j, k - 1).row <= j.h
    ensures var p := WalkAfter(j, k - 1);
            DoneAt(j, WalkAfter(j, k)) == DoneAt(j, p) + {Cell(j.n, p.dstBase, p.col, j.dir)}
  {
    var p := WalkAfter(j, k - 1);
    WalkBased(j, k - 1);
    WalkSucc(j, k);
    AdvanceDone(j, p, p.rd.NextByte(Expanding(j.r), j.dir, j.n, j.pw * 8));
  }

  /** Once the last row is done, further visits leave the walk where it is. */
  lemma {:induction false} WalkEnded(j: Job, k: nat, k': nat)
    requires k <= k' && WalkAfter(j, k).row > j.h
    ensures WalkAfter(j, k') == WalkAfter(j, k)
    decreases k'
  {
    if k < k' {
      WalkEnded(j, k, k' - 1);
      WalkStays(j, k');
    }
  }

  /**
   * The store of one visit of a normal blit (one pass of the loop in
   * `cirrus_normal_blit`): the byte at column `col` of the current row takes
   * the value `NormalByte` gives for the source (or mask) byte at the reader
   * and the old byte, and its block is marked.
   */
  function NormalPoke(v: Vram, j: Job, st: Walk): (v': Vram)
    requires |v.bytes| == j.n && At(j, st)
    ensures |v'.bytes| == j.n
  {
    var di := Cell(j.n, st.dstBase, st.col, j.dir);
    var b := NormalByte(j.r, j.pw, j.patternX, st.col, st.rd.xc, v.bytes[st.rd.src], v.bytes[di]);
    Vram(v.bytes[di := b], v.changed + {di / BlockSize})
  }

  /** The memory after `k` visits of blit `j` to `v0`, in the code's order. */
  function NormalAfter(v0: Vram, j: Job, k: nat): (v: Vram)
    requires |v0.bytes| == j.n
    ensures |v.bytes| == j.n
  {
    if k == 0 then v0
    else
      var st := WalkAfter(j, k - 1);
      if st.row > j.h then NormalAfter(v0, j, k - 1) else NormalPoke(NormalAfter(v0, j, k - 1), j, st)
  }

  /** Visit `k`, made while rows remain, stores as `NormalPoke` says. */
  lemma AfterSucc(v0: Vram, j: Job, k: nat)
    requires |v0.bytes| == j.n && k > 0 && WalkAfter(j, k - 1).row <= j.h
    ensures NormalAfter(v0, j, k) == NormalPoke(NormalAfter(v0, j, k - 1), j, WalkAfter(j, k - 1))
  {
  }

  /** After the last row a visit changes nothing. */
  lemma AfterStays(v0: Vram, j: Job, k: nat)
    requires |v0.bytes| == j.n && k > 0 && WalkAfter(j, k - 1).row > j.h
    ensures NormalAfter(v0, j, k) == NormalAfter(v0, j, k - 1)
  {
  }

  /** Once the last row is done, further visits change nothing. */
  lemma {:induction false} AfterEnded(v0: Vram, j: Job, k: nat, k': nat)
    requires |v0.bytes| == j.n && k <= k' && WalkAfter(j, k).row > j.h
    ensures NormalAfter(v0, j, k') == NormalAfter(v0, j, k)
    decreases k'
  {
    if k < k' {
      AfterEnded(v0, j, k, k' - 1);
      WalkEnded(j, k, k' - 1);
      AfterStays(v0, j, k');
    }
  }

  /**
   * Visit `k`, made while rows remain, changes only the byte it stores,
   * marks that byte's block, and adds that byte to the bytes done.
   */
  lemma AfterNext(v0: Vram, j: Job, k: nat)
    requires |v0.bytes| == j.n && k > 0 && WalkAfter(j, k - 1).row <= j.h
    ensures var st := WalkAfter(j, k - 1); var v := NormalAfter(v0, j, k - 1); var v' := NormalAfter(v0, j, k);
            var di := Cell(j.n, st.dstBase, st.col, j.dir);
            (forall i :: 0 <= i < j.n && i != di ==> v'.bytes[i] == v.bytes[i])
            && v'.changed == v.changed + {di / BlockSize}
            && DoneAt(j, WalkAfter(j, k)) == DoneAt(j, st) + {di}
  {
    AfterSucc(v0, j, k);
    WalkDone(j, k);
  }

  /** `v` has the length of `v0` and differs from it only at indices in `d`. */
  predicate Keeps(v0: seq<bv8>, v: seq<bv8>, d: set<int>)
  {
    |v| == |v0| && forall i :: 0 <= i < |v0| && i !in d ==> v[i] == v0[i]
  }

  /** Changing one more byte, at `x`, adds `x` to the bytes that may differ. */
  lemma KeepsStep(v0: seq<bv8>, v: seq<bv8>, v': seq<bv8>, d: set<int>, x: int)
    requires Keeps(v0, v, d) && |v'| == |v| && forall i :: 0 <= i < |v| && i != x ==> v'[i] == v[i]
    ensures Keeps(v0, v', d + {x})
  {
  }

  /** Marking one more block, that of `x`, keeps the marks those of `c0` plus the blocks of the bytes done. */
  lemma MarksStep(c0: set<int>, c: set<int>, c': set<int>, d: set<int>, x: int)
    requires c == c0 + Blocks(d) && c' == c + {x / BlockSize}
    ensures c' == c0 + Blocks(d + {x})
  {
    BlocksAdd(d, x);
  }

  /** After `k` visits of blit `j` only the bytes done differ from `v0`. */
  predicate FrameAt(v0: Vram, j: Job, k: nat)
    requires |v0.bytes| == j.n
  {
    Keeps(v0.bytes, NormalAfter(v0, j, k).bytes, DoneAt(j, WalkAfter(j, k)))
  }

  /** After `k` visits of blit `j` exactly the blocks of the bytes done have been marked. */
  predicate MarksAt(v0: Vram, j: Job, k: nat)
    requires |v0.bytes| == j.n
  {
    NormalAfter(v0, j, k).changed == v0.changed + Blocks(DoneAt(j, WalkAfter(j, k)))
  }

  /** `FrameAt` holds after visit `k`, given that it holds before. */
  lemma FrameSucc(v0: Vram, j: Job, k: nat)
    requires |v0.bytes| == j.n && k > 0
    ensures FrameAt(v0, j, k - 1) ==> FrameAt(v0, j, k)
  {
    var st := WalkAfter(j, k - 1);
    if FrameAt(v0, j, k - 1) {
      if st.row <= j.h {
        AfterNext(v0, j, k);
        KeepsStep(v0.bytes, NormalAfter(v0, j, k - 1).bytes, NormalAfter(v0, j, k).bytes,
                  DoneAt(j, st), Cell(j.n, st.dstBase, st.col, j.dir));
      } else {
        AfterStays(v0, j, k);
        WalkStays(j, k);
      }
    }
  }

  /** Before the first visit no block has been marked beyond those of `v0`. */
  lemma MarksStart(v0: Vram, j: Job)
    requires |v0.bytes| == j.n
    ensures MarksAt(v0, j, 0)
  {
    StartDone(j);
    assert Blocks({}) == {};
  }

  /** `MarksAt` holds after visit `k`, given that it holds before. */
  lemma MarksSucc(v0: Vram, j: Job, k: nat)
    requires |v0.bytes| == j.n && k > 0
    ensures MarksAt(v0, j, k - 1) ==> MarksAt(v0, j, k)
  {
    var st := WalkAfter(j, k - 1);
    if MarksAt(v0, j, k - 1) {
      if st.row <= j.h {
        AfterNext(v0, j, k);
        MarksStep(v0.changed, NormalAfter(v0, j, k - 1).changed, NormalAfter(v0, j, k).changed,
                  DoneAt(j, st), Cell(j.n, st.dstBase, st.col, j.dir));
      } else {
        AfterStays(v0, j, k);
        WalkStays(j, k);
      }
    }
  }

  /** After `k` visits only the bytes done differ from `v0`. */
  lemma {:induction false} NormalAfterFrame(v0: Vram, j: Job, k: nat)
    requires |v0.bytes| == j.n
    ensures FrameAt(v0, j, k)
  {
    if k == 0 {
      StartDone(j);
    } else {
      NormalAfterFrame(v0, j, k - 1);
      FrameSucc(v0, j, k);
    }
  }

  /** After `k` visits exactly the blocks of the bytes done have been marked. */
  lemma {:induction false} NormalAfterMarks(v0: Vram, j: Job, k: nat)
    requires |v0.bytes| == j.n
    ensures MarksAt(v0, j, k)
  {
    if k == 0 {
      MarksStart(v0, j);
    } else {
      NormalAfterMarks(v0, j, k - 1);
      MarksSucc(v0, j, k);
    }
  }

  /** The bytes of the rectangle of blit `j`: `h + 1` rows of `w + 1`. */
  ghost function Footprint(j: Job): set<int>
  {
    Cells(j.n, j.base0, j.dpd, j.dir, j.w + 1, j.h + 1)
  }

  /** Wherever the walk is, the bytes done lie in the rectangle. */
  lemma DoneInside(j: Job, st: Walk)
    requires st.row <= j.h + 1 && st.col <= j.w && (st.row == j.h + 1 ==> st.col == 0)
    ensures DoneAt(j, st) <= Footprint(j)
  {
    if st.row > j.h {
      DoneAll(j.n, j.base0, j.dpd, j.dir, j.w + 1, j.h + 1);
    } else {
      DoneInsideBlit(j.n, j.base0, j.dpd, j.dir, j.w + 1, j.h + 1, st.row, st.col);
    }
  }

  /** Given as many visits as the rectangle has bytes, the walk has ended and done them all. */
  lemma WalkComplete(j: Job, k: nat)
    requires k >= Area(j.h + 1, j.w + 1)
    ensures WalkAfter(j, k).row > j.h && DoneAt(j, WalkAfter(j, k)) == Footprint(j)
  {
    var st := WalkAfter(j, k);
    WalkCount(j, k);
    if st.row <= j.h {
      StoppedShort(j.h + 1, j.w + 1, st.row, st.col);
    }
    assert st.row == j.h + 1 && st.col == 0;
    DoneAll(j.n, j.base0, j.dpd, j.dir, j.w + 1, j.h + 1);
  }

  /**
   * What a normal blit of `count` visits covers: the bytes done lie in the
   * blit's rectangle, and given as many visits as the rectangle has bytes
   * the walk has ended and done them all.
   */
  lemma NormalCoverage(j: Job, count: nat)
    ensures var st := WalkAfter(j, count);
            DoneAt(j, st) <= Footprint(j)
            && (count >= Area(j.h + 1, j.w + 1) ==> st.row > j.h && DoneAt(j, st) == Footprint(j))
  {
    DoneInside(j, WalkAfter(j, count));
    if count >= Area(j.h + 1, j.w + 1) {
      WalkComplete(j, count);
    }
  }

  /**
   * `cirrus_normal_blit` with registers `r` from counters `c`, given `count`
   * visits: the memory `NormalAfter` leaves, and the counters where the walk
   * stopped (the row counter all ones once the rectangle is done). Nothing
   * outside the rectangle changes and no block outside it is marked; given
   * as many visits as the rectangle has bytes, every block of it is marked
   * and the pixel counter is back at 0.
   */
  function NormalBlit(v0: Vram, r: Regs, c: Counters, count: nat): (res: (Vram, Counters))
    requires |v0.bytes| >= 0x10000 && c.Valid(|v0.bytes|)
    ensures |res.0.bytes| == |v0.bytes| && res.1.Valid(|v0.bytes|)
    ensures res.1 == c.(dstAddrBackup := res.1.dstAddrBackup, srcAddrBackup := res.1.srcAddrBackup,
                        heightInternal := res.1.heightInternal, xCount := res.1.xCount, yCount := res.1.yCount)
    ensures forall k :: 0 <= k < |v0.bytes| && k !in NormalFootprint(r, c.dir, |v0.bytes|) ==> res.0.bytes[k] == v0.bytes[k]
    ensures res.0.changed <= v0.changed + Blocks(NormalFootprint(r, c.dir, |v0.bytes|))
    ensures count >= NormalVisits(r) ==>
              res.0.changed == v0.changed + Blocks(NormalFootprint(r, c.dir, |v0.bytes|))
              && res.1.heightInternal == 0xffff && res.1.xCount == 0
  {
    var j := JobOf(r, c, |v0.bytes|);
    var st := WalkAfter(j, count);
    NormalAfterFrame(v0, j, count);
    NormalAfterMarks(v0, j, count);
    NormalCoverage(j, count);
    BlocksGrow(DoneAt(j, st), NormalFootprint(r, c.dir, j.n));
    (NormalAfter(v0, j, count),
     c.Stopped(j.n, st.dstBase, st.rd.srcBase, if st.row > j.h then 0xffff else j.h - st.row, st.rd.xc, st.rd.yc))
  }

  /** One pass of the loop of `cirrus_normal_blit`: visit `k` of blit `j`. */
  method NormalStep(mem: VideoMemory, j: Job, st: Walk, ghost v0: Vram, ghost k: nat) returns (next: Walk)
    requires |v0.bytes| == j.n && k > 0 && mem.Contents() == NormalAfter(v0, j, k - 1) && st == WalkAfter(j, k - 1)
    requires st.row <= j.h
    modifies mem, mem.bytes
    ensures mem.Contents() == NormalAfter(v0, j, k) && next == WalkAfter(j, k)
  {
    var di := Cell(j.n, st.dstBase, st.col, j.dir);
    var b := NormalByte(j.r, j.pw, j.patternX, st.col, st.rd.xc, mem.bytes[st.rd.src], mem.bytes[di]);
    mem.Plot(di, b);
    var rd := st.rd.NextByte(Expanding(j.r), j.dir, j.n, j.pw * 8);
    next := Advance(j, st, rd);
    AfterSucc(v0, j, k);
    WalkSucc(j, k);
  }

  /**
   * The loop of a normal blit. The code counts the row's bytes and the rows
   * down; the walk counts them up (`col == width - width_left`,
   * `row == height - height_left`). It stops when `count` runs out or after
   * the last row, leaving the memory `NormalAfter` gives and the place
   * `WalkAfter` gives.
   */
  method NormalRows(mem: VideoMemory, j: Job, count: nat) returns (st: Walk)
    requires mem.bytes.Length == j.n
    modifies mem, mem.bytes
    ensures mem.Contents() == NormalAfter(old(mem.Contents()), j, count) && st == WalkAfter(j, count)
  {
    ghost var v0 := mem.Contents();
    st := Start(j);
    var k := 0;
    while k < count && st.row <= j.h
      invariant k <= count && mem.bytes.Length == |v0.bytes|
      invariant mem.Contents() == NormalAfter(v0, j, k) && st == WalkAfter(j, k)
      decreases count - k
    {
      k := k + 1;
      st := NormalStep(mem, j, st, v0, k);
    }
    if k < count {
      AfterEnded(v0, j, k, count);
      WalkEnded(j, k, count);
    }
  }

  /** A normal blit with registers `r` from counters `c`, as `NormalBlit` gives it. */
  method NormalRun(mem: VideoMemory, r: Regs, c: Counters, count: nat) returns (c': Counters)
    requires mem.bytes.Length >= 0x10000 && c.Valid(mem.bytes.Length)
    modifies mem, mem.bytes
    ensures (mem.Contents(), c') == NormalBlit(old(mem.Contents()), r, c, count)
  {
    var j := JobOf(r, c, mem.bytes.Length);
    var st := NormalRows(mem, j, count);
    c' := c.Stopped(j.n, st.dstBase, st.rd.srcBase, if st.row > j.h then 0xffff else j.h - st.row, st.rd.xc, st.rd.yc);
  }
}
