/*
 * Where a CL-GD54xx blit lands in video memory. A blit walks rows of
 * bytes; each row starts one pitch (in the blit direction) after the
 * previous one, and every address is taken modulo the memory size, as the
 * chip masks it with the VRAM mask. These functions name the set of bytes
 * a blit may touch and the 4 KB blocks it marks as changed.
 */
module Gd54xxGeometry {

  /** Granularity of the changed-memory map. */
  const BlockSize: int := 4096

  /** One step of size `d` (|d| < n) on an address kept inside [0, n). */
  function AddMod(a: int, d: int, n: int): (b: int)
    requires 0 <= a < n && -n < d < n
    ensures 0 <= b < n
    ensures b == a + d || b == a + d + n || b == a + d - n
  {
    if a + d < 0 then a + d + n else if a + d >= n then a + d - n else a + d
  }

  /** The start of row `r`: the first row starts at `base0`, each next one `pd` bytes further on, wrapped into [0, n). */
  function RowBase(n: int, base0: int, pd: int, r: nat): (b: int)
    requires 0 <= base0 < n && -n < pd < n
    ensures 0 <= b < n
  {
    if r == 0 then base0 else AddMod(RowBase(n, base0, pd, r - 1), pd, n)
  }

  /**
   * The memory index `c` bytes into a row that starts at `base` and runs in
   * direction `dir`, wrapped into [0, n); a row is never longer than the memory.
   */
  function Cell(n: int, base: int, c: int, dir: int): (k: int)
    requires 0 <= base < n && 0 <= c < n
    ensures 0 <= k < n
  {
    AddMod(base, if dir < 0 then -c else c, n)
  }

  /** The memory indices of the first `cols` bytes of the row starting at `base`. */
  function RowCells(n: int, base: int, dir: int, cols: nat): set<int>
    requires 0 <= base < n && cols <= n
  {
    if cols == 0 then {} else RowCells(n, base, dir, cols - 1) + {Cell(n, base, cols - 1, dir)}
  }

  /**
   * The indices one byte further along the row than `RowCells` names: the
   * first `cols` bytes after `base`.
   */
  function ShiftedCells(n: int, base: int, dir: int, cols: nat): set<int>
    requires 0 <= base < n && cols < n
  {
    if cols == 0 then {} else ShiftedCells(n, base, dir, cols - 1) + {Cell(n, base, cols, dir)}
  }

  /** One byte on from the `c`-th byte of a row is its `c + 1`-th byte. */
  lemma CellNext(n: int, base: int, c: int, dir: int)
    requires 0 <= base < n && 0 <= c && c + 1 < n && (dir == 1 || dir == -1)
    ensures AddMod(Cell(n, base, c, dir), dir, n) == Cell(n, base, c + 1, dir)
  {
  }

  /** The memory indices of the first `rows` rows of `cols` bytes each. */
  function Cells(n: int, base0: int, pd: int, dir: int, cols: nat, rows: nat): set<int>
    requires 0 <= base0 < n && -n < pd < n && cols <= n
  {
    if rows == 0 then {}
    else Cells(n, base0, pd, dir, cols, rows - 1) + RowCells(n, RowBase(n, base0, pd, rows - 1), dir, cols)
  }

  /** The number of bytes in `rows` rows of `cols` bytes, counted row by row. */
  function Area(rows: nat, cols: nat): nat
  {
    if rows == 0 then 0 else Area(rows - 1, cols) + cols
  }

  /** Counting row by row gives the product. */
  lemma {:induction false} AreaIsProduct(rows: nat, cols: nat)
    ensures Area(rows, cols) == rows * cols
  {
    if rows > 0 {
      AreaIsProduct(rows - 1, cols);
    }
  }

  /** Fewer rows hold fewer bytes. */
  lemma {:induction false} AreaGrow(r1: nat, r2: nat, cols: nat)
    requires r1 <= r2
    ensures Area(r1, cols) <= Area(r2, cols)
    decreases r2
  {
    if r1 < r2 {
      AreaGrow(r1, r2 - 1, cols);
    }
  }

  /**
   * A walk stopped after `row` whole rows (of at most `rows`) and `col`
   * bytes of the next was given fewer visits than the whole rectangle.
   */
  lemma StoppedShort(rows: nat, cols: nat, row: nat, col: nat)
    requires row < rows && col < cols
    ensures Area(row, cols) + col < Area(rows, cols)
  {
    AreaGrow(row + 1, rows, cols);
  }

  /** The changed-memory blocks that cover a set of memory indices. */
  function Blocks(s: set<int>): set<int>
  {
    set k | k in s :: k / BlockSize
  }

  /** Every index of a row lies inside the memory. */
  lemma {:induction false} RowCellsInside(n: int, base: int, dir: int, cols: nat)
    requires 0 <= base < n && cols <= n
    ensures forall k :: k in RowCells(n, base, dir, cols) ==> 0 <= k < n
  {
    if cols > 0 {
      RowCellsInside(n, base, dir, cols - 1);
    }
  }

  /** A row holds at most `cols` distinct indices. */
  lemma {:induction false} RowCellsCount(n: int, base: int, dir: int, cols: nat)
    requires 0 <= base < n && cols <= n
    ensures |RowCells(n, base, dir, cols)| <= cols
  {
    if cols > 0 {
      RowCellsCount(n, base, dir, cols - 1);
    }
  }

  /** A longer prefix of a row covers a shorter one. */
  lemma {:induction false} RowCellsGrow(n: int, base: int, dir: int, c1: nat, c2: nat)
    requires 0 <= base < n && c1 <= c2 <= n
    ensures RowCells(n, base, dir, c1) <= RowCells(n, base, dir, c2)
    decreases c2
  {
    if c1 < c2 {
      RowCellsGrow(n, base, dir, c1, c2 - 1);
    }
  }

  /** More rows cover fewer rows. */
  lemma {:induction false} CellsGrow(n: int, base0: int, pd: int, dir: int, cols: nat, r1: nat, r2: nat)
    requires 0 <= base0 < n && -n < pd < n && cols <= n && r1 <= r2
    ensures Cells(n, base0, pd, dir, cols, r1) <= Cells(n, base0, pd, dir, cols, r2)
    decreases r2
  {
    if r1 < r2 {
      CellsGrow(n, base0, pd, dir, cols, r1, r2 - 1);
    }
  }

  /** Every index a blit touches lies inside the memory. */
  lemma {:induction false} CellsInside(n: int, base0: int, pd: int, dir: int, cols: nat, rows: nat)
    requires 0 <= base0 < n && -n < pd < n && cols <= n
    ensures forall k :: k in Cells(n, base0, pd, dir, cols, rows) ==> 0 <= k < n
  {
    if rows > 0 {
      CellsInside(n, base0, pd, dir, cols, rows - 1);
      RowCellsInside(n, RowBase(n, base0, pd, rows - 1), dir, cols);
    }
  }

  /** A blit of `rows` rows of `cols` bytes touches at most rows * cols bytes. */
  lemma {:induction false} CellsCount(n: int, base0: int, pd: int, dir: int, cols: nat, rows: nat)
    requires 0 <= base0 < n && -n < pd < n && cols <= n
    ensures |Cells(n, base0, pd, dir, cols, rows)| <= rows * cols
  {
    if rows > 0 {
      CellsCount(n, base0, pd, dir, cols, rows - 1);
      RowCellsCount(n, RowBase(n, base0, pd, rows - 1), dir, cols);
      assert rows * cols == (rows - 1) * cols + cols;
    }
  }

  /** The bytes a blit has visited after `row` whole rows and `col` bytes of the next. */
  function Done(n: int, base0: int, pd: int, dir: int, cols: nat, row: nat, col: nat): set<int>
    requires 0 <= base0 < n && -n < pd < n && cols <= n && col <= n
  {
    Cells(n, base0, pd, dir, cols, row) + RowCells(n, RowBase(n, base0, pd, row), dir, col)
  }

  /** Visiting the next byte of a row adds exactly that byte. */
  lemma DoneStep(n: int, base0: int, pd: int, dir: int, cols: nat, row: nat, col: nat)
    requires 0 <= base0 < n && -n < pd < n && cols <= n && col < n
    ensures Done(n, base0, pd, dir, cols, row, col + 1)
            == Done(n, base0, pd, dir, cols, row, col) + {Cell(n, RowBase(n, base0, pd, row), col, dir)}
  {
  }

  /** Finishing a row is starting the next one. */
  lemma DoneRow(n: int, base0: int, pd: int, dir: int, cols: nat, row: nat, col: nat)
    requires 0 <= base0 < n && -n < pd < n && cols <= n && col == cols
    ensures Done(n, base0, pd, dir, cols, row, col) == Done(n, base0, pd, dir, cols, row + 1, 0)
  {
  }

  /** After all rows the blit has visited all its bytes. */
  lemma DoneAll(n: int, base0: int, pd: int, dir: int, cols: nat, rows: nat)
    requires 0 <= base0 < n && -n < pd < n && cols <= n
    ensures Done(n, base0, pd, dir, cols, rows, 0) == Cells(n, base0, pd, dir, cols, rows)
  {
  }

  /** The part of the blit done after `row` whole rows and `col` bytes of the next lies inside the whole blit. */
  lemma DoneInsideBlit(n: int, base0: int, pd: int, dir: int, cols: nat, rows: nat, row: nat, col: nat)
    requires 0 <= base0 < n && -n < pd < n && cols <= n && row < rows && col <= cols
    ensures Done(n, base0, pd, dir, cols, row, col) <= Cells(n, base0, pd, dir, cols, rows)
  {
    RowCellsGrow(n, RowBase(n, base0, pd, row), dir, col, cols);
    CellsGrow(n, base0, pd, dir, cols, row + 1, rows);
  }

  /** Marking blocks one index at a time builds the blocks of the whole set. */
  lemma BlocksAdd(s: set<int>, k: int)
    ensures Blocks(s + {k}) == Blocks(s) + {k / BlockSize}
  {
  }

  /** Blocks of a union. */
  lemma BlocksUnion(s: set<int>, t: set<int>)
    ensures Blocks(s + t) == Blocks(s) + Blocks(t)
  {
  }

  /** Blocks of a subset. */
  lemma BlocksGrow(s: set<int>, t: set<int>)
    requires s <= t
    ensures Blocks(s) <= Blocks(t)
  {
  }
}
