/*
 * The host's view of Mach64 video memory: the linear aperture
 * (`mach64_read*_linear`, `mach64_write*_linear`), which cuts the address
 * with `decode_mask`, answers all-ones past `vram_max` and ignores writes
 * there; and the banked 64 KB window at A0000 (`mach64_read*`,
 * `mach64_write*`), whose two 32 KB halves are mapped through `bank_r` and
 * `bank_w`. Accesses are of one byte (size 0), a word (size 1) or a dword
 * (size 2), little-endian.
 */
module Mach64Memory {
  import opened Mach64Lanes
  import opened Mach64Regs
  import P = Mach64Pixels

  /** An access size: 0 for a byte, 1 for a word, 2 for a dword. */
  predicate Size(size: int) { 0 <= size <= 2 }

  /** The number of bytes an access of `size` covers. */
  function Width(size: int): (w: int)
    requires Size(size)
    ensures w == 1 || w == 2 || w == 4
  {
    if size == 0 then 1 else if size == 1 then 2 else 4
  }

  /** What a linear read past `vram_max` returns: all ones of the access width. */
  function Ones(size: int): bv32
    requires Size(size)
  {
    if size == 0 then 0xff else if size == 1 then 0xffff else 0xffffffff
  }

  /** The byte `k < n` places after byte `i`, wrapping at the end of memory of `n` bytes. */
  function Next(i: int, k: int, n: int): int
  {
    if i + k < n then i + k else i + k - n
  }

  /** The little-endian value of `size` at byte `i`. */
  function Load(m: seq<bv8>, i: int, size: int): bv32
    requires P.Shape(|m|) && 0 <= i < |m| && Size(size)
  {
    var n := |m|;
    if size == 0 then m[i] as bv32
    else if size == 1 then Compose16(m[i], m[Next(i, 1, n)])
    else Compose32(m[i], m[Next(i, 1, n)], m[Next(i, 2, n)], m[Next(i, 3, n)])
  }

  /** Memory with the low `Width(size)` bytes of `v` stored little-endian from byte `i`. */
  function Store(m: seq<bv8>, i: int, size: int, v: bv32): (m': seq<bv8>)
    requires P.Shape(|m|) && 0 <= i < |m| && Size(size)
    ensures |m'| == |m|
  {
    var n := |m|;
    if size == 0 then m[i := GetLane(0, v)]
    else if size == 1 then m[i := GetLane(0, v)][Next(i, 1, n) := GetLane(1, v)]
    else m[i := GetLane(0, v)][Next(i, 1, n) := GetLane(1, v)][Next(i, 2, n) := GetLane(2, v)][Next(i, 3, n) := GetLane(3, v)]
  }

  /** Whether byte `j` is one of the `Width(size)` bytes an access at byte `i` covers. */
  predicate Covers(i: int, size: int, j: int, n: int)
    requires Size(size) && n > 0
  {
    exists k | 0 <= k < Width(size) :: Next(i, k, n) == j
  }

  // ------------------------------------------------------------ linear aperture

  /**
   * The byte a linear address reaches: `addr & decode_mask`, nothing at
   * or past `vram_max`, and otherwise that offset cut to memory of `n`
   * bytes (`& vram_mask`: `n` is a power of two).
   */
  function LinearIndex(addr: bv32, decodeMask: bv32, vramMax: int, n: int): (r: Option<int>)
    requires P.Shape(n)
    ensures r.Some? ==> 0 <= r.value < n
  {
    var a := (addr & decodeMask) as int;
    if a >= vramMax then None else Some(a % n)
  }

  /** `mach64_read_linear`, `_readw_linear` and `_readl_linear` on memory `m`. */
  function LinearLoad(m: seq<bv8>, addr: bv32, decodeMask: bv32, vramMax: int, size: int): bv32
    requires P.Shape(|m|) && Size(size)
  {
    match LinearIndex(addr, decodeMask, vramMax, |m|)
    case None => Ones(size)
    case Some(i) => Load(m, i, size)
  }

  /** The memory `mach64_write_linear`, `_writew_linear` or `_writel_linear` leaves. */
  function LinearStore(m: seq<bv8>, addr: bv32, decodeMask: bv32, vramMax: int, size: int, v: bv32): seq<bv8>
    requires P.Shape(|m|) && Size(size)
  {
    match LinearIndex(addr, decodeMask, vramMax, |m|)
    case None => m
    case Some(i) => Store(m, i, size, v)
  }

  /** The 4 KB blocks a linear write marks as changed: that of its first byte, if it lands at all. */
  function LinearMarks(addr: bv32, decodeMask: bv32, vramMax: int, n: int): set<int>
    requires P.Shape(n)
  {
    match LinearIndex(addr, decodeMask, vramMax, n)
    case None => {}
    case Some(i) => {i / 4096}
  }

  // --------------------------------------------------------------- banked window

  /** A bank register's value as `mach64_ext_writeb` sets it: `val * 32768` for a byte `val`. */
  predicate BankValue(b: int)
  {
    0 <= b && b % 32768 == 0 && b / 32768 < 256
  }

  /**
   * `(addr & 0x7fff) + bank[(addr >> 15) & 1]`: the offset within a 32 KB
   * half of the window plus the bank that half is mapped to.
   */
  function BankedAddr(addr: nat, banks: seq<int>): int
    requires |banks| == 2
  {
    addr % 32768 + banks[(addr / 32768) % 2]
  }

  /** `svga_*_linear` at a banked address, taken as a plain access to memory of `n` bytes. */
  function BankedIndex(addr: nat, banks: seq<int>, n: int): (i: int)
    requires |banks| == 2 && n > 0
    ensures 0 <= i < n
  {
    BankedAddr(addr, banks) % n
  }

  // ----------------------------------------------------------------------- lemmas

  /** The bytes an access covers are distinct, since memory holds at least four. */
  lemma NextDistinct(i: int, j: int, k: int, n: int)
    requires n >= 4 && 0 <= i < n && 0 <= j < k < 4
    ensures Next(i, j, n) != Next(i, k, n)
  {
  }

  /** Byte `k` of a stored value is lane `k` of the value. */
  lemma StoreLane(m: seq<bv8>, i: int, size: int, v: bv32, k: int)
    requires P.Shape(|m|) && 0 <= i < |m| && Size(size) && 0 <= k < Width(size)
    ensures Next(i, k, |m|) < |m| && Store(m, i, size, v)[Next(i, k, |m|)] == GetLane(k, v)
  {
    var n := |m|;
    assert Next(i, 0, n) == i;
    if k + 1 < Width(size) { NextDistinct(i, k, k + 1, n); }
    if k + 2 < Width(size) { NextDistinct(i, k, k + 2, n); }
    if k + 3 < Width(size) { NextDistinct(i, k, k + 3, n); }
  }

  /** Reading back a stored value gives it, cut to the access width. */
  lemma LoadAfterStore(m: seq<bv8>, i: int, size: int, v: bv32)
    requires P.Shape(|m|) && 0 <= i < |m| && Size(size)
    ensures Load(Store(m, i, size, v), i, size) == P.Fit(v, size)
  {
    var n := |m|;
    StoreLane(m, i, size, v, 0);
    assert Next(i, 0, n) == i;
    if size == 1 {
      StoreLane(m, i, size, v, 1);
      P.LowHalf(v);
    } else if size == 2 {
      StoreLane(m, i, size, v, 1);
      StoreLane(m, i, size, v, 2);
      StoreLane(m, i, size, v, 3);
      ComposeLanes(v);
    }
  }

  /** A store changes no byte outside the ones it covers. */
  lemma StoreFrame(m: seq<bv8>, i: int, size: int, v: bv32, j: int)
    requires P.Shape(|m|) && 0 <= i < |m| && Size(size) && 0 <= j < |m|
    requires !Covers(i, size, j, |m|)
    ensures Store(m, i, size, v)[j] == m[j]
  {
    var n := |m|;
    assert Next(i, 0, n) != j;
    if size >= 1 { assert Next(i, 1, n) != j; }
    if size == 2 { assert Next(i, 2, n) != j && Next(i, 3, n) != j; }
  }

  /** A linear read past `vram_max` gives all ones, whatever memory holds. */
  lemma LinearPastEnd(m: seq<bv8>, addr: bv32, decodeMask: bv32, vramMax: int, size: int)
    requires P.Shape(|m|) && Size(size) && (addr & decodeMask) as int >= vramMax
    ensures LinearLoad(m, addr, decodeMask, vramMax, size) == Ones(size)
    ensures LinearLoad(m, addr, decodeMask, vramMax, size) & 0xff == 0xff
  {
  }

  /** A linear write past `vram_max` changes nothing and marks nothing. */
  lemma LinearWriteDropped(m: seq<bv8>, addr: bv32, decodeMask: bv32, vramMax: int, size: int, v: bv32)
    requires P.Shape(|m|) && Size(size) && (addr & decodeMask) as int >= vramMax
    ensures LinearStore(m, addr, decodeMask, vramMax, size, v) == m
    ensures LinearMarks(addr, decodeMask, vramMax, |m|) == {}
  {
  }

  /** Below `vram_max`, a linear read after a linear write to the same address gives the value written. */
  lemma LinearReadAfterWrite(m: seq<bv8>, addr: bv32, decodeMask: bv32, vramMax: int, size: int, v: bv32)
    requires P.Shape(|m|) && Size(size) && (addr & decodeMask) as int < vramMax
    ensures LinearLoad(LinearStore(m, addr, decodeMask, vramMax, size, v), addr, decodeMask, vramMax, size)
            == P.Fit(v, size)
  {
    LoadAfterStore(m, LinearIndex(addr, decodeMask, vramMax, |m|).value, size, v);
  }

  /**
   * The access sizes agree: below `vram_max`, byte `k` of a dword written
   * at an address is the byte `k` places further on in memory, lane `k`
   * of the dword.
   */
  lemma LinearDwordBytes(m: seq<bv8>, addr: bv32, decodeMask: bv32, vramMax: int, v: bv32, k: int)
    requires P.Shape(|m|) && (addr & decodeMask) as int < vramMax && 0 <= k < 4
    ensures var i := LinearIndex(addr, decodeMask, vramMax, |m|).value;
            Load(LinearStore(m, addr, decodeMask, vramMax, 2, v), Next(i, k, |m|), 0) == GetLane(k, v) as bv32
  {
    StoreLane(m, LinearIndex(addr, decodeMask, vramMax, |m|).value, 2, v, k);
  }

  /**
   * A window address within a half is its offset into the bank that half
   * is mapped to: offsets 0-0x7fff of the half at `0x8000 * h` land at
   * `bank[h] + offset`, and the two halves wrap every 64 KB.
   */
  lemma BankedHalves(addr: nat, banks: seq<int>)
    requires |banks| == 2
    ensures BankedAddr(addr + 65536, banks) == BankedAddr(addr, banks)
    ensures addr < 65536 ==> BankedAddr(addr, banks) == banks[addr / 32768] + addr - 32768 * (addr / 32768)
  {
    var q := addr / 32768;
    assert addr + 65536 == (q + 2) * 32768 + addr % 32768;
    assert (addr + 65536) / 32768 == q + 2 && (addr + 65536) % 32768 == addr % 32768;
    assert (q + 2) % 2 == q % 2;
  }

  /**
   * With both halves mapped to the same bank, the window is one 64 KB
   * stretch when that bank is even; a byte value `val` selects the 32 KB
   * page `val` of memory.
   */
  lemma BankPage(val: int, off: nat)
    requires 0 <= val < 256 && off < 32768
    ensures BankValue(val * 32768)
    ensures BankedAddr(off, [val * 32768, val * 32768]) == val * 32768 + off
    ensures (val * 32768) / 32768 == val
  {
  }

  /**
   * With the read and write banks of a half the same, a banked read after
   * a banked write to the same window address gives the value written.
   */
  lemma BankedReadAfterWrite(m: seq<bv8>, addr: nat, readBanks: seq<int>, writeBanks: seq<int>, size: int, v: bv32)
    requires P.Shape(|m|) && Size(size) && |readBanks| == 2 && |writeBanks| == 2
    requires readBanks[(addr / 32768) % 2] == writeBanks[(addr / 32768) % 2]
    ensures var w := Store(m, BankedIndex(addr, writeBanks, |m|), size, v);
            Load(w, BankedIndex(addr, readBanks, |m|), size) == P.Fit(v, size)
  {
    LoadAfterStore(m, BankedIndex(addr, writeBanks, |m|), size, v);
  }
}
