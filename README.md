# 86Box video blitters and configuration ports in Dafny

This project models four pieces of the 86Box PC emulator and proves properties of them:

- **The Cirrus Logic CL-GD54xx 2D blitter and its memory router** (`src/video/vid_cl54xx.c`):
  - the MMIO blitter registers, with START, RESET and auto-start;
  - `gd54xx_start_blit`, with its direction, pixel width and left skip;
  - the four transfer engines: the video-to-video blit, the pattern copy, system-to-screen through the 32-bit data latch, and screen-to-system through the 32-byte buffer;
  - the pixel combiner (raster operations, colour expansion, transparency, the write decision);
  - write modes 4 and 5;
  - the banked, linear, second-aperture and MMIO accessors, with the per-quadrant byte-lane swaps.
- **The ATI Mach64 drawing engine** (`src/video/vid_ati_mach64.c`), with register writes applied in program order:
  - the accelerator register write path (`WRITE8`/`READ8`, `mach64_accel_write_fifo*`);
  - `mach64_start_fill` and `mach64_start_line`;
  - the `MIX` table, colour compare and write mask;
  - the rectangle, line and 24-bit line walkers of `mach64_blit`;
  - the pixel `READ`/`WRITE` helpers down to single bits;
  - `mach64_load_context`;
  - the banked and linear memory accessors.
- **The Winbond W83787F Super I/O configuration port** (`src/sio_w83787f.c`): the key, index and data state machine with its sticky read/write lock, and the UART, printer-port and floppy decode tables.
- **The VGA CRTC register file** (`src/video/vid_vga.c`): the mono/colour port alias, index masking, the reserved indices, the CR11 write protection, the start-address latch and the enable flag.

Pure logic is written as functions. State that the C code updates in place is written as classes, with methods over a `bv8` video-memory array:
- `Gd54xxMemory.VideoMemory` and `Gd54xx.Device`;
- `Mach64.Engine`;
- `W83787F.SuperIo`;
- `Vga.VgaCrtc`.

Each method is proved against a specification function of the state before the call. `changedvram` is modelled as the set of 4 KB blocks marked.

Where the code and the natural reading of the device disagree, the model follows the code:
- **CL-GD54xx START while busy.** A rising START bit starts the engine even when BUSY is already set (src/video/vid_cl54xx.c:3118-3122). Only auto-start checks BUSY (3061-3063). A start while busy is therefore not a no-op.
- **CL-GD54xx normal-blit transparency.** The non-expanding transparency test of the normal blit compares the source with the transparency *mask*, not the transparency colour (src/video/vid_cl54xx.c:3786-3790).
- **CL-GD54xx quadrant-2 word write.** It falls through into the quadrant-1 stores (src/video/vid_cl54xx.c:2772-2774).
- **CL-GD54xx pattern-copy left skip.** At 24 bits per pixel the skip compares `x + xx`; at other widths it compares `x` (src/video/vid_cl54xx.c:3628-3631).

Two places where the code evidently does not do what its authors meant are listed under Findings. Each is modelled as written and as corrected.

## Model

| member | source | states |
|---|---|---|
| Gd54xxOps.HasTransp | src/video/vid_cl54xx.c:650-659 | only the 5426, 5428, 5446 and 5480 compare against a transparency colour; the 5426 and 5428 always do, the 5446 and 5480 do when the transparency mask is not in use, and only the 5426 and 5428 also apply the mask |
| Gd54xxOps.Rop | src/video/vid_cl54xx.c:2139-2194 | a code outside the sixteen implemented ones leaves the destination byte as it was |
| Gd54xxOps.RopIsMinterms | src/video/vid_cl54xx.c:2139-2194 | each of the sixteen raster operations acts bit by bit, as the truth table its code names |
| Gd54xxOps.RopTableComplete | src/video/vid_cl54xx.c:2139-2194 | the sixteen codes cover all sixteen two-input boolean functions, each once |
| Gd54xxOps.PixelWidth | src/video/vid_cl54xx.c:3485-3508 | bytes per pixel are 1-4, one per value of bits 4-5 of the blit mode |
| Gd54xxOps.PixelWidthInjective | src/video/vid_cl54xx.c:3485-3508 | two modes give the same pixel width exactly when their pixel-width fields agree |
| Gd54xxOps.Direction | src/video/vid_cl54xx.c:3900-3905 | the step is -1 exactly when BACKWARDS is set and none of pattern copy, colour expand or transparency is, else +1 |
| Gd54xxOps.PatternX | src/video/vid_cl54xx.c:3909-3916 | the left skip is 0-31 bytes, and 0 without pattern copy or colour expand |
| Gd54xxOps.PatternXSkip | src/video/vid_cl54xx.c:3909-3916 | with pattern or expand the skip is `mask & 0x1f` bytes at 24 bpp and `(mask & 7) * pixel_width` otherwise |
| Gd54xxOps.ColorExpand | src/video/vid_cl54xx.c:3472-3482 | a set mask bit (or transparency mode) picks byte `shift` of the foreground colour, a clear one that of the background colour |
| Gd54xxOps.TransparentComp | src/video/vid_cl54xx.c:3553-3566 | the result is true unless the chip compares at 8/16 bpp; then it is the comparison of the source byte with the transparency colour, under the transparency mask where the chip has one |
| Gd54xxOps.BlitWrites | src/video/vid_cl54xx.c:3526-3549 | with MEMSYSDEST the byte is always written; in transparent mode iff mask (inverted under expand-invert) and not skip; in background-only expand iff mask or not skip; otherwise iff not skip |
| Gd54xxOps.UnskippedOpaqueAlwaysWritten | src/video/vid_cl54xx.c:3526-3549 | outside transparent mode a byte that is not skipped is always written |
| Gd54xxOps.BlitByte | src/video/vid_cl54xx.c:3511-3550 | the stored byte is the raster-operation result when the write decision says so and the old destination otherwise |
| Gd54xxOps.Aperture | src/video/vid_cl54xx.c:2197-2201 | the quadrant is bits 22-23 of the address under mask 3 and always 0 under mask 0 |
| Gd54xxOps.PosAdj | src/video/vid_cl54xx.c:2204-2221 | the lane stays within its dword, and is unchanged unless byte-granular colour expand runs in quadrant 1 or 2 |
| Gd54xxOps.PosAdjInvolution | src/video/vid_cl54xx.c:2204-2221 | adjusting twice gives the position back, so the adjustment permutes each dword |
| Gd54xxOps.RecalcBanking | src/video/vid_cl54xx.c:1673-1700 | without dual banking the second bank is the first plus 0x8000; banks are 4 KB-aligned and below 4 MB; before the 5422 the bank is GR09 bits 0-6 times 4 KB |
| Gd54xxOps.BankedAddress | src/video/vid_cl54xx.c:2284-2285 | a banked address is its offset within the 32 KB half plus the bank offset that half selects |
| Gd54xxOps.LinearSize | src/video/vid_cl54xx.c:1703-1820 | the linear window is 1, 2, 4 or 16 MB |
| Gd54xxOps.RecalcMapping | src/video/vid_cl54xx.c:1703-1820 | the aperture mask is 0 or 3; the banked mask stays 0x7fff or 0xffff; a B8000 overlap forces the 32 KB banked mask |
| Gd54xxOps.ApertureMaskIff | src/video/vid_cl54xx.c:1703-1820 | the aperture mask is 3 exactly when the linear window is mapped on a 5436 or later on PCI or VLB |
| Gd54xxOps.RecalcIdempotent | src/video/vid_cl54xx.c:1703-1820 | recalculating the mapping a second time changes nothing |
| Gd54xxOps.OverlapIff | src/video/vid_cl54xx.c:1703-1820 | MMIO overlaps video memory exactly when the banked window sits at B8000 |
| Gd54xxOps.GrToMmio | src/video/vid_cl54xx.c:1032-1129 | a forwarded graphics-controller index names an MMIO register in 0-0x40 |
| Gd54xxOps.GrForwardingInjective | src/video/vid_cl54xx.c:1032-1129 | the forwarding table is one-to-one: its inverse gives the index back |
| Gd54xxRegs.WriteRegBounded | src/video/vid_cl54xx.c:2963-3131 | every MMIO byte write keeps width and pitches within 13 bits and height within 11 bits |
| Gd54xxRegs.ReadAfterWrite | src/video/vid_cl54xx.c:2963-3131 | reading back an MMIO offset just written gives the written bits that chip revision keeps, and 0xff where it has no register (read side at 3197-3336) |
| Gd54xxRegs.WriteOwnerOnly | src/video/vid_cl54xx.c:2963-3131 | a byte write changes no register other than the one its offset belongs to |
| Gd54xxRegs.WriteFrame | src/video/vid_cl54xx.c:3197-3336 | after a byte write, every offset of another register reads as before |
| Gd54xxRegs.ActionOffsets | src/video/vid_cl54xx.c:3061-3066 | only the top destination-address byte and the status register set anything in motion (status at 3114-3124) |
| Gd54xxRegs.StatusRewriteIdle | src/video/vid_cl54xx.c:3114-3124 | writing back the status already held neither resets nor starts the engine |
| Gd54xxRegs.ResetWins | src/video/vid_cl54xx.c:3114-3124 | a status write resets the engine exactly on a rising RESET bit, whatever it does to START |
| Gd54xxRegs.StartOnRisingEdge | src/video/vid_cl54xx.c:3114-3124 | a status write starts the engine exactly on a rising START bit that is not also a rising RESET |
| Gd54xxRegs.AutoStartIff | src/video/vid_cl54xx.c:3061-3066 | a write of the top destination byte starts the engine exactly on a 5436 or later with auto-start set and the engine idle |
| Gd54xxLanes.Swizzle | src/video/vid_cl54xx.c:2459-2473 | a byte access stays in its dword; quadrant 1 swaps the bytes of each word, quadrant 2 reverses the dword, quadrant 0 leaves the address alone |
| Gd54xxLanes.WriteLReadL | src/video/vid_cl54xx.c:2805-2886 | in quadrants 0-2 a dword read after a dword write at the same aligned address returns the value written (read side at 2533-2594) |
| Gd54xxLanes.WriteLReadB | src/video/vid_cl54xx.c:2805-2886 | byte `i` of a dword written at an aligned address reads back at address `a + i` in quadrants 0-2 (read side at 2434-2476) |
| Gd54xxLanes.WriteLReadW | src/video/vid_cl54xx.c:2805-2886 | the low and high words of a written dword read back at `a` and `a + 2` in quadrants 0-2 (read side at 2479-2530) |
| Gd54xxLanes.WriteBytesReadL | src/video/vid_cl54xx.c:2681-2730 | four byte writes at `a .. a+3` read back as the dword of those bytes in quadrants 0-2 (read side at 2533-2594) |
| Gd54xxLanes.WriteWordsReadL | src/video/vid_cl54xx.c:2733-2802 | two word writes at `a` and `a + 2` read back as one dword in quadrants 0-2, the quadrant-2 word falling through into the quadrant-1 case |
| Gd54xxLanes.WriteLFrame | src/video/vid_cl54xx.c:2805-2886 | a dword write changes no byte outside its aligned dword |
| Gd54xxLanes.Quadrant3Invalid | src/video/vid_cl54xx.c:2471-2472 | quadrant-3 reads return 0xff, 0xffff or 0xffffffff and quadrant-3 writes change nothing (also 2527-2528, 2591-2592, 2725-2726) |
| Gd54xxMemory.VideoMemory.Plot | src/video/vid_cl54xx.c:3777-3794 | a blit's store changes exactly one byte and marks its 4 KB block in `changedvram` |
| Gd54xxMemory.VideoMemory.PlotAll | src/video/vid_cl54xx.c:3620-3634 | storing a run of bytes leaves memory as the stores applied in order and marks the blocks of every index stored |
| Gd54xxMemory.Updated | src/video/vid_cl54xx.c:3620-3634 | stores applied in order keep the memory's size |
| Gd54xxMemory.Wrapped | src/video/vid_cl54xx.c:3777 | an address masked with `vram_mask` always indexes inside video memory |
| Gd54xxMemory.ClearedStatus | src/video/vid_cl54xx.c:3642-3646 | `reset_blit` clears START, BUSY and FIFO-used and keeps every other status bit |
| Gd54xxMemory.Pitch | src/video/vid_cl54xx.c:3812-3813 | a 16-bit pitch times the direction stays strictly inside ±0x10000 |
| Gd54xxMemory.ShapeOf | src/video/vid_cl54xx.c:3743-3760 | the registers always describe a well-formed rectangle of rows and columns inside memory |
| Gd54xxMemory.Counters.Stopped | src/video/vid_cl54xx.c:3756-3760 | the counters a blit leaves are the row starts, row count and pixel counters it was given, within their bounds |
| Gd54xxMemory.Counters.Moved | src/video/vid_cl54xx.c:3810-3822 | a streaming step changes only the row starts and the pixel and row counters, and keeps them within their bounds |
| Gd54xxMemory.Counters.Filled | src/video/vid_cl54xx.c:3838-3895 | a buffer fill moves the source on and leaves the buffer read position at 0 with `cnt` bytes to read |
| Gd54xxGeometry.AddMod | src/video/vid_cl54xx.c:3797 | one step by `dir` on a masked address stays inside memory and is the plain sum, wrapped at most once |
| Gd54xxGeometry.RowBase | src/video/vid_cl54xx.c:3811-3820 | every row start, the previous one plus the pitch, masked, lies inside memory |
| Gd54xxGeometry.Cell | src/video/vid_cl54xx.c:3777 | every byte of a row is a memory index |
| Gd54xxGeometry.CellNext | src/video/vid_cl54xx.c:3797 | stepping the destination address by `dir` moves to the next byte of the row |
| Gd54xxGeometry.AreaIsProduct | src/video/vid_cl54xx.c:3743-3834 | a rectangle of `rows` rows of `cols` bytes is `rows * cols` visits |
| Gd54xxGeometry.AreaGrow | src/video/vid_cl54xx.c:3743-3834 | fewer rows mean fewer visits |
| Gd54xxGeometry.StoppedShort | src/video/vid_cl54xx.c:3762-3834 | a walk cut off by the byte count before the last row had fewer visits than the whole rectangle |
| Gd54xxGeometry.CellsInside | src/video/vid_cl54xx.c:3777-3794 | every byte a blit touches lies inside memory |
| Gd54xxGeometry.CellsCount | src/video/vid_cl54xx.c:3743-3834 | a blit touches at most `rows * cols` distinct bytes |
| Gd54xxGeometry.CellsGrow | src/video/vid_cl54xx.c:3743-3834 | a rectangle with more rows covers one with fewer |
| Gd54xxGeometry.RowCellsInside | src/video/vid_cl54xx.c:3777 | every byte of one row lies inside memory |
| Gd54xxGeometry.RowCellsCount | src/video/vid_cl54xx.c:3777-3797 | one row covers at most `cols` distinct bytes |
| Gd54xxGeometry.RowCellsGrow | src/video/vid_cl54xx.c:3777-3797 | a longer part of a row covers a shorter one |
| Gd54xxGeometry.DoneStep | src/video/vid_cl54xx.c:3797-3798 | visiting the next byte of a row adds exactly that byte to what is done |
| Gd54xxGeometry.DoneRow | src/video/vid_cl54xx.c:3807-3811 | finishing a row is starting the next one |
| Gd54xxGeometry.DoneAll | src/video/vid_cl54xx.c:3829-3831 | once all rows are done the blit has visited all its bytes |
| Gd54xxGeometry.DoneInsideBlit | src/video/vid_cl54xx.c:3762-3834 | what is done partway lies inside the whole rectangle |
| Gd54xx.Device.constructor | src/video/vid_cl54xx.c:4409 | a new device has the requested memory size and an idle engine |
| Gd54xxDevice.Quadrant | src/video/vid_cl54xx.c:2197-2201 | the aperture quadrant of an address is one of four |
| Gd54xxDevice.BankedIndex | src/video/vid_cl54xx.c:2271-2287 | a banked-window access (offset within its 32 KB half plus that half's bank) always reaches an index inside video memory |
| Gd54xxDevice.LinearIndex | src/video/vid_cl54xx.c:2439-2440 | a linear address under the 4 MB mask, reduced to the memory size, indexes inside video memory |
| Gd54xxDevice.Bytes32 | src/video/vid_cl54xx.c:2331-2334 | a dword is handed on as four bytes |
| Gd54xxDevice.SwizzleInside | src/video/vid_cl54xx.c:2459-2473 | a quadrant-swizzled address stays inside a memory of whole dwords |
| Gd54xxDevice.WordCells | src/video/vid_cl54xx.c:2765-2798 | a linear word write stores to two memory indices, in the order the quadrant's code stores them |
| Gd54xxDevice.DwordCells | src/video/vid_cl54xx.c:2838-2882 | a linear dword write stores to four memory indices, lane 0 first |
| Gd54xxDevice.WordCellsStore | src/video/vid_cl54xx.c:2765-2798 | a linear word write is exactly the run of byte stores at its two cells |
| Gd54xxDevice.DwordCellsStore | src/video/vid_cl54xx.c:2838-2882 | a linear dword write is exactly the run of byte stores at its four cells |
| Gd54xxDevice.SysSrcWriteOn | src/video/vid_cl54xx.c:2252-2268 | until the latch holds its fourth byte only the latch changes, as `Latched` says; the mapping never changes and the state stays in its ranges |
| Gd54xxDevice.DwordFed | src/video/vid_cl54xx.c:2259-2267 | handing a full dword to the engine keeps the mapping and the state's ranges |
| Gd54xxDevice.SysDestReadOn | src/video/vid_cl54xx.c:2224-2249 | the CPU gets `DestByte` (0xff from an empty buffer, else the byte at the adjusted read position); with more than one byte left only the read position moves; an empty buffer changes nothing |
| Gd54xxDevice.ReadOn | src/video/vid_cl54xx.c:2889-2903 | a banked read changes nothing unless a screen-to-system transfer has data, and never the mapping |
| Gd54xxDevice.ReadWOn | src/video/vid_cl54xx.c:2906-2925 | a banked word read changes nothing unless a transfer has data, and never the mapping |
| Gd54xxDevice.ReadLOn | src/video/vid_cl54xx.c:2928-2951 | a banked dword read changes nothing unless a transfer has data, and never the mapping |
| Gd54xxDevice.RegWriteOn | src/video/vid_cl54xx.c:2963-3131 | the mapping is recalculated exactly after a write to the mode or status offset; only a write that starts the engine touches video memory or the buffer |
| Gd54xxDevice.Acted | src/video/vid_cl54xx.c:3114-3131 | after the byte is stored, only a start touches video memory or the buffer, and the mapping is kept |
| Gd54xxDevice.MmioWriteOn | src/video/vid_cl54xx.c:2963-3131 | outside the MMIO window the mapping is kept, and without the overlap with video memory nothing changes |
| Gd54xxDevice.MmioWriteWOn | src/video/vid_cl54xx.c:3149-3167 | outside the window and without the overlap a word write changes nothing |
| Gd54xxDevice.MmioWriteLOn | src/video/vid_cl54xx.c:3170-3194 | outside the window and without the overlap a dword write changes nothing |
| Gd54xxDevice.MmioReadOn | src/video/vid_cl54xx.c:3197-3336 | an MMIO read never changes the mapping; a register read, or any read while no transfer has data, changes nothing |
| Gd54xxDevice.ReadBLinearOn | src/video/vid_cl54xx.c:2434-2476 | a linear byte read changes nothing unless a screen-to-system transfer has data, and never the mapping |
| Gd54xxDevice.ReadWLinearOn | src/video/vid_cl54xx.c:2479-2530 | a linear word read changes nothing unless a transfer has data |
| Gd54xxDevice.ReadLLinearOn | src/video/vid_cl54xx.c:2533-2594 | a linear dword read changes nothing unless a transfer has data |
| Gd54xxDevice.WriteBLinearOn | src/video/vid_cl54xx.c:2681-2730 | a linear byte write keeps the mapping unless it is a register write in the MMIO window in SVGA modes |
| Gd54xxDevice.WriteWLinearOn | src/video/vid_cl54xx.c:2733-2802 | a linear word write keeps the mapping unless it reaches the MMIO window or a waiting transfer |
| Gd54xxDevice.WriteLLinearOn | src/video/vid_cl54xx.c:2805-2886 | a linear dword write keeps the mapping unless it reaches the MMIO window or a waiting transfer |
| Gd54xxDevice.Aperture2ReadBOn | src/video/vid_cl54xx.c:2597-2607 | without a screen-to-system transfer routed through the second aperture a read gives 0xff and changes nothing |
| Gd54xxDevice.Aperture2ReadWOn | src/video/vid_cl54xx.c:2610-2623 | without such a transfer a word read gives 0xffff and changes nothing |
| Gd54xxDevice.Aperture2ReadLOn | src/video/vid_cl54xx.c:2626-2641 | without such a transfer a dword read gives all ones and changes nothing |
| Gd54xxDevice.Aperture2WriteBOn | src/video/vid_cl54xx.c:2644-2652 | without a waiting transfer routed through the second aperture a write changes nothing |
| Gd54xxDevice.Aperture2WriteWOn | src/video/vid_cl54xx.c:2655-2664 | without such a transfer a word write changes nothing |
| Gd54xxDevice.Aperture2WriteLOn | src/video/vid_cl54xx.c:2667-2678 | without such a transfer a dword write changes nothing |
| Gd54xx.Device.ResetBlit | src/video/vid_cl54xx.c:3642-3646 | `reset_blit` leaves the engine stopped and the memory mapping as it was |
| Gd54xx.Device.StartBlit | src/video/vid_cl54xx.c:3898-3927 | video memory, the buffer and the engine become exactly what `StartOn` gives for the old state; the mapping is kept |
| Gd54xx.Device.MemSysSrcWrite | src/video/vid_cl54xx.c:2252-2268 | the device becomes exactly `SysSrcWriteOn` of the old one: the byte is latched and a full latch is handed to the engine (what four bytes hand on: `FourFed`) |
| Gd54xx.Device.MemSysDestRead | src/video/vid_cl54xx.c:2224-2249 | the byte returned and the new device are exactly `SysDestReadOn` of the old one |
| Gd54xx.Device.Write | src/video/vid_cl54xx.c:2271-2287 | the device becomes exactly `WriteOn`: a waiting system-to-screen transfer takes the byte as `SysSrcWriteOn` says, else the byte is stored at its banked index and that block marked |
| Gd54xx.Device.WriteW | src/video/vid_cl54xx.c:2290-2317 | the device becomes exactly `WriteWOn`: while a transfer waits, two byte writes (swapped for dword-granular colour expansion), else the two bytes stored at their banked indices |
| Gd54xx.Device.WriteL | src/video/vid_cl54xx.c:2320-2353 | the device becomes exactly `WriteLOn`: while a transfer waits, four byte writes of `Streamed32(val)`, else the four bytes stored at their banked indices |
| Gd54xx.Device.Read | src/video/vid_cl54xx.c:2889-2903 | the byte and the new device are exactly `ReadOn`: the next buffer byte while a screen-to-system transfer has data, else the banked byte with nothing changed |
| Gd54xx.Device.ReadW | src/video/vid_cl54xx.c:2906-2925 | the word and the new device are exactly `ReadWOn`: two buffer reads, little-endian, during a transfer, else the little-endian word at the banked indices |
| Gd54xx.Device.ReadL | src/video/vid_cl54xx.c:2928-2951 | the dword and the new device are exactly `ReadLOn`: four buffer reads, least significant first, during a transfer, else the little-endian dword at the banked indices |
| Gd54xx.Device.RegisterWrite | src/video/vid_cl54xx.c:2963-3131 | the device becomes exactly `RegWriteOn`: the byte goes into the register file, the mapping is recalculated after a mode or status write, then `WriteAction` decides nothing, a reset, or BUSY and a start call |
| Gd54xx.Device.Launch | src/video/vid_cl54xx.c:3122-3126 | the device becomes exactly `Launched`: BUSY set, then the start call `StartOn` with no CPU data |
| Gd54xx.Device.MmioWrite | src/video/vid_cl54xx.c:2963-3131 | the device becomes exactly `MmioWriteOn`: a register write at `addr % 256` inside the MMIO window; outside it a banked write while the window overlaps video memory, else nothing |
| Gd54xx.Device.MmioWriteB | src/video/vid_cl54xx.c:3134-3146 | the device becomes exactly `MmioWriteBOn`: outside the window a waiting transfer takes the byte, else an MMIO write |
| Gd54xx.Device.MmioWriteW | src/video/vid_cl54xx.c:3149-3167 | the device becomes exactly `MmioWriteWOn`: two MMIO writes inside the window; outside it, with the overlap, two MMIO writes for a waiting transfer and two banked writes otherwise |
| Gd54xx.Device.MmioWriteL | src/video/vid_cl54xx.c:3170-3194 | the device becomes exactly `MmioWriteLOn`: four byte writes, least significant first, each routed by the MMIO-window test at its own address |
| Gd54xx.Device.MmioRead | src/video/vid_cl54xx.c:3197-3336 | the byte and the new device are exactly `MmioReadOn`: the register byte inside the window; outside it a banked read with the overlap, the next buffer byte of a transfer, or 0xff |
| Gd54xx.Device.MmioReadW | src/video/vid_cl54xx.c:3339-3357 | the word and the new device are exactly `MmioReadWOn`: two byte reads, little-endian, each routed at its own address |
| Gd54xx.Device.MmioReadL | src/video/vid_cl54xx.c:3360-3383 | the dword and the new device are exactly `MmioReadLOn`: four byte reads, least significant first, each routed at its own address |
| Gd54xx.Device.ReadBLinear | src/video/vid_cl54xx.c:2434-2476 | the byte and the new device are exactly `ReadBLinearOn`: a plain read outside SVGA modes, the register byte in the MMIO window, the buffer during a transfer (no second aperture), else the quadrant's byte (0xff in quadrant 3) |
| Gd54xx.Device.ReadWLinear | src/video/vid_cl54xx.c:2479-2530 | the word and the new device are exactly `ReadWLinearOn`: the byte cases for a word; a transfer hands out two buffer reads |
| Gd54xx.Device.ReadLLinear | src/video/vid_cl54xx.c:2533-2594 | the dword and the new device are exactly `ReadLLinearOn`: the byte cases for a dword; a transfer hands out four buffer reads |
| Gd54xx.Device.WriteBLinear | src/video/vid_cl54xx.c:2681-2730 | the device becomes exactly `WriteBLinearOn`: a plain store outside SVGA modes, a register write in the MMIO window, the data latch during a transfer, else a store at the quadrant's cell (dropped in quadrant 3) |
| Gd54xx.Device.WriteWLinear | src/video/vid_cl54xx.c:2733-2802 | the device becomes exactly `WriteWLinearOn`: the byte cases for a word; otherwise the stores at the quadrant's `WordCells` |
| Gd54xx.Device.WriteLLinear | src/video/vid_cl54xx.c:2805-2886 | the device becomes exactly `WriteLLinearOn`: the byte cases for a dword; otherwise the stores at the quadrant's `DwordCells` |
| Gd54xx.Device.Aperture2ReadB | src/video/vid_cl54xx.c:2597-2607 | the byte and the new device are exactly `Aperture2ReadBOn`: the next buffer byte of a transfer routed through the second aperture, else 0xff |
| Gd54xx.Device.Aperture2ReadW | src/video/vid_cl54xx.c:2610-2623 | exactly `Aperture2ReadWOn`: two buffer reads during such a transfer, else 0xffff |
| Gd54xx.Device.Aperture2ReadL | src/video/vid_cl54xx.c:2626-2641 | exactly `Aperture2ReadLOn`: four buffer reads during such a transfer, else all ones |
| Gd54xx.Device.Aperture2WriteB | src/video/vid_cl54xx.c:2644-2652 | the device becomes exactly `Aperture2WriteBOn`: a waiting transfer routed through the second aperture takes the byte, else nothing changes |
| Gd54xx.Device.Aperture2WriteW | src/video/vid_cl54xx.c:2655-2664 | exactly `Aperture2WriteWOn`: two byte writes during such a transfer, else nothing |
| Gd54xx.Device.Aperture2WriteL | src/video/vid_cl54xx.c:2667-2678 | exactly `Aperture2WriteLOn`: four byte writes during such a transfer, else nothing |
| Gd54xxDeviceProps.LatchedWaits | src/video/vid_cl54xx.c:2254-2257 | latching a byte keeps a system-to-screen transfer waiting |
| Gd54xxDeviceProps.FourFed | src/video/vid_cl54xx.c:2252-2268 | three CPU bytes into an empty latch only latch; the fourth hands the engine exactly the dword `Placed` assembles (`DwordFed`), whatever quadrants the bytes came through |
| Gd54xxDeviceProps.WriteLFeeds | src/video/vid_cl54xx.c:2320-2334 | `gd54xx_writel` while a transfer waits with an empty latch hands the engine exactly the dword `Streamed32(val)` (byte-reversed for dword-granular colour expansion) |
| Gd54xxDeviceProps.WriteLLinearFeeds | src/video/vid_cl54xx.c:2805-2886 | a linear dword write in SVGA modes outside the MMIO window while a transfer waits with an empty latch (no second aperture) hands the engine `Placed` of its four bytes in the access's quadrant |
| Gd54xxDeviceProps.LinearByteFeeds | src/video/vid_cl54xx.c:2681-2730 | a linear byte write in SVGA modes outside the MMIO window while a transfer waits (no second aperture) is exactly the latch write of the byte in its quadrant |
| Gd54xxDeviceProps.Aperture2WriteLFeeds | src/video/vid_cl54xx.c:2667-2678 | a second-aperture dword write while a transfer routed there waits with an empty latch hands the engine `Placed` of its four bytes |
| Gd54xxDeviceProps.Aperture2ByteFeeds | src/video/vid_cl54xx.c:2644-2652 | a second-aperture byte write to a waiting transfer routed there is exactly the latch write of the byte in its quadrant |
| Gd54xxDeviceProps.DrainedWaits | src/video/vid_cl54xx.c:2231-2232 | taking a byte from a buffer that holds more keeps the transfer waiting and the registers, moves the position on by one and the count down by one |
| Gd54xxDeviceProps.FourTaken | src/video/vid_cl54xx.c:2224-2249 | four reads from a buffer holding at least four bytes give the bytes `Taken` names; while a fifth remains only the read position moved |
| Gd54xxDeviceProps.BankedByteTaken | src/video/vid_cl54xx.c:2889-2903 | a banked read while a transfer has data is exactly the buffer read |
| Gd54xxDeviceProps.ReadLStreams | src/video/vid_cl54xx.c:2928-2951 | `gd54xx_readl` during a transfer holding at least four bytes returns the buffer's next four bytes, least significant first; with more left only the read position moved on by four |
| Gd54xxDeviceProps.MmioByteTaken | src/video/vid_cl54xx.c:3197-3336 | an MMIO read outside the registers and the overlap while a transfer has data is exactly the buffer read |
| Gd54xxDeviceProps.MmioReadLStreams | src/video/vid_cl54xx.c:3360-3383 | an MMIO dword read outside the registers and the overlap during a transfer holding at least four bytes returns the buffer's next four bytes, least significant first |
| Gd54xxDeviceProps.LinearByteTaken | src/video/vid_cl54xx.c:2455-2457 | a linear read in SVGA modes outside the MMIO window while a transfer has data (no second aperture) is exactly the buffer read in its quadrant |
| Gd54xxDeviceProps.ReadLLinearStreams | src/video/vid_cl54xx.c:2533-2594 | a linear dword read in SVGA modes outside the MMIO window during a transfer holding at least four bytes returns the buffer's next four bytes, each adjusted for its quadrant |
| Gd54xxDeviceProps.Aperture2ByteTaken | src/video/vid_cl54xx.c:2597-2607 | a second-aperture read while a transfer routed there has data is exactly the buffer read in its quadrant |
| Gd54xxDeviceProps.Aperture2ReadLStreams | src/video/vid_cl54xx.c:2626-2641 | a second-aperture dword read during such a transfer holding at least four bytes returns the buffer's next four bytes, each adjusted for its quadrant |
| Gd54xxDeviceProps.BankedCellsApart | src/video/vid_cl54xx.c:2340-2352 | the four bytes of a banked dword access go to four distinct memory indices |
| Gd54xxDeviceProps.BankedRoundTrip | src/video/vid_cl54xx.c:2320-2353 | a dword written through the banked window while no transfer waits reads back unchanged through it (read side at 2928-2951) |
| Gd54xxDeviceProps.LinearRoundTrip | src/video/vid_cl54xx.c:2805-2886 | a dword written through the linear window at an aligned address in SVGA modes, outside the MMIO window, in quadrants 0-2 and with no transfer waiting reads back unchanged (read side at 2533-2594) |
| Gd54xxDeviceProps.MmioRegisterRoundTrip | src/video/vid_cl54xx.c:2963-3131 | a register byte written through the MMIO window that starts or resets nothing reads back as `ReadBack` gives: the bits the revision keeps, 0xff where it has no register (read side at 3197-3336) |
| Gd54xx.Device.RegisterWriteL | src/video/vid_cl54xx.c:2816-2821 | the device becomes exactly `RegWriteLOn`: four register writes at `off` .. `off + 3` in the 256-byte window, least significant byte first |
| Gd54xxEngine.StartedBySrc | src/video/vid_cl54xx.c:3917-3918 | `Started` holds when the system source engine runs: status kept but START, BUSY and FIFO-used, direction, pixel width and skip from the mode, the latch touched only by the start call, the destination flag cleared |
| Gd54xxEngine.StartedByDest | src/video/vid_cl54xx.c:3919-3920 | `Started` holds when the system destination engine runs: the destination flag set, and a refused mode (pattern copy or colour expansion) recorded as rejected |
| Gd54xxEngine.StartedByBlit | src/video/vid_cl54xx.c:3922-3926 | when the pattern copy or the normal blit runs, the start ends with the engine stopped |
| Gd54xxRegs.Owner | src/video/vid_cl54xx.c:2963-3131 | each MMIO offset belongs to at most one of the 15 blitter registers |
| Gd54xxModes45.StoredPixel | src/video/vid_cl54xx.c:2367-2410 | storing one pixel of an expansion keeps the memory size |
| Gd54xxMemory.VideoMemory.Poke | src/video/vid_cl54xx.c:3793 | a store changes exactly byte `k` |
| Gd54xxMemory.VideoMemory.Mark | src/video/vid_cl54xx.c:3778 | the 4 KB block of index `k` is added to `changedvram` |
| Gd54xxEngine.Stop | src/video/vid_cl54xx.c:3642-3646 | `reset_blit` clears the transfer flag and START, BUSY and FIFO-used, and changes nothing else |
| Gd54xxEngine.SrcCall | src/video/vid_cl54xx.c:3651-3740 | video memory and the state become exactly what `SrcCallOn` gives |
| Gd54xxEngine.SrcCallOn | src/video/vid_cl54xx.c:3651-3740 | only a chunk call (no conflicting mode bit, not the start call, a transfer running) writes video memory, through `SrcChunk`; the state stays in its ranges |
| Gd54xxEngine.SrcCallKeeps | src/video/vid_cl54xx.c:3651-3740 | a call keeps direction, pixel width and skip, touches the data latch only on the start call, clears the destination flag, keeps `rejected` and keeps every status bit but START, BUSY and FIFO-used |
| Gd54xxEngine.SrcAfterOk | src/video/vid_cl54xx.c:3651-3740 | a system-to-screen call keeps every counter in its range |
| Gd54xxEngine.DestStart | src/video/vid_cl54xx.c:3848-3856 | the start call sets the row starts from the address registers and clears the counters and the bytes left to read |
| Gd54xxEngine.DestCall | src/video/vid_cl54xx.c:3838-3895 | the buffer and the state become exactly what `DestCallOn` gives; video memory is only read |
| Gd54xxEngine.DestCallOn | src/video/vid_cl54xx.c:3838-3895 | a refused mode leaves the buffer alone; otherwise the buffer is filled by `DestFill` from the start counters; the state stays in its ranges |
| Gd54xxEngine.DestCallKeeps | src/video/vid_cl54xx.c:3838-3895 | a call keeps direction, pixel width, skip and the data latch, sets the destination flag, and is `rejected` exactly when it was or the mode is refused |
| Gd54xxEngine.DestAfterOk | src/video/vid_cl54xx.c:3862-3893 | a screen-to-system call keeps every counter in its range and rounds the count of bytes to read up to whole dwords |
| Gd54xxEngine.Prepared | src/video/vid_cl54xx.c:3900-3915 | the start prologue sets only the direction, pixel width and pattern skip |
| Gd54xxEngine.StartCall | src/video/vid_cl54xx.c:3898-3927 | video memory, the buffer and the state become exactly what `StartOn` gives |
| Gd54xxEngine.StartBlitter | src/video/vid_cl54xx.c:3921-3926 | video memory and the state become exactly what `BlitOn` gives |
| Gd54xxEngine.BlitOn | src/video/vid_cl54xx.c:3921-3926 | the pattern copy (`PatternCopy`, writing only inside its rectangle's whole pixels) or the normal blit (`NormalBlit`), then the engine stops with only the counters changed beyond the prologue |
| Gd54xxEngine.StartOn | src/video/vid_cl54xx.c:3898-3927 | the state stays in its ranges and is `Started` from the old one; only a system destination start changes the buffer, and it leaves video memory alone |
| Gd54xxEngine.FedOn | src/video/vid_cl54xx.c:2259-2267 | a partial latch changes nothing; a full one goes to the engine (four 8-bit start calls for byte-granular colour expansion, else one of 32 bits), which keeps the latch with its counter at 0 and every status bit but START, BUSY and FIFO-used |
| Gd54xxEngine.LaneStarts | src/video/vid_cl54xx.c:2261-2263 | the byte-granular start calls keep the latch, its lane counter and every status bit but START, BUSY and FIFO-used |
| Gd54xxEngine.DestReadOn | src/video/vid_cl54xx.c:2224-2249 | the byte is `DestByte`; only taking the last byte while the transfer has rows left (the refill start call) touches video memory or the buffer |
| Gd54xxEngine.StatusKeptTwice | src/video/vid_cl54xx.c:3642-3646 | clearing START, BUSY and FIFO-used twice is clearing them once |
| Gd54xxEngine.LatchLane | src/video/vid_cl54xx.c:2204-2221 | the latch lane a CPU byte lands in is one of four |
| Gd54xxEngine.Latched | src/video/vid_cl54xx.c:2254-2258 | a CPU byte replaces one lane of the data latch and moves the lane counter on modulo 4, and nothing else changes |
| Gd54xxEngine.LatchedOk | src/video/vid_cl54xx.c:2254-2257 | latching keeps the state in its ranges, and the lane counter reaches 0 exactly with the fourth byte |
| Gd54xxEngine.AdjustedLanes | src/video/vid_cl54xx.c:2204-2221 | lane `i` is adjusted to lane `j` exactly when `j` is adjusted to `i` |
| Gd54xxEngine.LatchedLane | src/video/vid_cl54xx.c:2254-2256 | the latch lane the lane counter adjusts to gets the byte; the other lanes keep theirs |
| Gd54xxEngine.FourLatchedLane | src/video/vid_cl54xx.c:2252-2257 | after four bytes from an empty latch, lane `j` holds the byte whose adjusted lane is `j` |
| Gd54xxEngine.LatchedLanes | src/video/vid_cl54xx.c:2254-2257 | after a CPU byte the latch holds it in the adjusted lane and keeps its other three bytes |
| Gd54xxEngine.FourLatched | src/video/vid_cl54xx.c:2252-2268 | four CPU bytes from an empty latch fill it as `Placed` says (lane `j` holds the byte whose adjusted lane is `j`) and bring the lane counter back to 0, so the dword goes to the engine |
| Gd54xxEngine.Drained | src/video/vid_cl54xx.c:2231-2232 | reading a buffer byte moves the position on and the count down, keeping their sum |
| Gd54xxEngine.DestByteOnce | src/video/vid_cl54xx.c:2204-2230 | read position by position, the buffer hands out every byte once: the lane swap maps a dword's positions onto themselves and two positions that adjust alike are equal |
| Gd54xxModes45.AndBit | src/video/vid_cl54xx.c:2368 | pixel `i` passes `val & seqregs[2]` exactly when it is set in both |
| Gd54xxModes45.Base | src/video/vid_cl54xx.c:2364-2375 | the expansion starts inside memory: the address masked, doubled first unless addressing by 16 |
| Gd54xxModes45.Offset | src/video/vid_cl54xx.c:2364-2375 | every memory index has an offset from the base, going round the end of memory |
| Gd54xxModes45.OffsetOfWrap | src/video/vid_cl54xx.c:2364-2375 | offset and wrapped index are inverse one way |
| Gd54xxModes45.WrapOfOffset | src/video/vid_cl54xx.c:2364-2375 | and the other way |
| Gd54xxModes45.Expanded | src/video/vid_cl54xx.c:2362-2410 | an expansion keeps the memory size |
| Gd54xxModes45.StoredPixelCases | src/video/vid_cl54xx.c:2362-2410 | pixel `i` stores nothing, or its byte (two bytes when addressing by 16) in foreground or background |
| Gd54xxModes45.ExpandedStep | src/video/vid_cl54xx.c:2367-2372 | storing one more pixel extends the expansion by that pixel |
| Gd54xxModes45.Mode5Fills | src/video/vid_cl54xx.c:2384-2406 | with every plane enabled, mode 5 writes each byte of the span in foreground or background by the pixel's bit |
| Gd54xxModes45.Mode4Transparent | src/video/vid_cl54xx.c:2363-2381 | mode 4 stores the foreground exactly where the pixel's bit and its plane are set, and keeps memory elsewhere |
| Gd54xxModes45.Mode4AgreesWithMode5 | src/video/vid_cl54xx.c:2362-2410 | where mode 4 stores a byte, mode 5 stores the same byte |
| Gd54xxModes45.ExpandedFrame | src/video/vid_cl54xx.c:2362-2410 | bytes outside the expansion's span keep their value |
| Gd54xxModes45.WriteModes45 | src/video/vid_cl54xx.c:2357-2414 | a mode 4 or 5 write leaves memory as the expansion of `val` at its base and marks the base's block; other write modes store nothing but mark the address's block |
| Gd54xxModes45.DrawPixel | src/video/vid_cl54xx.c:2367-2372 | one pass of the loop stores the bytes of pixel `i` |
| Gd54xxNormal.NextByte | src/video/vid_cl54xx.c:3766-3804 | after one byte a copy reads on by `dir`, and colour expansion moves to the next mask byte after eight pixels |
| Gd54xxNormal.NextRow | src/video/vid_cl54xx.c:3807-3822 | after a row the source moves on by the source pitch (or to the next mask byte) and `y_count` steps by `dir` modulo 8 |
| Gd54xxNormal.Advance | src/video/vid_cl54xx.c:3797-3831 | each step moves to the next column, or to the next row `dpd` bytes on, and counts one more visit |
| Gd54xxNormal.AdvanceDone | src/video/vid_cl54xx.c:3797-3831 | after a step the row start is still the one `RowBase` names, and the bytes done are those before plus the one visited |
| Gd54xxNormal.NormalStep | src/video/vid_cl54xx.c:3763-3798 | one pass of the loop: memory is exactly `NormalAfter` after visit `k` and the place `WalkAfter` after it |
| Gd54xxNormal.NormalRows | src/video/vid_cl54xx.c:3762-3831 | the loop leaves memory exactly `NormalAfter(count)` and the place `WalkAfter(count)` |
| Gd54xxNormal.NormalRun | src/video/vid_cl54xx.c:3743-3835 | memory and counters become exactly what `NormalBlit` gives |
| Gd54xxNormal.JobOf | src/video/vid_cl54xx.c:3743-3760 | the blit's direction, width, height, first row (the masked destination address) and row pitch are those the registers and counters give |
| Gd54xxNormal.StartDone | src/video/vid_cl54xx.c:3755-3762 | before the first visit no byte is done |
| Gd54xxNormal.WalkCount | src/video/vid_cl54xx.c:3762-3831 | after `k` visits the walk has made `k` steps through the rectangle, or has ended after fewer |
| Gd54xxNormal.WalkBased | src/video/vid_cl54xx.c:3807-3822 | every row start is the one `RowBase` names |
| Gd54xxNormal.WalkDone | src/video/vid_cl54xx.c:3797-3798 | a visit made while rows remain adds exactly the byte it visits to the bytes done |
| Gd54xxNormal.WalkEnded | src/video/vid_cl54xx.c:3829-3831 | once the last row is done, further visits leave the walk where it is |
| Gd54xxNormal.AfterNext | src/video/vid_cl54xx.c:3777-3798 | a visit made while rows remain changes only the byte it stores, marks that byte's block, and adds it to the bytes done |
| Gd54xxNormal.AfterEnded | src/video/vid_cl54xx.c:3829-3831 | once the last row is done, further visits change no memory |
| Gd54xxNormal.NormalAfterFrame | src/video/vid_cl54xx.c:3762-3834 | after `k` visits only the bytes done differ from the old memory |
| Gd54xxNormal.NormalAfterMarks | src/video/vid_cl54xx.c:3777-3778 | after `k` visits exactly the blocks of the bytes done have been marked |
| Gd54xxNormal.DoneInside | src/video/vid_cl54xx.c:3762-3834 | the bytes done lie in the `(width + 1) x (height + 1)` rectangle |
| Gd54xxNormal.WalkComplete | src/video/vid_cl54xx.c:3762-3834 | given as many visits as the rectangle has bytes, the walk has ended and done them all |
| Gd54xxNormal.NormalCoverage | src/video/vid_cl54xx.c:3743-3835 | a blit of `count` visits stays in its rectangle and, given enough visits, covers all of it |
| Gd54xxNormal.NormalBlit | src/video/vid_cl54xx.c:3743-3835 | only the row starts, row count and pixel and row counters change; no byte outside the rectangle changes and no block outside it is marked; given enough visits every block of it is marked, the row count is all ones and the pixel counter 0 |
| Gd54xxPattern.PatternPitch | src/video/vid_cl54xx.c:3582-3588 | a pattern line is 8 pixels, 32 bytes at 24 bpp, one mask byte when colour-expanded |
| Gd54xxPattern.PatternAt | src/video/vid_cl54xx.c:3607-3622 | every pattern byte a row reads lies inside memory |
| Gd54xxPattern.TileOf | src/video/vid_cl54xx.c:3590-3605 | the copy's rectangle runs forwards from the masked destination, with the pattern 8-aligned and the first pattern line from the low three source bits |
| Gd54xxPattern.LineOffset | src/video/vid_cl54xx.c:3607 | a pattern line starts at most 7 * 32 bytes into the pattern |
| Gd54xxPattern.PatternPoke | src/video/vid_cl54xx.c:3618-3631 | the write of one byte of a pixel (its pattern byte read just before, unless the mask byte gives it) is step `k` of the copy: memory and place are those of `CopyAfter(k)` |
| Gd54xxPattern.PatternPixel | src/video/vid_cl54xx.c:3611-3635 | one pixel is `pw + 1` steps of the copy: its bytes, then the mark of its first byte's block, leaving the copy at the next pixel or row (`Cursor`) |
| Gd54xxPattern.PatternRow | src/video/vid_cl54xx.c:3609-3637 | one row is `RowSteps` steps of the copy, leaving it at the start of the next row |
| Gd54xxPattern.PatternRun | src/video/vid_cl54xx.c:3569-3640 | memory becomes exactly `PatternCopy` of the old memory |
| Gd54xxPattern.PatternBytes | src/video/vid_cl54xx.c:3612-3632 | the bytes of one pixel are `pw` steps of the copy; colour expansion reads the mask byte once, before the first byte |
| Gd54xxPattern.PatternMark | src/video/vid_cl54xx.c:3633-3634 | the mark after a pixel's bytes is one step of the copy, leaving it at the next pixel or row |
| Gd54xxPattern.PatternCopyInside | src/video/vid_cl54xx.c:3569-3640 | the copy writes only bytes of the rectangle's whole pixels and marks only their blocks |
| Gd54xxPattern.CopyInside | src/video/vid_cl54xx.c:3607-3638 | any number of steps writes and marks only inside a set that covers every row of the copy |
| Gd54xxPattern.StepInside | src/video/vid_cl54xx.c:3618-3634 | one step writes or marks only inside a set that covers the copy's rows |
| Gd54xxPattern.FootprintCovers | src/video/vid_cl54xx.c:3607-3637 | the rectangle covers every byte of every row up to `Cols` |
| Gd54xxPattern.CopySucc | src/video/vid_cl54xx.c:3607-3638 | each step while rows remain is `Step` |
| Gd54xxPattern.MarkStep | src/video/vid_cl54xx.c:3633-3634 | after a pixel's last byte the step marks the block of its first byte and moves to the next pixel or row |
| Gd54xxPattern.PixelPlace | src/video/vid_cl54xx.c:3611 | pixel `i` is in a row of `w + 1` bytes exactly when its offset is at most `w`; the next pixel starts `pw` on, within the row's bytes |
| Gd54xxPattern.RowBytes | src/video/vid_cl54xx.c:3611 | a row of whole pixels ends past `width` but less than one pixel past it |
| Gd54xxPattern.Cols | src/video/vid_cl54xx.c:3611 | the bytes of a row lie between `w + 1` and `w + pw` |
| Gd54xxPattern.Dest | src/video/vid_cl54xx.c:3625 | every destination byte index is inside memory |
| Gd54xxPattern.PatternColumn | src/video/vid_cl54xx.c:3622 | the offset into a pattern line is less than eight pixels |
| Gd54xxSysDest.RoundUp4 | src/video/vid_cl54xx.c:3888-3891 | the bytes the CPU may read are the bytes copied rounded up to a multiple of 4, less than 4 more |
| Gd54xxSysDest.FillLength | src/video/vid_cl54xx.c:3860-3876 | a fill copies as many bytes as are left in the row, between 1 and 32 |
| Gd54xxSysDest.CopyByte | src/video/vid_cl54xx.c:3861-3862 | copying the byte at the cursor extends the copied prefix of the buffer by one |
| Gd54xxSysDest.FillNext | src/video/vid_cl54xx.c:3860-3877 | one pass of the fill loop copies one byte and moves the cursor and counters on, keeping the loop invariant |
| Gd54xxSysDest.SysDestFill | src/video/vid_cl54xx.c:3860-3878 | the fill loop stops after 32 bytes or at the row's end, with its counters exactly `FillAfter` of the bytes copied and the buffer's prefix the source bytes along the row |
| Gd54xxSysDest.FillDone | src/video/vid_cl54xx.c:3860-3878 | a finished fill copied `FillLength` bytes and ended the row exactly when the rest of the row fitted; after the row's end the pixel counter is 0 and the row counter moved on |
| Gd54xxSysDest.SysDestRun | src/video/vid_cl54xx.c:3838-3895 | a running call: buffer, counters, bytes copied and row end exactly `DestFill`; video memory is only read |
| Gd54xxSysDest.DestFill | src/video/vid_cl54xx.c:3838-3895 | the buffer's first 1-32 bytes are the source bytes along the row from `src_addr_backup` and the rest are kept; the CPU may read the bytes copied rounded up to a dword; the bytes copied are those left in the row when it started inside it, and the row ended exactly when they fit; then the pixel counter is 0, the row counter moved on and the source is at that row's start; otherwise the source moved on by 32 |
| Gd54xxSysDest.FillAfterPure | src/video/vid_cl54xx.c:3860-3877 | every pass keeps the fill's invariant, and while the loop runs the `k`-th pass has copied `k` bytes |
| Gd54xxSysDest.FillStays | src/video/vid_cl54xx.c:3860-3877 | once the fill loop has stopped, further passes change nothing |
| Gd54xxSysSrc.CountMod | src/video/vid_cl54xx.c:3718-3724 | a counter taken modulo the row width or height stays below it |
| Gd54xxSysSrc.FirstShift | src/video/vid_cl54xx.c:3674-3684 | the first data bit is 7 for byte-granular colour expansion, else 31 less the start byte offset from the mask register |
| Gd54xxSysSrc.SysSrcPoke | src/video/vid_cl54xx.c:3687-3704 | one system-to-video byte takes the value the data bit or byte gives over its old value, and no other byte changes |
| Gd54xxSysSrc.SysSrcStep | src/video/vid_cl54xx.c:3695-3709 | one byte: memory is exactly `Poked` (the byte at the cursor takes `PokeByte`, the block of the byte after it is marked) and the cursor moves one byte by `dir` |
| Gd54xxSysSrc.NextCursor | src/video/vid_cl54xx.c:3706-3734 | after one byte colour expansion steps through the pixel's bytes; after its last byte the next bit or byte is due and the pixel counter moves on; at the row's end the row counter moves on and the cursor goes to the next row start |
| Gd54xxSysSrc.NextChunkCount | src/video/vid_cl54xx.c:3706-3734 | one more byte keeps the counters' invariant |
| Gd54xxSysSrc.NextChunkPlace | src/video/vid_cl54xx.c:3706-3734 | one more byte keeps the destination where the chunk's row position says |
| Gd54xxSysSrc.NextChunkPure | src/video/vid_cl54xx.c:3706-3734 | one more byte inside the row keeps the chunk's progress measure going down |
| Gd54xxSysSrc.SysSrcNext | src/video/vid_cl54xx.c:3686-3737 | one pass of the loop: memory and chunk are exactly `ChunkStep` of the old ones |
| Gd54xxSysSrc.SysSrcWalk | src/video/vid_cl54xx.c:3686-3737 | the loop stops (data used up or row ended) with memory and counters exactly `ChunkAfter` after the bytes it wrote |
| Gd54xxSysSrc.ChunkEnd | src/video/vid_cl54xx.c:3686-3737 | a finished chunk wrote at most 128 bytes, `pw` per pixel under colour expansion; it used all its data unless the row ended first, and then the cursor is at the next row's start |
| Gd54xxSysSrc.SysSrcChunk | src/video/vid_cl54xx.c:3673-3738 | one chunk from the row position: memory and counters exactly `ChunkWalk` |
| Gd54xxSysSrc.SysSrcRun | src/video/vid_cl54xx.c:3651-3740 | a running call: memory, counters, bytes written and row end exactly `SrcChunk` |
| Gd54xxSysSrc.ChunkWalk | src/video/vid_cl54xx.c:3673-3738 | a chunk stops within 128 bytes at a pixel boundary inside the row; unless the row ended, the whole chunk (`ChunkBytes`) is written and the destination has moved on by it; when the row ended, the pixel counter is 0, the row counter moved on modulo `height + 1` and the destination is at that row's start; only those bytes change and only the blocks one byte further on are marked |
| Gd54xxSysSrc.SrcChunk | src/video/vid_cl54xx.c:3651-3740 | a call changes only the destination, pixel and row counters, writes at most 128 bytes along the row from `dst_addr_backup`, and ends as `ChunkWalk` says |
| Gd54xxSysSrc.ChunkFrame | src/video/vid_cl54xx.c:3695-3709 | the first `k` passes write only bytes along the row from the start, one per pass, and mark the blocks one byte further on |
| Gd54xxSysSrc.ChunkCounts | src/video/vid_cl54xx.c:3686-3737 | while the loop runs, the `k`-th pass has written `k` bytes |
| Gd54xxSysSrc.ChunkStays | src/video/vid_cl54xx.c:3686-3737 | once the loop has stopped further passes change nothing |
| Gd54xxSysSrc.ChunkSettles | src/video/vid_cl54xx.c:3686-3737 | a chunk from a pixel boundary has stopped for good by 128 passes |
| Gd54xxSysSrc.ChunkAt | src/video/vid_cl54xx.c:3686-3737 | after `k` passes a chunk that has not stopped can take one more byte, at the `steps`-th byte along the row, and that pass consumes data or moves through the pixel |
| Gd54xxVisit.U16 | src/video/vid_cl54xx.c:3745 | a 16-bit register is below 0x10000 |
| Gd54xxVisit.U32 | src/video/vid_cl54xx.c:3751-3752 | a 32-bit register is below 2^32 |
| Gd54xxVisit.NormalSrc | src/video/vid_cl54xx.c:3766-3773 | a plain copy's source is the fetched byte; colour expansion picks the pixel's bit and colour byte |
| Gd54xxVisit.NormalByte | src/video/vid_cl54xx.c:3777-3794 | a normal-blit byte is the raster operation's result when it is written and the old byte otherwise |
| Gd54xxVisit.NormalLeftSkip | src/video/vid_cl54xx.c:3793 | columns left of the skip count keep their old value |
| Gd54xxVisit.NormalOpaque | src/video/vid_cl54xx.c:3793-3794 | without transparency every byte past the skip takes the raster operation's result |
| Gd54xxVisit.NormalTransparencyUsesMask | src/video/vid_cl54xx.c:3786-3790 | a transparent copy at 8 or 16 bpp writes a byte exactly when it equals the low byte of the transparency mask register; the transparency colour plays no part |
| Gd54xxVisit.NormalExpandTransparent | src/video/vid_cl54xx.c:3782-3784 | transparent colour expansion writes exactly the set mask bits, the clear ones when inverted |
| Gd54xxVisit.PatternSkipQuirk | src/video/vid_cl54xx.c:3628-3631 | outside 24 bpp all bytes of a pixel share the skip decision; at 24 bpp it is made per byte |
| Gd54xxVisit.PatternByte | src/video/vid_cl54xx.c:3612-3631 | a pattern-copy byte is the old byte or the raster operation over the pattern byte, and skipped opaque bytes keep their value |
| Gd54xxVisit.SysSrcByte | src/video/vid_cl54xx.c:3687-3704 | a system-to-video byte is the old byte or the raster operation over the data |
| Mach64Lanes.Read8Write8 | src/video/vid_ati_mach64.c:688-718 | reading back the byte lane just written with `WRITE8` gives the byte written |
| Mach64Lanes.Read8Write8Other | src/video/vid_ati_mach64.c:704-718 | writing one byte lane leaves the other three alone |
| Mach64Lanes.LanesDetermine | src/video/vid_ati_mach64.c:688-702 | a register is determined by the four bytes `READ8` returns |
| Mach64Lanes.Write8All | src/video/vid_ati_mach64.c:704-718 | writing the four bytes of a value into their lanes gives the value, whatever the register held |
| Mach64Lanes.ByteSwapTwice | src/video/vid_ati_mach64.c:1176 | the host-data byte reversal undoes itself |
| Mach64Lanes.ByteSwapLanes | src/video/vid_ati_mach64.c:1176 | the byte reversal moves lane `i` to lane `3 - i` |
| Mach64Lanes.ComposeLanes | src/video/vid_ati_mach64.c:688-702 | composing the four lanes of a value gives the value |
| Mach64Lanes.LanesOfCompose | src/video/vid_ati_mach64.c:688-702 | the lanes of a composed value are its parts |
| Mach64Mix.MixUndefined | src/video/vid_ati_mach64.c:1534-1587 | a mix code outside the table leaves the destination unchanged |
| Mach64Mix.MixConstants | src/video/vid_ati_mach64.c:1539-1557 | code 3 keeps the destination, code 7 copies the source, codes 1 and 2 clear and set every bit |
| Mach64Mix.InvertTwice | src/video/vid_ati_mach64.c:1536-1538 | inverting (code 0) twice gives the destination back |
| Mach64Mix.XorTwice | src/video/vid_ati_mach64.c:1551-1553 | XOR with the source (code 5) twice gives the destination back |
| Mach64Mix.XnorTwice | src/video/vid_ati_mach64.c:1554-1556 | XNOR with the source (code 6) twice gives the destination back |
| Mach64Mix.MixAverageSymmetric | src/video/vid_ati_mach64.c:1584-1586 | the average (code 0x17) is symmetric in its operands |
| Mach64Mix.WriteMaskedBits | src/video/vid_ati_mach64.c:1810 | bits outside the write mask keep their old value and bits inside take the result |
| Mach64Mix.WriteMaskedExtremes | src/video/vid_ati_mach64.c:1810 | a full mask writes the result and an empty one keeps the old value |
| Mach64Mix.CompareComplement | src/video/vid_ati_mach64.c:1774-1787 | compare functions 4 and 5 negate each other, and functions other than 1, 4 and 5 never veto a pixel |
| Mach64Mix.CombinedVeto | src/video/vid_ati_mach64.c:1789-1813 | a pixel vetoed by the colour compare is written back with its own old value |
| Mach64Mix.CombinedMask | src/video/vid_ati_mach64.c:1789-1813 | vetoed or not, bits outside the write mask keep their old value |
| Mach64Mix.CombinedMix | src/video/vid_ati_mach64.c:1789-1813 | an unvetoed pixel takes the mix inside the write mask |
| Mach64Mix.Rot24Bytes | src/video/vid_ati_mach64.c:1711-1728 | each 24-bit colour byte is one of the colour's low three bytes |
| Mach64Mix.Rot24Mirror | src/video/vid_ati_mach64.c:1711-1728 | walking left takes the triple's bytes in the opposite order |
| Mach64Mix.Rot24KeepsHighBytes | src/video/vid_ati_mach64.c:1792-1810 | under a 24-bit write mask only the low byte of the destination can change |
| Mach64Mix.Rot24Forward | src/video/vid_ati_mach64.c:1719-1725 | walking right, the colour byte at position `xx` of the triple is byte `xx` of the colour |
| Mach64Pixels.U32 | src/video/vid_ati_mach64.c:1522-1532 | a C conversion to `uint32_t` lies in [0, 2^32) |
| Mach64Pixels.PixelAddr | src/video/vid_ati_mach64.c:1813 | a pixel address `offset + y * pitch + x` is a 32-bit value |
| Mach64Pixels.Base | src/video/vid_ati_mach64.c:1522-1532 | all bytes of a pixel at a masked address lie inside memory |
| Mach64Pixels.BitPos | src/video/vid_ati_mach64.c:1529-1532 | a 1-bit pixel occupies one of the eight bits of its byte |
| Mach64Pixels.MaskedBase | src/video/vid_ati_mach64.c:1525-1528 | shifting the address and masking it picks the first byte of the 16- or 32-bit pixel |
| Mach64Pixels.WritePixel | src/video/vid_ati_mach64.c:1589-1612 | the `WRITE` macro keeps the memory size |
| Mach64Pixels.ReadAfterWrite | src/video/vid_ati_mach64.c:1522-1612 | reading a pixel back after `WRITE` gives the value written, cut to the pixel size |
| Mach64Pixels.WriteFrame | src/video/vid_ati_mach64.c:1589-1612 | a pixel write changes no byte outside the pixel |
| Mach64Pixels.BitFrame | src/video/vid_ati_mach64.c:1599-1609 | a 1-bit write changes only its own bit of the byte |
| Mach64Pixels.ReadFits | src/video/vid_ati_mach64.c:1522-1532 | a pixel read is already cut to the pixel size |
| Mach64Pixels.WriteBack | src/video/vid_ati_mach64.c:1522-1612 | writing back the value just read leaves memory as it was |
| Mach64Regs.StoreByte | src/video/vid_ati_mach64.c:721-1091 | a byte write keeps the register file complete |
| Mach64Regs.ByteTargetRange | src/video/vid_ati_mach64.c:721-1091 | registers are reached by byte writes only through offsets 0x100-0x333 outside host data, never CONTEXT_LOAD_CNTL, and CONTEXT_MASK only through 0x320-0x323 |
| Mach64Regs.StoreByteKeeps | src/video/vid_ati_mach64.c:721-1091 | no byte write changes CONTEXT_LOAD_CNTL, and only bytes 0x320-0x323 change CONTEXT_MASK |
| Mach64Setup.WidthSize | src/video/vid_ati_mach64.c:349 | the width table maps each pixel-width code to 1-bit, 8-, 16- or 32-bit pixels, and code 0 alone to 1-bit |
| Mach64Setup.SignExtend13 | src/video/vid_ati_mach64.c:1306-1308 | a 13-bit X coordinate sign-extends into [-0x1000, 0x1000), is negative exactly when bit 12 is set, and keeps its field |
| Mach64Setup.SignExtend15 | src/video/vid_ati_mach64.c:1309-1311 | a 15-bit Y coordinate sign-extends into [-0x4000, 0x4000), is negative exactly when bit 14 is set, and keeps its field |
| Mach64Setup.SignExtend19 | src/video/vid_ati_mach64.c:1506 | the 19-bit Bresenham error sign-extends into [-0x40000, 0x40000), negative exactly when bit 18 is set |
| Mach64Setup.SignedInverse | src/video/vid_ati_mach64.c:1306-1311 | a sign-extended field lies in `-half .. half - 1`, is negative exactly when its sign bit is set, and re-encodes to the field |
| Mach64Setup.WidthField | src/video/vid_ati_mach64.c:1313 | `DST_WIDTH` is a 13-bit field |
| Mach64Setup.FillWidthRounds | src/video/vid_ati_mach64.c:1316-1320 | with a byte-aligned linear mono source the width rounds up to the least multiple of 8 at or above it; otherwise it is kept |
| Mach64Setup.PatternBytesInverse | src/video/vid_ati_mach64.c:1393-1413 | the 4x2 and 8x1 colour-pattern bytes give back both pattern registers |
| Mach64Setup.PatternRowIsLane | src/video/vid_ati_mach64.c:1384-1391 | row `y` of the mono pattern is byte `y & 3` of PAT_REG0 or PAT_REG1, bit `x` of that byte at column `7 - x` |
| Mach64Setup.SetupCommon | src/video/vid_ati_mach64.c:1293-1520 | both setups walk in the directions of DST_X_DIR and DST_Y_DIR, latch a compare colour inside the compare mask, and take pixel sizes from the width table |
| Mach64Setup.FillStarts | src/video/vid_ati_mach64.c:1303-1323 | a fill starts busy at the first pixel of the first row, with the row length the width |
| Mach64Setup.FillExtent | src/video/vid_ati_mach64.c:1306-1320 | a fill's width is the (possibly rounded) `DST_WIDTH`, its height `DST_HEIGHT`, its start a sign-extended point |
| Mach64Setup.LineStarts | src/video/vid_ati_mach64.c:1438-1520 | a line starts busy at the sign-extended destination with its length from DST_BRES_LNTH and an error term in the 19-bit range |
| Mach64Walk.I32 | src/video/vid_ati_mach64.c:2007 | adding a `uint32_t` increment to the `int` error term wraps into the 32-bit signed range |
| Mach64Walk.I32InRange | src/video/vid_ati_mach64.c:2007 | sums that stay in range are not wrapped |
| Mach64Walk.Consume | src/video/vid_ati_mach64.c:1649-1668 | with a host source a pixel takes the whole host word and uses up its host size in bits; otherwise one is counted off |
| Mach64Walk.HostBytesInOrder | src/video/vid_ati_mach64.c:1649-1668 | with 8-bit host pixels a host dword gives four pixels whose low bytes are its bytes, lowest first |
| Mach64Walk.HostHalvesInOrder | src/video/vid_ati_mach64.c:1649-1668 | with 16-bit host pixels a host dword gives two pixels, low half first |
| Mach64Walk.ConsumeCounts | src/video/vid_ati_mach64.c:1649-1668 | a host pixel uses up its size in bits |
| Mach64Walk.HostBitsMsbFirst | src/video/vid_ati_mach64.c:1670-1679 | eight mono host bits taken most significant first are the top byte of the word, high bit first |
| Mach64Walk.SrcXWrap | src/video/vid_ati_mach64.c:1819-1830 | the source column wrap changes only the source position and counters |
| Mach64Walk.SrcYWrap | src/video/vid_ati_mach64.c:1845-1857 | the source row wrap changes only the source position and counters |
| Mach64Walk.Total | src/video/vid_ati_mach64.c:1833-1868 | a busy rectangle walk has at least one pixel still to visit |
| Mach64Walk.AdvanceCounters | src/video/vid_ati_mach64.c:1833-1868 | a step takes one column off, or at a row end restarts the row and takes one row off, finishing after the last row |
| Mach64Walk.RectProgress | src/video/vid_ati_mach64.c:1833-1868 | each step stays busy with one pixel fewer to go or, on the last pixel, finishes |
| Mach64Walk.RectBusy | src/video/vid_ati_mach64.c:1627-1882 | a busy rectangle walk stays busy for `Total - 1` steps, one pixel fewer to go after each |
| Mach64Walk.RectEnds | src/video/vid_ati_mach64.c:1860-1869 | the step from the `Total`-th pixel ends the walk |
| Mach64Walk.FillTotal | src/video/vid_ati_mach64.c:1303-1323 | a fresh fill visits `DST_HEIGHT` rows of `DST_WIDTH` pixels (at least one of each) |
| Mach64Walk.TileX | src/video/vid_ati_mach64.c:1865-1866 | X tiling adds the width to the 12-bit X field and keeps the Y field |
| Mach64Walk.TileY | src/video/vid_ati_mach64.c:1867-1868 | Y tiling adds DST_HEIGHT to the 12-bit Y field and keeps the X field |
| Mach64Walk.TileNone | src/video/vid_ati_mach64.c:1865-1868 | without a tile bit DST_Y_X is left alone |
| Mach64Walk.LineMajor | src/video/vid_ati_mach64.c:2127-2151 | the major step of an octant moves only the position |
| Mach64Walk.LineMinor | src/video/vid_ati_mach64.c:2156-2180 | the minor step of an octant moves only the position |
| Mach64Walk.OctantBits | src/video/vid_ati_mach64.c:2127 | the octant `DST_CNTL & 7` is the three direction bits |
| Mach64Walk.OctantMajor | src/video/vid_ati_mach64.c:2127-2151 | the octant's major step is the one DST_X_DIR, DST_Y_DIR and DST_Y_MAJOR describe |
| Mach64Walk.OctantMinor | src/video/vid_ati_mach64.c:2156-2180 | the octant's minor step is the one the direction bits describe |
| Mach64Walk.LineSourceFollows | src/video/vid_ati_mach64.c:2127-2180 | the source point moves with the destination on every line step |
| Mach64Walk.LineStepMoves | src/video/vid_ati_mach64.c:2119-2182 | a step that does not finish moves by the major step, plus the minor step exactly when the error was not negative, and adds the matching Bresenham increment |
| Mach64Walk.LineBusy | src/video/vid_ati_mach64.c:2119-2125 | a busy line of `x_count` pixels visits pixel `k` still busy with `x_count - k` to go |
| Mach64Walk.LineEnds | src/video/vid_ati_mach64.c:2119-2125 | the step from the pixel with a count of 1 ends the line |
| Mach64Walk.LastPixel | src/video/vid_ati_mach64.c:2074-2075 | the last pixel of a line is drawn only under DST_LAST_PEL; without DST_POLYGON_EN the others always are |
| Mach64Walk.Line24Moves | src/video/vid_ati_mach64.c:2004-2020 | the 24-bit walk takes its major step every pixel and its minor step when the error is not negative |
| Mach64Walk.Line24AgreesWithLine | src/video/vid_ati_mach64.c:2004-2020 | with directions from DST_CNTL the 24-bit walk moves the destination exactly as the general line walk (2127-2182) |
| Mach64Walk.WriteInside | src/video/vid_ati_mach64.c:1702 | writing a destination pixel inside the scissor changes nothing outside it |
| Mach64Walk.AdvanceIgnoresPoly | src/video/vid_ati_mach64.c:1859 | the advance looks at the polygon flip-flop only to clear it |
| Mach64Walk.RectRunStep | src/video/vid_ati_mach64.c:1627-1882 | a step from a walk that agrees with the run up to the flip-flop continues the run |
| Mach64Walk.HostAlign | src/video/vid_ati_mach64.c:1871-1880 | under HOST_BYTE_ALIGN a row end rounds the host bit count down to whole bytes |
| Mach64Walk.PixelBits | src/video/vid_ati_mach64.c:1649-1668 | the part of `count` a pixel uses up is never negative: 8, 16 or 32 host bits, none at host size 3, one pixel without a host source |
| Mach64Walk.CountLeftIs | src/video/vid_ati_mach64.c:1649-1668 | after `k` pixels of a line `count` has lost `k * PixelBits` (genuine induction) |
| Mach64Walk.RectRunX | src/video/vid_ati_mach64.c:1833-1836 | the rectangle walk's `x_count` falls by one per pixel and is `dst_width` again after a row end, as `XAt` (genuine induction) |
| Mach64Walk.RectCountUnaligned | src/video/vid_ati_mach64.c:1649-1668 | without HOST_BYTE_ALIGN a rectangle uses up its count as a line does (genuine induction) |
| Mach64Walk.RectCountsLeftAll | src/video/vid_ati_mach64.c:1628 | the loop test held before every pixel visited |
| Mach64Draw.PatCol | src/video/vid_ati_mach64.c:1681-1685 | the mono pattern column is `x / 3` under 24-bit rotation, one of eight |
| Mach64Draw.RectVetoKeeps | src/video/vid_ati_mach64.c:1774-1813 | a rectangle pixel the compare vetoes is written back with its own value, so memory is unchanged |
| Mach64Draw.LineVetoKeeps | src/video/vid_ati_mach64.c:2098-2116 | a vetoed line pixel leaves memory unchanged |
| Mach64Draw.RectMaskKeeps | src/video/vid_ati_mach64.c:1789-1813 | a rectangle pixel keeps every bit outside the write mask |
| Mach64Draw.RectMixShows | src/video/vid_ati_mach64.c:1789-1813 | an unvetoed rectangle pixel is the mix inside the write mask |
| Mach64Draw.LineMixShows | src/video/vid_ati_mach64.c:2113-2116 | an unvetoed line pixel reads back as the mix, cut to the pixel size (lines have no write mask) |
| Mach64Draw.RotKeepsHighBytes | src/video/vid_ati_mach64.c:1792-1810 | under 24-bit rotation only the low byte of a pixel can change |
| Mach64Draw.SourceRotates | src/video/vid_ati_mach64.c:1710-1749 | under 24-bit rotation walking right the foreground or background source walks through the colour's three bytes |
| Mach64Draw.SourcePatternRepeats | src/video/vid_ati_mach64.c:1750-1758 | a colour-pattern source repeats every eight columns and two rows, and is 0 where the walker has no colour pattern |
| Mach64Memory.Width | src/video/vid_ati_mach64.c:4438-4522 | a byte, word or dword access covers 1, 2 or 4 bytes |
| Mach64Memory.Store | src/video/vid_ati_mach64.c:4480-4522 | a store keeps the memory size |
| Mach64Memory.LinearIndex | src/video/vid_ati_mach64.c:4444-4448 | a linear address reaches a byte inside memory or, at or past `vram_max`, nothing |
| Mach64Memory.BankedIndex | src/video/vid_ati_mach64.c:3947-4000 | a banked window address reaches a byte inside memory |
| Mach64Memory.StoreLane | src/video/vid_ati_mach64.c:4480-4522 | byte `k` of a stored value is lane `k` of the value (little-endian) |
| Mach64Memory.LoadAfterStore | src/video/vid_ati_mach64.c:4438-4522 | reading back a stored value gives it, cut to the access width |
| Mach64Memory.StoreFrame | src/video/vid_ati_mach64.c:4480-4522 | a store changes no byte outside the ones it covers |
| Mach64Memory.LinearPastEnd | src/video/vid_ati_mach64.c:4444-4446 | a linear read past `vram_max` gives all ones, whatever memory holds |
| Mach64Memory.LinearWriteDropped | src/video/vid_ati_mach64.c:4486-4488 | a linear write past `vram_max` changes nothing and marks nothing |
| Mach64Memory.LinearReadAfterWrite | src/video/vid_ati_mach64.c:4438-4522 | below `vram_max` a linear read after a linear write of the same size at the same address gives the value written |
| Mach64Memory.LinearDwordBytes | src/video/vid_ati_mach64.c:4466-4522 | byte `k` of a dword written at a linear address reads back by the byte accessor at the byte `k` places on |
| Mach64Memory.BankedHalves | src/video/vid_ati_mach64.c:3951 | offsets 0-0x7fff of window half `h` land at `bank[h]` plus the offset, and the window repeats every 64 KB |
| Mach64Memory.BankPage | src/video/vid_ati_mach64.c:3297-3312 | a bank register byte `val` selects the 32 KB page `val` of memory |
| Mach64Memory.BankedReadAfterWrite | src/video/vid_ati_mach64.c:3947-4000 | with the same read and write bank for a half, a banked read after a banked write to the same address gives the value written |
| Mach64.RectEffect | src/video/vid_ati_mach64.c:1702-1815 | one rectangle pixel keeps the memory size |
| Mach64.RectEffectOutside | src/video/vid_ati_mach64.c:1702-1815 | a rectangle pixel changes memory only inside the scissor |
| Mach64.RectEffectVeto | src/video/vid_ati_mach64.c:1774-1813 | a rectangle pixel the colour compare vetoes leaves memory unchanged (its block is still marked) |
| Mach64.LineEffect | src/video/vid_ati_mach64.c:2065-2117 | one line pixel keeps the memory size |
| Mach64.Line24Effect | src/video/vid_ati_mach64.c:1939-1995 | one 24-bit line pixel keeps the memory size |
| Mach64.LineEffectOutside | src/video/vid_ati_mach64.c:2065-2117 | a line pixel changes memory only inside the scissor |
| Mach64.Line24EffectOutside | src/video/vid_ati_mach64.c:1939-1995 | a 24-bit line pixel changes memory only inside the scissor |
| Mach64.LineEffectVeto | src/video/vid_ati_mach64.c:2098-2116 | a line pixel the colour compare vetoes leaves memory unchanged |
| Mach64.Tiled | src/video/vid_ati_mach64.c:1865-1868 | tiling after a fill keeps the register file complete |
| Mach64.NoHostSourcePlain | src/video/vid_ati_mach64.c:761-781 | an operation started without a host source counts one pixel per step, so `mach64_blit(0, -1)` draws all of it |
| Mach64.StartSources | src/video/vid_ati_mach64.c:1365-1382 | both setups take their foreground, background and mono sources from DP_SRC |
| Mach64.MonoNotHost | src/video/vid_ati_mach64.c:765-766 | a mono source whose low two bits are not MONO_SRC_HOST is not MONO_SRC_HOST |
| Mach64.LowHalfSets | src/video/vid_ati_mach64.c:1131-1132 | a word at 0x32c sets the low half of CONTEXT_LOAD_CNTL |
| Mach64.LowHalfKeeps | src/video/vid_ati_mach64.c:1131-1132 | and keeps the high half |
| Mach64.HighHalfSets | src/video/vid_ati_mach64.c:1135-1136 | a word at 0x32e sets the high half of CONTEXT_LOAD_CNTL |
| Mach64.HighHalfKeeps | src/video/vid_ati_mach64.c:1135-1136 | and keeps the low half |
| Mach64.HighWordNeverLoads | src/video/vid_ati_mach64.c:1137-1138 | as written, a word at 0x32e never loads a context, whatever its value |
| Mach64.HighWordLoadsBits | src/video/vid_ati_mach64.c:1135-1138 | with the test on the register, a word at 0x32e loads a context exactly when bit 0 or 1 of the word is set |
| Mach64.WordPairIsDword | src/video/vid_ati_mach64.c:1131-1156 | CONTEXT_LOAD_CNTL written as two words, low then high, holds what one dword write stores, and with the test on the register loads exactly when the dword write would |
| Mach64.HighWordMissesLoad | src/video/vid_ati_mach64.c:1137-1138 | the word pair 0x0000, 0x0001 stores 0x10000, which a dword write loads (1153-1155), yet as written the high word does not |
| Mach64.ContextSlotSafe | src/video/vid_ati_mach64.c:2203-2254 | every context slot is a dword-aligned register that feeds no host data and reaches neither CONTEXT_MASK nor CONTEXT_LOAD_CNTL, so a load never starts another from inside |
| Mach64.ContextSlotsIncrease | src/video/vid_ati_mach64.c:2203-2254 | the slots are loaded at increasing offsets, each register at most once |
| Mach64.ContextBlock | src/video/vid_ati_mach64.c:2199 | the context block number `0x3fff - (cntl & 0x3fff)` is in 0-0x3fff |
| Mach64.ContextAddrFits | src/video/vid_ati_mach64.c:2199 | in memory of whole 256-byte blocks a context starts on a block and lies inside memory |
| Mach64.ContextWordAt | src/video/vid_ati_mach64.c:2200-2256 | dword `k` of a context (mask 0, registers 2-27, next CONTEXT_LOAD_CNTL 28) is the four bytes at `addr + 4 * k` |
| Mach64.TwoBytes | src/video/vid_ati_mach64.c:1141-1144 | two byte writes, each the byte store or (when it starts a fill) agreeing with it beyond DST_Y_X, end as `StoreWord` does, exactly when neither byte starts a fill |
| Mach64.TwoWords | src/video/vid_ati_mach64.c:1179-1182 | likewise two word writes end as `StoreDword` does |
| Mach64.StoreByteAgree | src/video/vid_ati_mach64.c:721-1091 | a byte store writes each register from itself alone, so register files that agree beyond DST_Y_X still agree after it |
| Mach64.StoreWordAgree | src/video/vid_ati_mach64.c:1141-1144 | so does a word store |
| Mach64.StoreDwordAgree | src/video/vid_ati_mach64.c:1179-1182 | so does a dword store |
| Mach64.SlotRegInverse | src/video/vid_ati_mach64.c:2203-2251 | slots 2-26 load 25 different registers |
| Mach64.SlotStore | src/video/vid_ati_mach64.c:2203-2251 | a dword written at slot `b` (2-26) sets the slot's register to the dword and leaves every other register alone |
| Mach64.LastSlotFrame | src/video/vid_ati_mach64.c:2253-2254 | slot 27 at 0x330 reaches only DST_CNTL, SRC_CNTL, PAT_CNTL and HOST_CNTL |
| Mach64.LoadedSlotsAt | src/video/vid_ati_mach64.c:2203-2254 | after the slot loop, slot register `b` holds dword `b` when its mask bit is set and its old value otherwise |
| Mach64.LoadedSlotsMask | src/video/vid_ati_mach64.c:2203-2254 | no slot write reaches CONTEXT_MASK |
| Mach64.LoadedContextSlot | src/video/vid_ati_mach64.c:2199-2256 | after a context load, register `b` (2-26) holds dword `b` of the context exactly when mask bit `b` is set, CONTEXT_MASK holds dword 0 and CONTEXT_LOAD_CNTL dword 28 |
| Mach64.LoadedContextDone | src/video/vid_ati_mach64.c:2256 | writing dword 28 to CONTEXT_LOAD_CNTL after the slot loop completes `ContextLoaded` |
| Mach64.SlotPlain | src/video/vid_ati_mach64.c:2203-2254 | every slot is a plain dword (no host data, no CONTEXT_LOAD_CNTL half) and only the DST_HEIGHT_WIDTH slot (bit 4) can start anything |
| Mach64.SlotQuiet | src/video/vid_ati_mach64.c:2203-2254 | in a context that starts no fill, no masked slot starts a fill or a line |
| Mach64.LoadStep | src/video/vid_ati_mach64.c:2203-2254 | one slot write moves the registers to `LoadedSlots` one slot further, beyond DST_Y_X, with memory as the pass found it up to the fill slot |
| Mach64.LoadStepExact | src/video/vid_ati_mach64.c:2203-2254 | in a context that starts no fill, one slot write moves the registers exactly to `LoadedSlots` one slot further and leaves memory alone |
| Mach64.BlockMod | src/video/vid_ati_mach64.c:2199 | multiples of 256 stay multiples of 256 modulo memory of whole 256-byte blocks |
| Mach64.Engine.PutPixel | src/video/vid_ati_mach64.c:1589-1612 | the `WRITE` macro stores the value cut to the pixel size and marks its block |
| Mach64.Engine.DrawRect | src/video/vid_ati_mach64.c:1702-1815 | drawing one rectangle pixel gives the memory `RectEffect` describes and changes nothing outside the scissor |
| Mach64.Engine.RectPixel | src/video/vid_ati_mach64.c:1640-1815 | one rectangle pixel takes its host data and selector and draws, without moving the walk |
| Mach64.Engine.RectVisit | src/video/vid_ati_mach64.c:1640-1881 | one step advances the walk as `RectAdvance`, finishing exactly on the last pixel and otherwise leaving one pixel fewer to go; `count` loses `PixelBits`, the pixel's host bits (one without a host source); memory changes only inside the scissor (the pixel drawn is stated on `Mach64.Engine.RectPixel`) |
| Mach64.Engine.BlitRect | src/video/vid_ati_mach64.c:1627-1883 | the rectangle walker visits at most the pixels left, finishes exactly when it visited them all, tiles DST_Y_X when it finishes, stops early exactly where the host count `RectCount` reaches 0 and at no earlier pixel (`RectBlitted`), and changes nothing outside the scissor |
| Mach64.Engine.RectLoop | src/video/vid_ati_mach64.c:1628-1881 | the pixel loop of the rectangle walker, with the byte alignment of monochrome host data at row ends: the walk is `RectRun` of the pixels visited, it finishes exactly after `Total` pixels, the count `RectCount` was not used up before any pixel visited and is used up if the walk stopped busy, `count` bounds the pixels without a host source, and memory changes only inside the scissor |
| Mach64.Engine.LinePixel | src/video/vid_ati_mach64.c:2024-2117 | one line pixel takes its host data and selector and draws, without moving the walk |
| Mach64.Engine.BlitLine | src/video/vid_ati_mach64.c:2023-2183 | the line walker follows the Bresenham run, visits at most `x_count` pixels, finishes exactly when it visited them all, stops early exactly where the count `CountLeft` reaches 0 and at no earlier pixel (`LineBlitted`), and changes nothing outside the scissor |
| Mach64.Engine.LineVisit | src/video/vid_ati_mach64.c:2024-2182 | one step takes the Bresenham step (`LineStep`), finishing after the last pixel; `count` loses `PixelBits`; memory changes only inside the scissor (the pixel drawn is stated on `Mach64.Engine.LinePixel`) |
| Mach64.Engine.Line24Pixel | src/video/vid_ati_mach64.c:1889-1995 | one 24-bit line pixel takes its host data and selector and draws |
| Mach64.Engine.BlitLine24 | src/video/vid_ati_mach64.c:1885-2021 | the 24-bit walker draws pixel `x`, counting from 0 on every call, finishes once `x` reaches `x_count`, otherwise steps, and stops early exactly where the count `CountLeft` reaches 0 and at no earlier pixel (`Line24Blitted`) |
| Mach64.Engine.Line24Visit | src/video/vid_ati_mach64.c:1888-2020 | one step of the 24-bit walker: the finish once pixel `x` is the last, else `Line24Step`; `count` loses `PixelBits`; memory changes only inside the scissor (the pixel drawn is stated on `Mach64.Engine.Line24Pixel`) |
| Mach64.Engine.Blit | src/video/vid_ati_mach64.c:1615-2190 | `mach64_blit` does nothing unless busy; otherwise it runs the walker `accel.op` and CRTC_GEN_CNTL select, and leaves what that walker leaves: `RectRun` with DST_Y_X tiled exactly when the fill finishes (`RectBlitted`), `Line24Run` at 24 bpp (`Line24Blitted`), `LineRun` otherwise (`LineBlitted`), each finishing exactly after its pixel total and stopping early exactly where the host count reaches 0; without a host source a non-negative `count` draws `Min(count, pixels left)`; memory changes only inside the scissor |
| Mach64.CallSteps | src/video/vid_ati_mach64.c:1628-1668 | a call visits `count / PixelBits` pixels, or the pixels left if fewer, when the count divides into whole pixels; otherwise (host size 3, a negative count, a part pixel) it runs the walk to its end |
| Mach64.RectSteps | src/video/vid_ati_mach64.c:1628-1881 | the same for a rectangle without HOST_BYTE_ALIGN; with no host source `count` pixels, or the whole walk for a negative count |
| Mach64.HostDwordPixels | src/video/vid_ati_mach64.c:1173-1176 | a 32-bit host data write (`mach64_blit(val, 32)`) draws 4, 2 or 1 pixels at host sizes 0, 1 and 2, or the pixels left if fewer |
| Mach64.HostRunsOn | src/video/vid_ati_mach64.c:1649-1668 | a host write at host size 3, which takes no bits, or a 16-bit host write (`mach64_blit(val, 16)`, line 1128) at host size 2, never uses up its count and runs the walk to its end |
| Mach64.Engine.UnpackPattern | src/video/vid_ati_mach64.c:1384-1391 | the unpacking loop leaves the pattern the two pattern registers describe |
| Mach64.Engine.StartFill | src/video/vid_ati_mach64.c:1293-1435 | `mach64_start_fill` sets up the rectangle from the registers and unpacks the pattern only under PAT_CNTL bit 0 |
| Mach64.Engine.StartLine | src/video/vid_ati_mach64.c:1438-1520 | `mach64_start_line` sets up the line from the registers and unpacks the pattern only under PAT_CNTL bit 0 |
| Mach64.Engine.StartedFill | src/video/vid_ati_mach64.c:761-768 | a fill started by a byte write is drawn at once when it has a width, a height and no host source, and only DST_Y_X changes among the registers |
| Mach64.Engine.StartedLine | src/video/vid_ati_mach64.c:775-781 | a line started by a byte write is drawn at once when it has a length and no host source, and no register changes |
| Mach64.Engine.StoreRegister | src/video/vid_ati_mach64.c:721-1091 | the byte is stored where its offset decodes to; CONTEXT_LOAD_CNTL never changes and CONTEXT_MASK only from 0x320-0x323 |
| Mach64.Engine.WriteByte | src/video/vid_ati_mach64.c:721-1091 | a host-data byte is handed to `mach64_blit` as 8 bits (943) and leaves the registers alone beyond DST_Y_X; any other byte is the `StoreByte` store, exactly unless it starts a fill, and changes neither the engine, memory nor the feed unless it starts a fill or a line; CONTEXT_LOAD_CNTL never changes |
| Mach64.Engine.RegisterByte | src/video/vid_ati_mach64.c:721-1091 | a byte that is not host data is stored as `StoreByte` gives, exactly unless it starts a fill (then beyond DST_Y_X), and changes neither the engine, memory nor the feed unless it starts a fill or a line |
| Mach64.Engine.WordStore | src/video/vid_ati_mach64.c:1093-1146 | a word of host data is handed on as 16 bits (1128); a word at 0x32c replaces the low half of CONTEXT_LOAD_CNTL and nothing else; any other plain word is the two byte stores `StoreWord`, low first (1142-1143), exactly unless a byte starts a fill, and changes nothing else unless a byte starts a fill or a line |
| Mach64.Engine.WordBytes | src/video/vid_ati_mach64.c:1141-1144 | the default case of the word path is the two byte stores `StoreWord`, low first, exactly unless a byte starts a fill, with nothing else changed unless a byte starts something |
| Mach64.Engine.WriteWord | src/video/vid_ati_mach64.c:1093-1146 | at 0x32e the high half of CONTEXT_LOAD_CNTL is replaced and, with the corrected test, a load bit loads the context the new value points at (`ContextLoaded`); at 0x32c, for host data and for plain words the `WordStore` clauses hold |
| Mach64.Engine.DwordStore | src/video/vid_ati_mach64.c:1148-1184 | a dword of host data is handed on as 32 bits, byte-swapped unless the source is host colour data or DP_BYTE_PIX_ORDER is set (1173-1176); any other plain dword is the two word stores `StoreDword`, low first (1180-1181), exactly unless a byte starts a fill, and changes nothing else unless a byte starts a fill or a line |
| Mach64.Engine.DwordWords | src/video/vid_ati_mach64.c:1179-1182 | the default case of the dword path is the two word stores `StoreDword`, low first, exactly unless a byte starts a fill, with nothing else changed unless a byte starts something |
| Mach64.Engine.WriteDword | src/video/vid_ati_mach64.c:1148-1184 | at 0x32c the dword replaces CONTEXT_LOAD_CNTL and nothing else changes without a load bit; with bit 16 or 17 set the context it points at is loaded (`ContextLoaded`); for host data and for plain dwords the `DwordStore` clauses hold |
| Mach64.Engine.LoadCntlWrite | src/video/vid_ati_mach64.c:1151-1154 | the dword replaces CONTEXT_LOAD_CNTL; with no load bit nothing else changes, and with one and `fuel` 1 the context it points at is loaded (`ContextLoaded`) |
| Mach64.Engine.LoadContext | src/video/vid_ati_mach64.c:2193-2258 | the loop loads contexts while CONTEXT_LOAD_CNTL has a load bit set and stops with none set; the first context is loaded from the registers and memory at entry, and the registers at exit are the last context loaded (`ContextLoaded`) |
| Mach64.Engine.LoadOne | src/video/vid_ati_mach64.c:2199-2256 | one pass: CONTEXT_MASK is dword 0, each register whose mask bit 2-27 is set holds the dword store of its slot (`LoadedContext`), CONTEXT_LOAD_CNTL is dword 28; exactly, with memory, the engine and the feed untouched, when the context starts no fill, and beyond DST_Y_X otherwise |
| Mach64.Engine.LoadSlots | src/video/vid_ati_mach64.c:2203-2254 | the 26 masked slot writes give `LoadedSlots` over slots 2-27 (`SlotsLoaded`), CONTEXT_MASK untouched; exactly, with memory and the engine untouched, when the context starts no fill |
| Mach64.Engine.LoadSlot | src/video/vid_ati_mach64.c:2203-2254 | one slot write keeps `SlotsLoaded` one slot further: the register of a masked slot takes the dword store of its slot word |
| Mach64.Engine.StoreLoadCntl | src/video/vid_ati_mach64.c:2256 | CONTEXT_LOAD_CNTL from dword 28 after the slots completes `ContextLoaded` |
| Mach64.Engine.BankWord | src/video/vid_ati_mach64.c:2966-2972 | the word read-back of a bank register is a byte |
| Mach64.Engine.BankDword | src/video/vid_ati_mach64.c:3000-3005 | the dword read-back of the banks is the two word read-backs side by side |
| Mach64.Engine.SetBank | src/video/vid_ati_mach64.c:3296-3313 | a bank byte sets exactly one bank to `val * 32768` and the word read-back then gives `val` |
| Mach64.Engine.WriteBanked | src/video/vid_ati_mach64.c:3947-3969 | a banked write stores little-endian at the address mapped through the write bank of its half |
| Mach64.Engine.ReadLinear | src/video/vid_ati_mach64.c:4438-4477 | a linear read at or past `vram_max` gives all ones |
| Mach64.Engine.WriteLinear | src/video/vid_ati_mach64.c:4480-4522 | a linear write past `vram_max` is dropped; otherwise the bytes are stored and the block of the first one marked |
| Mach64.Engine.Put | src/video/vid_ati_mach64.c:4491 | the bytes of the value are stored little-endian from byte `i` |
| W83787F.Key | src/sio_w83787f.c:78 | the unlock key is 0x89 exactly when HEFERE (bit 5 of register 0x0C) is set, else 0x88 |
| W83787F.UartDecode | src/sio_w83787f.c:102-137 | an enabled UART sits at 0x3F8, 0x2F8, 0x3E8 or 0x2E8 on IRQ 3 or 4, and its register 4 bit switches it off |
| W83787F.UartOffExactly | src/sio_w83787f.c:104-137 | a UART is off exactly when its register 4 bit is set, or URS2 is clear and URS1 and URS0 are both set |
| W83787F.UartUrs2 | src/sio_w83787f.c:112-114 | with URS2 set and the port not switched off, UART 1 is at 0x3F8/IRQ 4 and UART 0 at 0x2F8/IRQ 3 |
| W83787F.LptDecodeAsWritten | src/sio_w83787f.c:146-175 | the printer decode with the select bits as written (bit 2, and bit 0 or 2, of register 1) is off under register 4 bit 7 |
| W83787F.LptAsWrittenMisses278 | src/sio_w83787f.c:148-163 | as written the decode never selects 0x278/IRQ 5 |
| W83787F.LptAsWrittenDisagreesWithReset | src/sio_w83787f.c:148-149 | as written the reset register file (register 1 = 0x2C) decodes the printer port as off, while reset sets it up at 0x378/IRQ 7 (324-326) |
| W83787F.LptDecode | src/sio_w83787f.c:146-175 | the corrected decode is off under register 4 bit 7, and otherwise one of 0x3BC/IRQ 7, 0x278/IRQ 5 and 0x378/IRQ 7, or off |
| W83787F.LptDecodeSelects | src/sio_w83787f.c:153-171 | the corrected decode picks 0x3BC, 0x278, 0x378 or off exactly for select field 0, 1, 2 or 3 in bits 5-4 of register 1 (the bits the write handler watches, 234-235) |
| W83787F.LptResetAgrees | src/sio_w83787f.c:322-337 | the corrected decode of the reset register file is the port reset sets up |
| W83787F.FdcDecode | src/sio_w83787f.c:186-191 | the floppy controller is off exactly when register 0 bit 5 is set, and otherwise at 0x3F0 exactly when bit 4 is set (0x370 when clear) |
| W83787F.Stored | src/sio_w83787f.c:216-219 | a write to register 6 stores the byte with bits 2-3 cleared; any other register stores the byte unchanged |
| W83787F.ResetRegs | src/sio_w83787f.c:330-338 | the reset register file has all 42 registers |
| W83787F.SuperIo.constructor | src/sio_w83787f.c:362-377 | a new chip holds the reset register file, index 0 and key 0x89, outside configuration mode and without the read/write lock |
| W83787F.SuperIo.ClearRegs | src/sio_w83787f.c:330 | every register is zero |
| W83787F.SuperIo.Reset | src/sio_w83787f.c:322-349 | `w83787f_reset`: the reset register file, key 0x89 (HEFERE set by register 0x0C = 0x2C), both locks clear, the index kept, and the printer port, floppy controller and both UARTs set up |
| W83787F.SuperIo.Write | src/sio_w83787f.c:195-295 | `w83787f_write`: a key byte at 0x250 enters configuration mode exactly when it equals the key; an index at 0x251 is taken only up to 0x15; a data byte is stored only in configuration mode without the read/write lock; its printer setups use the corrected decode `LptDecode` of the Findings row, not the decode at 148-149 |
| W83787F.SuperIo.WriteData | src/sio_w83787f.c:216-294 | the selected register takes `Stored`, no other changes, and the side effects are those its changed bits call for (floppy, printer, UART, drive-type, remap and lock handlers); the printer setups use the corrected decode `LptDecode` of the Findings row, not the decode at 148-149 |
| W83787F.WriteEffectsPrinter | src/sio_w83787f.c:225-294 | every printer setup a data write to any register calls for sets the port up as `LptDecode` of registers 1 and 4 (the corrected decode of the Findings row) |
| W83787F.SuperIo.Read | src/sio_w83787f.c:299-318 | `w83787f_read`: 0xFF outside configuration mode and at other ports; the index at 0x251; at 0x252 the floppy drive types for register 7, the register unless locked, else 0xFF |
| Vga.Alias | src/video/vid_vga.c:46-47 | with mono mapping (miscellaneous output bit 0 clear) ports 0x3Bx and 0x3Dx trade places, keeping the low nibble; any other port or colour mapping is left alone |
| Vga.AliasInvolution | src/video/vid_vga.c:46-47 | aliasing twice gives the port back |
| Vga.StartAddress | src/video/vid_vga.c:66 | the start address is CR0C * 256 + CR0D plus CR08 bits 5-6, below 0x10000 + 4 |
| Vga.ProtectedValue | src/video/vid_vga.c:58-59 | under protection a write to CR07 takes only bit 4 and keeps the rest; otherwise the value is stored as given |
| Vga.ProtectionKeepsTimingRegisters | src/video/vid_vga.c:56-59 | under CR11 bit 7 a data write leaves CR00-CR06 alone and keeps all of CR07 but bit 4 |
| Vga.VgaCrtc.constructor | src/video/vid_vga.c:140-166 | a new CRTC, zeroed as `vga_standalone_init` allocates it, has every register 0, index 0, the latch and repaint count 0, the given miscellaneous output and VGA disabled |
| Vga.VgaCrtc.Out | src/video/vid_vga.c:40-79 | `vga_out`: the index port takes the low six bits; a data write is dropped for CR20-CR3F and for CR00-CR06 under protection, else stored (CR07 protected), and a change outside CR0E-CR10 either latches the start address and repaints fully (CR0C, CR0D) or sets the repaint count and asks for new timings; the write goes on to the SVGA core except at the index port and when dropped |
| Vga.VgaCrtc.In | src/video/vid_vga.c:82-106 | `vga_in`: the index, the selected register or 0xFF for CR20-CR3F, and the SVGA core's answer at any other port |
| Vga.VgaCrtc.Disable | src/video/vid_vga.c:108-116 | VGA is disabled and the CRTC state kept |
| Vga.VgaCrtc.Enable | src/video/vid_vga.c:118-129 | VGA is enabled and the CRTC state kept |
| Vga.VgaCrtc.IsEnabled | src/video/vid_vga.c:131-137 | answers whether VGA is enabled |

## Left out

- The Mach64 FIFO thread, `mach64_queue`, `mach64_wait_fifo_idle` and their events: a register write is applied at once, in program order, so the model has no concurrency.
- Cycle penalties (`cycles -= ...`), the `*_recalctimings` and clock calculations, overlays, hardware cursors, PCI/MCA configuration, ROM loading and the device tables: none of them take part in the blitter or the register state machines.
- `io_sethandler`/`mem_mapping_*` calls are left out. The mapping is modelled only as the values it derives: the aperture mask, the MMIO/video-memory overlap and the banked mask.
- `svga_read*_linear`/`svga_write*_linear` (in the SVGA core) are taken as a plain byte store into video memory, so the VGA latch and write-mode logic of that core is not part of this model. `xga_*_test` calls have no effect in the model. For the same reason the Mach64 banked writes do not mark changed blocks.
- `svga_out`/`svga_in` (the SVGA core) are not part of this model. `Vga.VgaCrtc.Out` returns the port and value it forwards, and `Vga.VgaCrtc.In` takes the core's answer as a parameter. `svga_recalctimings` becomes the `recalc` result.
- The W83787F's `serial_setup`, `lpt1_init`, `lpt1_irq` and `fdc_*` calls are returned as a list of effects, whose arguments are the decoded address, IRQ or value. The floppy controller's drive-type read-back is a parameter of `W83787F.SuperIo.Read`.
- The W83787F and VGA `io_sethandler` remapping in `w83787f_remap`, `vga_enable` and `vga_disable` is left out. The key value and the enable flag are modelled.
- The generic VGA decode in `gd54xx_out`/`gd54xx_in` (attribute, palette, DAC and CRTC extension registers) is left out. Only the graphics-register-to-MMIO forwarding table is modelled.
- `gd54xx_transparent_comp` reads its colour and mask bytes by indexing the registers as byte arrays, which depends on the host byte order. The model reads them as little-endian lanes.
- The `fatal()` of `gd54xx_mem_sys_dest` for pattern copy or colour expansion is modelled as a refusal recorded in the engine state (`rejected`), not as process exit.
- `decode_mask`, `vram_max` and `vram_mask` come from the SVGA core and are taken as given. `gd54xx_init` makes CL-GD54xx memory a power of two (src/video/vid_cl54xx.c:4388-4409) with `vram_mask` its size less one, so masking with it is taking the address modulo the size, and that modulo is what `Gd54xxMemory.Wrapped`, `Gd54xxDevice.BankedIndex`, `Gd54xxDevice.LinearIndex`, `Gd54xxModes45.Base` and `Gd54xxGeometry.AddMod` take. The model accepts any size of at least 64 KB that is a multiple of four bytes; for a size that is not a power of two its modulo is not a mask. `decode_mask` is taken as the same size less one; the code sets it so only for 1 MB, or 256 KB to 1 MB on the older chips (4435-4436), and otherwise leaves the SVGA core's value. Mach64 memory divides 2^32, so it is a power of two and masking is again the modulo.
- Mach64.Engine.LoadContext: `mach64_load_context` can follow a chain of contexts forever. The loop is bounded by a `fuel` parameter, so a chain longer than the fuel stops with a load bit still set.
- Mach64Memory.Store: a word or dword access whose bytes run past the end of memory wraps to the start in the model. The source writes past the end of `vram`.
- Mach64.Engine.ReadBanked: the banked reads `mach64_read`/`_readw`/`_readl` are modelled without a contract of their own. Their read-after-write property is stated on the pure functions (`Mach64Memory.BankedReadAfterWrite`).
- Mach64.Engine.BlitRect, Mach64.Engine.BlitLine, Mach64.Engine.BlitLine24, Mach64.Engine.Blit, Mach64.Engine.RectLoop, Mach64.Engine.RectVisit, Mach64.Engine.LineVisit and Mach64.Engine.Line24Visit state the memory they leave only as unchanged outside the scissor. The value each pixel writes is stated one pixel at a time: on `Mach64.Engine.DrawRect`, the `RectEffect`/`LineEffect`/`Line24Effect` functions and the lemmas about them.
- Mach64.Engine.WriteByte, Mach64.Engine.WordStore, Mach64.Engine.DwordStore, Mach64.Engine.WriteWord and Mach64.Engine.WriteDword: after a write that starts a fill, the registers are stated only up to DST_Y_X (`AgreeBeyondDstYX`), because the fill itself moves the destination; its drawing is stated on `Mach64.Engine.StartedFill` and `Mach64.Engine.StartedLine`. A word at 0x1ff meeting the host-data registers and the dword cases at 0x1fe and 0x32c, which the code splits differently, are not stated register by register.
- Mach64.Engine.LoadContext, Mach64.Engine.LoadCntlWrite, Mach64.Engine.WriteWord and Mach64.Engine.WriteDword: the context loaded is stated as `ContextLoaded` for the last context of the chain, and for `LoadCntlWrite` and the write methods only when `fuel` is 1; longer chains are stated by the load count and the cleared load bits.
- Mach64.Engine.LoadOne: when the context starts a fill, DST_Y_X is stated only up to agreement (the fill moves it). Slot 27 (0x330) is stated through the GUI_TRAJ_CNTL aliases it is split over.
- Mach64.Engine.StoreRegister: the `mach64_accel_write_fifo` registers are decoded into a register file, and the accel fields derived from them are computed by `mach64_start_fill`/`mach64_start_line`. Register read-back (`mach64_ext_readb` outside the bank registers) is not part of this model.
- Mach64.Engine.SetBank: `mach64_ext_writeb` is modelled only for the bank registers. Its other registers configure the CRTC, DAC and overlay.
- Gd54xx.Device.MmioReadL: for the upper two bytes outside the MMIO window, `gd543x_mmio_readl` passes the `gd54xx_t` object where `gd54xx_read` expects the `svga_t` one (src/video/vid_cl54xx.c:3370-3371). `svga` is not the first member of `gd54xx_t` (158-164), so what the code reads there is undefined. The model reads all four bytes through the SVGA object, as for the lower two (`MmioReadLOn` through `Read2On`).
- Gd54xx.Device.MmioReadW and Gd54xx.Device.MmioReadL: `gd543x_mmio_readw` and `gd543x_mmio_readl` combine their byte reads in one expression with `|` (src/video/vid_cl54xx.c:3346-3348, 3367-3372), and C leaves the order of those reads open. During a screen-to-system transfer each read takes the next buffer byte, so the order decides which byte lands in which lane; the model reads the lowest address first (`MmioReadWOn`, `MmioReadLOn`).
- Gd54xxModes45.WriteModes45: when the expansion's base lies within 15 bytes of the end of video memory, the model wraps the pixels past the end to the start of memory (`Wrap` in `StoredPixel`). The code masks only the base and writes past the end of `vram` (src/video/vid_cl54xx.c:2369-2371, 2379, 2391-2395, 2403).
- Gd54xxMemory.VideoMemory.Plot marks a 4 KB block as changed, but the frame counter stored in `changedvram` is not modelled.

## Findings

| source | as written | input that shows it | evidently intended | confidence | as-written member | corrected member |
|---|---|---|---|---|---|---|
| src/sio_w83787f.c:148-149 | the printer-port select bits are `regs[1] & 4` and `regs[1] & 5`, so the high bit is set whenever the low one is | register 1 = 0x2C, register 4 = 0: decodes as switched off, although reset (register 1 = 0x2C) sets the port up at 0x378/IRQ 7; no value of register 1 selects 0x278/IRQ 5 | select bits 4 and 5 of register 1, the bits the write handler reacts to (line 234) | not executed | W83787F.LptDecodeAsWritten, W83787F.LptAsWrittenMisses278, W83787F.LptAsWrittenDisagreesWithReset | W83787F.LptDecode, W83787F.LptDecodeSelects, W83787F.LptResetAgrees, W83787F.WriteEffectsPrinter, W83787F.SuperIo.WriteData, W83787F.SuperIo.Write |
| src/video/vid_ati_mach64.c:1137 | a word write at 0x32e tests `val & 0x30000` on the 16-bit word, which is never true, so it never loads a context | word 0x0000 at 0x32c, then word 0x0001 at 0x32e: CONTEXT_LOAD_CNTL becomes 0x10000, which a dword write loads (1153), but no context is loaded | test the updated CONTEXT_LOAD_CNTL, that is bits 0-1 of the high word | not executed | Mach64.HighWordNeverLoads, Mach64.HighWordMissesLoad | Mach64.HighWordLoadsBits, Mach64.WordPairIsDword, Mach64.Engine.WriteWord |
