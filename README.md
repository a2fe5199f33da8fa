# biefircate core, modelled in Dafny

biefircate boots a legacy BIOS-style operating system on a UEFI machine.
This project models its core logic and proves properties of that model:

- **stage 1** (a UEFI application, with an older variant):
  - grabs and manages base memory below 640 KiB;
  - loads the ELF32 stage 2 file;
  - converts the UEFI memory map into E820 ranges;
  - fakes Intel MP tables;
  - hands base-memory bounds to stage 2;
- **stage 2** (32-bit code):
  - the PCI configuration-space accessors;
  - interrupt-controller bring-up: ACPI RSDP, XSDT and MADT walk, I/O APIC masking and the 8259 PIC sequence;
  - PIT and RTC programming;
  - the INT 15h event-wait service;
  - the buffered console writer and the early UTF-8 frame-buffer console;
  - USB legacy-ownership handoff for EHCI and xHCI;
  - the option-ROM dispatch order;
- **the muon loader**: the boot-device search and the delays;
- **the ACPICA OS layer**: its memory and port hooks.

Hardware is modelled as state plus an ordered record of accesses. Examples:

- port traffic;
- PCI configuration dwords;
- mappings live at a time;
- frame-buffer requests.

Firmware services and device answers are oracles given as parameters.
A loop in the C code is a `while` loop in a method, proved against a reference function.
An object whose fields the C code updates is a class.
A fatal `error()` is a distinguished failure outcome, for example `ok == false`.
Code that loops for ever is a `Hang` or `Exhausted` outcome of a loop bounded by a fuel parameter.

Two details of the code that the model follows:

- The PCI address word out_pci_d_aligned writes (stage2/pci.h:64) shifts the whole location, while in_pci_d_aligned's (stage2/pci.h:48) keeps only its low 16 bits. The two agree exactly when bits 16 to 22 of the location are zero: bit 23 lands on bit 31, which both words set, and higher bits are shifted out.
- `bmem_fini` takes two arguments in stage1/bmem.c:262, but stage1/main.c:377 passes five. The model follows bmem.c.

## Model

| member | source | states |
|---|---|---|
| Common.RunFromZero | stage1/bmem.c:178-180 | the length n of the run of available pages starting at page 0: every page below n is available and page n, if it exists, is not |
| Common.CountFromZero | stage1/bmem.c:178-180 | the counting loop over the page bitmap returns exactly RunFromZero of the bitmap |
| Common.AlignDown | stage1/bmem.c:201 | `x & -align` for a power-of-two align is the greatest multiple of align at or below x |
| Common.AlignDownGreatest | stage1/bmem.c:201 | no aligned value at or below x lies above AlignDown(x) |
| Common.AlignUp | stage1/bmem.c:236 | `(x + align - 1) & -align` is a multiple of align in [x, x + align) |
| Common.AlignUpLeast | stage1/bmem.c:236 | every aligned value at or above x is at or above AlignUp(x), so AlignUp gives the least one |
| Magic.Truncate8 | common.h:44-47 | `(unsigned char)c` is reduction modulo 256 and keeps byte-sized values |
| Magic.Pack4Bytes | common.h:43-47 | byte k of the packed word is the k-th packed byte, lowest first |
| Magic.Magic32Bytes | common.h:43-47 | byte k (little-endian) of MAGIC32(a, b, c, d) is the k-th argument truncated to unsigned char |
| Magic.Magic32Injective | common.h:43-47 | on byte-sized characters equal MAGIC32 values have equal arguments |
| Magic.TagValues | common.h:49-50 | BP_PCID is 0x44494350 and BP_BMEM is 0x4d454d62 |
| Magic.TagsDistinct | common.h:49-50 | BP_PCID differs from BP_BMEM |
| Elf.DecodeEhdr | stage1/main.c:217-250 | the header fields the checks use are the little-endian Elf32_Ehdr fields at their offsets in the first 52 bytes |
| Elf.DecodePhdrs | stage1/main.c:252 | the program header table read as e_phnum consecutive 32-byte entries, entry i from bytes 32i..32i+32 |
| Elf.FileRead | stage1/main.c:138 | EFI_FILE_PROTOCOL.Read gives a prefix of the bytes from the position on, and an error exactly when the position is past the end |
| Elf.ReadExactly | stage1/main.c:138-150 | a read succeeds exactly when the file holds size bytes from pos on, and then yields those bytes; a short read is fatal |
| Elf.FirstOpenable | stage1/main.c:200-215 | the stage 2 names are tried in order: the result is the first name the volume holds, none before it is present, and None exactly when none is |
| Elf.PagesFor | stage1/main.c:283 | `(memsz + EFI_PAGE_SIZE - 1) / EFI_PAGE_SIZE` is the least number of 4 KiB pages covering memsz bytes |
| Elf.FreeAsWritten | stage1/main.c:166-177 | free_stage2_mem as written frees each of the first n headers at its own p_paddr with the page count of the FIRST header's p_memsz |
| ElfSegments.ReadStage2 | stage1/main.c:130-151 | in stage1/main.c a zero-size read returns without touching the file; otherwise, and always in s1-main.c, the read must fill the buffer |
| ElfSegments.Slack | stage1/main.c:261 | the slack is paddr mod 4096, and paddr minus the slack is page-aligned |
| ElfSegments.Plan | stage1/main.c:267-283 | the pages are ceil(memsz' / 4096) of the adjusted size; the older loader plans each header unchanged |
| ElfSegments.PlanCoversSegment | stage1/main.c:275-283 | without Elf32_Word wrap-around the adjusted segment starts page-aligned at or below p_paddr, ends where p_paddr + p_memsz ends, is covered by its pages, and keeps the file part where the header put it |
| ElfSegments.SegEffects | stage1/main.c:291-296 | stage1/main.c skips the seek and read of an empty file part and only zeroes; a failed read is fatal (None) |
| ElfSegments.EmptyReadPastEnd | s1-main.c:435-437 | the older loader reads even an empty file part, so an offset past the end of the file is fatal there but not in stage1/main.c |
| ElfSegments.SegmentImage | stage1/main.c:291-296 | a loaded segment lays down memsz' bytes from its aligned base; from p_paddr on they are the file's p_filesz bytes at p_offset followed by zeros up to p_memsz |
| ElfSegments.SegmentImageS1 | s1-main.c:435-437 | an s1-main.c segment holds from p_paddr the file's p_filesz bytes at p_offset and then zeros up to p_memsz |
| ElfSegments.FreeLoaded | stage1/main.c:166-177 | free_stage2_mem as evidently intended frees exactly the planned page ranges of the PT_LOAD headers before header n, in order, and allocates nothing |
| ElfSegments.LoadSegments | stage1/main.c:255-297 | the program-header loop returns exactly the loop ending and the allocation, copy, zero and free effects of the Segments reference definition, whose rejection and allocation-failure paths call free_stage2_mem as written (FreeAsWritten) |
| ElfSegments.SegmentsPages | stage1/main.c:255-297 | a loop that loads every header allocated exactly the planned range of each PT_LOAD header, in order, and freed nothing; one that rejects header k allocated the planned ranges of the PT_LOAD headers before k and then, as written, frees header 0's page count at the p_paddr of each of headers 0..k-1 |
| ElfSegments.FreeAsWrittenPages | stage1/main.c:166-177 | free_stage2_mem as written frees, for each of headers 0..n-1 in order, header 0's page count at that header's p_paddr, and allocates nothing |
| ElfSegments.AllocPlanLength | stage1/main.c:267-283 | the planned ranges of headers lo..hi-1 number at most hi - lo, exactly hi - lo when all of them are PT_LOAD, and then are their plans in order |
| ElfSegments.FreeAsWrittenAgrees | stage1/main.c:166-177 | the as-written free gives back exactly what the loop allocated for headers 0..n-1 if and only if all of them are PT_LOAD and each is planned at its own p_paddr with header 0's page count |
| ElfSegments.SegEffectsNoPages | stage1/main.c:291-296 | reading and zeroing a segment allocates and frees no pages |
| ElfSegments.FreeAsWrittenMismatch | stage1/main.c:171-174 | for one 1-page and one 3-page segment free_stage2_mem as written frees 1 page of the second; the corrected FreeLoaded frees what was allocated |
| Stage1Loader.LoadStage2 | stage1/main.c:179-306 | load_stage2 returns the outcome and effects of the LoadSpec reference definition: first openable name, header checks, program header read, segment loop with free_stage2_mem as written on its error paths |
| Stage1Loader.BadElfFrees | stage1/main.c:255-274 | a file rejected as a bad stage 2 in the segment loop at header k allocated the planned ranges of the PT_LOAD headers before k and frees, as written, header 0's page count at each of headers 0..k-1; the frees match the allocations exactly when FreedAsPlanned holds; a file rejected before the loop has no effects |
| Stage1Loader.LoadedAccepted | stage1/main.c:218-250 | a successful load returns e_entry of a header that passed all six checks (magic, both versions, ehsize, phentsize, phnum at most 16, EM_386), and frees nothing |
| S1Loader.LoadStage2 | s1-main.c:348-448 | the older load_stage2 (names STAGE2 then STAGE2_ALT, no slack) returns the outcome and effects of its LoadSpec, with free_stage2_mem as written on its error paths |
| S1Loader.BadElfFrees | s1-main.c:410-426 | the same for the older loader: the as-written frees, which match the allocations exactly when FreedAsPlanned holds |
| S1Loader.LoadedAccepted | s1-main.c:377-405 | a successful load returns e_entry of a header that passed the same six checks, and frees nothing |
| S1Loader.ShortFileFatal | s1-main.c:308-320 | a file shorter than an ELF header is a fatal short read, not a bad ELF file |
| S1MemoryMap.Avail | s1-main.c:101-132 | the avail[] bitmap after the descriptor loop: one entry per page below 0xff000 |
| S1MemoryMap.MarkDescriptor | s1-main.c:115-129 | after one descriptor each page is marked exactly when it was marked before or the descriptor marks it |
| S1MemoryMap.ProcessMemoryMap | s1-main.c:90-141 | an empty memory map or under 128 KiB of base memory is fatal; otherwise the result is 4 times the number of marked pages from page 0 in KiB, every page below it is marked by some descriptor and the next one is not |
| S1MemoryMap.MarkedByMembers | s1-main.c:104-132 | a page is marked exactly when some descriptor of the map marks it |
| S1MemoryMap.MarksWholePages | s1-main.c:115-125 | for a page-aligned descriptor of a type freed at ExitBootServices (conventional, loader, boot services), the pages marked are exactly the whole pages below 0xff000 inside its 64-bit range |
| Efi.DescEnd | stage1/main.c:339 | the end of a descriptor's range is start + pages * 4096 in wrapping 64-bit arithmetic, and equals the true end when that does not wrap |
| Handoff.E820Type | stage1/main.c:344-364 | loader, boot services and conventional memory become E820_RAM, ACPI reclaim E820_ACPI, ACPI NVS E820_NVS, EfiPalCode + 1 E820_PMEM, and every other type E820_RESERVED, each in both directions |
| Handoff.ToRange | stage1/main.c:342-365 | a kept descriptor is reported from max(start, BMEM_MAX_ADDR), with length end - start so that start + length is the 64-bit end, its E820 type, extended attribute 1 and its attributes |
| Handoff.ConvertMemoryMap | stage1/main.c:335-366 | the descriptor loop reports exactly the E820Map reference ranges |
| Handoff.E820MapMembers | stage1/main.c:340-341 | a range is reported exactly when some descriptor is not skipped (skipped: end at or below BMEM_MAX_ADDR and not 0) and becomes it; every reported range starts at or above BMEM_MAX_ADDR with extended attribute 1 |
| Handoff.KeptRangeIsUpperPart | stage1/main.c:342-343 | a kept descriptor that does not wrap is reported as exactly its part above BMEM_MAX_ADDR |
| Handoff.PrepareToHandOver | stage1/main.c:316-389 | the memory part of prepare_to_hand_over: the E820 ranges, bmem_fini's rounding and margin check, then the BP_BMEM bounds, and a result whose KiB count times 1024 is the run-time top |
| MpTables.Ascii | s1-main.c:192-193 | the signature and identifier strings as their bytes |
| MpTables.LapicAddrBits | s1-main.c:208 | the local APIC address is the IA32_APIC_BASE MSR masked to bits 12 and up, kept to 32 bits, so it is 4 KiB aligned |
| MpTables.LapicIdRecovers | s1-main.c:239 | the corrected processor entry takes the APIC ID from bits 31..24 of the ID register, whatever the low bits hold |
| MpTables.LapicIdAsWrittenLosesId | s1-main.c:239 | as written `(uint8_t)lapic[0x20 / 4]` takes the low byte, so APIC ID 1 is reported as 0 |
| MpTables.Cksum | s1-main.c:170-174 | the checksum byte makes the byte sum 0 modulo 256 |
| MpTables.Checksummed | s1-main.c:168-175 | update_cksum changes only the checksum byte |
| MpTables.ChecksummedSumsToZero | s1-main.c:171 | because the checksum byte is cleared first, an area that contains it sums to 0 modulo 256 afterwards |
| MpTables.ChecksummedShift | s1-main.c:168-175 | checksumming a part of a larger image touches only that part |
| MpTables.UpdateCksum | s1-main.c:168-175 | the in-place loop leaves memory equal to Checksummed of the old memory |
| MpTables.WriteBytes | s1-main.c:213-252 | a memcpy or field store lays the bytes down from its address and changes nothing else |
| MpTables.FltFields | s1-main.c:213-219 | the floating pointer's 16 bytes before the checksum |
| MpTables.ConfFields | s1-main.c:225-236 | the configuration table header's 44 bytes before the checksum |
| MpTables.CpuHead | s1-main.c:238-244 | the written part of the processor entry, for a given APIC ID |
| MpTables.IoapicFields | s1-main.c:246-252 | the 8 bytes of the I/O APIC entry |
| MpTables.MakeBundle | s1-main.c:204-256 | the 88 bytes of the two structures for a given length field and APIC ID |
| MpTables.Bundle | s1-main.c:204-256 | the 88 bytes the tables occupy once fake_mp_table is done as written: length field 16, APIC ID the low byte of the ID register |
| MpTables.BundleFixed | s1-main.c:204-256 | the evidently intended tables: length field 1 paragraph, APIC ID from bits 31..24 |
| MpTables.ConfTable | s1-main.c:225-256 | the header with its two entries, checksummed over base_tbl_len bytes |
| MpTables.WriteFloatingPointer | s1-main.c:213-220 | the floating pointer, its length field set to its size in bytes (16), is written and then checksummed over its 16 bytes; nothing else changes |
| MpTables.WriteConfTable | s1-main.c:225-256 | the header, the processor entry with the low byte of the ID register as APIC ID, and the I/O APIC entry are written and the table checksummed; only those bytes change, and the processor entry's reserved bytes keep what memory held |
| MpTables.FakeMpTable | s1-main.c:177-257 | the as-written tables (Bundle) go at (base_kib - 1) * 1024 and memory outside their 88 bytes is left as it was |
| MpTables.BundleChecksums | s1-main.c:215-256 | as written, the floating pointer's length byte holds 16 and it sums to 0 modulo 256 over those 16 bytes; the header and entries sum to 0 over base_tbl_len bytes, which is the size of the header and both entries |
| MpTables.MakeBundleChecksums | s1-main.c:215-256 | the same sums and lengths whatever length field and APIC ID the tables carry |
| MpTables.BundleLayout | s1-main.c:213-252 | as written: "_MP_" pointing at the "PCMP" header, length byte 16, spec revision 4, IMCR present, two entries (this processor as the enabled bootstrap processor under the low byte of its ID register, its reserved bytes as memory held them, then one enabled I/O APIC at IOAPIC_ADDR), the local APIC address from the MSR |
| MpTables.MakeBundleLayout | s1-main.c:213-252 | the same layout whatever length field and APIC ID the tables carry |
| MpTables.FltLengthFinding | s1-main.c:215 | the length as written is not the size in 16-byte paragraphs that section 4.1 of the MultiProcessor Specification 1.4 asks for; BundleFixed's is, and BundleFixed names the processor by bits 31..24 |
| Pci.AddressesAgree | stage2/pci.h:46-66 | the write-side address word `1 << 31 \| locn << 8 \| off` equals the read-side `1 << 31 \| (locn & 0xffff) << 8 \| off` exactly when bits 16..22 of locn are 0 |
| Pci.AddressFields | stage2/pci.h:48-64 | both address words set the enable bit 31 and carry the offset in their low byte; the read word carries the low 16 bits of locn in bits 8..23 |
| Pci.ByteOf | stage2/pci.c:44-51 | byte i of a dword is below 0x100 |
| Pci.CombineBytes | stage2/pci.c:43-51 | for k = off & 3 in 1..3 the read returns, little-endian, bytes k..k+3 of the dword pair at aoff and aoff + 4 |
| Pci.MergeBytes | stage2/pci.c:61-79 | for k in 1..3 the write keeps the low k bytes of the first dword and the high 4 - k bytes of the second, and lays v's bytes over the four between |
| Pci.CombineMerge | stage2/pci.c:37-80 | reading back the merged pair at the same k gives the written dword |
| Pci.WriteThenRead | stage2/pci.c:37-80 | with RAM semantics and a locn whose two address words agree, a corrected write followed by a read at the same offset returns the value, and dwords the write does not touch are unchanged |
| Pci.RmwDwords | stage2/pci.c:61-79 | the read-modify-write stores the merged low dword at aoff and the merged high dword at aoff + 4, and leaves every other dword alone |
| Pci.AlignedWriteAsWrittenBreaks | stage2/pci.c:59-61 | as written the aligned case falls into case 1: writing 0x12345678 at offset 0 leaves 0x34567878 there and 0x12 in the low byte of the next dword, where the corrected routine reads back 0x12345678 |
| Pci.AlignedWords | stage2/pci.h:48-64 | an address word built from an aligned offset has its low two bits clear |
| Pci.ReadAddressWordsAligned | stage2/pci.c:39-51 | every aligned read issued by in_pci_d_maybe_unaligned uses an address with the low two bits clear, whatever the offset |
| Pci.RmwAddressWordsAligned | stage2/pci.c:61-79 | so does every access of a read-modify-write |
| Pci.WriteAddressWordsAligned | stage2/pci.c:55-81 | so does every access of a write, as written or corrected |
| Pci.SecondDwordWraps | stage2/pci.c:39-45 | offsets are 8-bit: at offsets 0xfd..0xff the second dword is the one at offset 0 |
| Pci.PciHost.OutpdW | stage2/pci.h:48-65 | outpd_w to 0xcf8 sets the address latch, to 0xcfc stores the latched dword; the write is traced |
| Pci.PciHost.InpdW | stage2/pci.h:49 | inpd_w at 0xcfc returns the latched dword and changes nothing but the trace |
| Pci.PciHost.InPciDAligned | stage2/pci.h:46-50 | in_pci_d_aligned returns the dword at the read-side address and traces one address write and one data read |
| Pci.PciHost.OutPciDAligned | stage2/pci.h:62-66 | out_pci_d_aligned stores v at the write-side address and traces one address write and one data write |
| Pci.PciHost.InPciDMaybeUnaligned | stage2/pci.c:37-53 | the result is ReadValue (one aligned read for k = 0, two combined otherwise), with exactly the port accesses of ReadIo and no change to configuration space |
| Pci.PciHost.RmwPair | stage2/pci.c:61-79 | one read-modify-write arm: read, merge and write the first dword, then the second |
| Pci.PciHost.OutPciDMaybeUnaligned | stage2/pci.c:55-81 | the corrected routine, whose aligned case ends in a break, has the space and port accesses of WriteSpec |
| Pci.PciHost.OutPciDMaybeUnalignedAsWritten | stage2/pci.c:55-81 | the routine as written, falling through from the aligned case into case 1, has the space and port accesses of WriteSpecAsWritten |
| Pci.PciHost.InPciD | stage2/pci.h:53-59 | in_pci_d takes either path (which one is up to the compiler) and both give the same dword with the same port accesses |
| Pci.PciHost.OutPciD | stage2/pci.h:69-75 | out_pci_d writes as out_pci_d_aligned when the compiler knows the offset is aligned, and otherwise as out_pci_d_maybe_unaligned as written, falling through from the aligned case (WriteSpecAsWritten) |
| Pci.AlignedWriteAsWritten | stage2/pci.c:55-66 | at an aligned offset the as-written routine leaves the dword as its low byte under v shifted up a byte, and the next dword's low byte as v's top byte |
| Pcid.LocnDecodes | stage2/main.c:69-72 | decoding a packed PCI location gives back its segment, bus, device and function |
| Pcid.LocnEncodes | stage2/main.c:69-72 | every location is the packing of its decoded fields |
| Acpi.SignatureText | stage2/irq.c:126-142 | the RSDP and MADT signatures compared are the bytes of "RSD PTR " and "APIC" |
| Acpi.TabSizesAgree | stage2/irq.c:54-80 | acpi_map_tab leaves mapped, and acpi_unmap_tab unmaps, the same size: the larger of the table's length and the union's size |
| Acpi.NumTabsFits | stage2/irq.c:128-129 | for an XSDT at least a header long, the entries counted are exactly those that fit within its length |
| Acpi.NumTabsWraps | stage2/irq.c:128-129 | a length below the header size wraps the unsigned subtraction, so more than 0x1fff_fffb entries are counted, reaching past the table |
| Acpi.IcsFromWalk | stage2/irq.c:99-120 | the structures listed are exactly the positions the `ic += length` loop visits before it lands on the table's end |
| Acpi.WalkReachesIcs | stage2/irq.c:99-120 | if some step of the loop lands on the end, the list of structures exists |
| Acpi.ZeroLengthStuck | stage2/irq.c:119 | a structure of length 0 keeps the loop where it is forever |
| Acpi.IoApicsAt | stage2/irq.c:104-107 | no more I/O APIC blocks than structures |
| Acpi.IoApicsAtFrom | stage2/irq.c:104-107 | every block listed is the address field of an I/O APIC structure among those visited |
| Acpi.IoApicsAtAll | stage2/irq.c:104-107 | every I/O APIC structure visited contributes its address field |
| Apic.IoApicLayout | apic.h:35-41 | IOREGSEL is at 0, IOREGWIN at the next 16-byte boundary after it, and the block's size is the end of IOREGWIN rounded up to 16 |
| Apic.RedTblLayout | apic.h:47-48 | the 24 low halves are distinct even registers 0x10..0x3e, each high half follows its low half, and no high half is a low half |
| Apic.MaskedBit | apic.h:51 | the mask bit is bit 16 |
| Apic.IsRedTblLoMeans | apic.h:47 | the membership test holds exactly for the low halves of the first n entries |
| Apic.MaskEntriesEffect | stage2/irq.c:109-113 | the masking loop sets bit 16 in the low half of each of the first n entries, changes no other register of any I/O APIC, and leaves the select register of that I/O APIC on the last entry |
| Apic.OrWindowHit | stage2/irq.c:112 | `IOREGWIN \|= bits` ors the bits into the selected register |
| Apic.OrWindowMiss | stage2/irq.c:112 | and changes no other register |
| Apic.MaskEntriesIdempotent | stage2/irq.c:109-113 | masking all 24 entries twice leaves every register as masking them once |
| Irq.MaskIo | stage2/irq.c:109-113 | n iterations of the loop make 2n register stores |
| Irq.IoApicIoShape | stage2/irq.c:106-115 | each I/O APIC costs one uncached map of its block, then for i = 0..23 a store of IOREDTBLLO(i) to IOREGSEL and of that entry's old value with bit 16 set to IOREGWIN, then one unmap |
| Irq.MaskAllAppend | stage2/irq.c:101-120 | masking the I/O APICs of a ++ b is masking those of a, then those of b, with the events concatenated |
| Irq.MaskAllEffect | stage2/irq.c:101-120 | masking a list of I/O APICs sets bit 16 in all 24 low halves of each one listed, however often, and leaves every other register as it was |
| Irq.FirstRsdp | stage2/irq.c:158-160 | the index of the first RSDP record: it is one and no record before it is |
| Irq.FirstRsdpUnique | stage2/irq.c:158-160 | any index with that property is the first RSDP record |
| Irq.FindRsdp | stage2/irq.c:158-160 | the `bp = bp->next` walk stops at the first RSDP record; one must exist since there is no end test |
| Irq.Platform.MemVaMap | stage2/irq.c:59 | mem_va_map returns the window for the address and size, adds it to the live mappings and records the map (also called at lines 108 and 163) |
| Irq.Platform.MemVaUnmap | stage2/irq.c:63 | mem_va_unmap removes a live window and records the unmap (also called at lines 114 and 166) |
| Irq.Platform.StoreSel | stage2/irq.c:111 | a store to IOREGSEL through a live mapping sets the select register |
| Irq.Platform.OrWin | stage2/irq.c:112 | `IOREGWIN \|= bits` through a live mapping ors the bits into the selected register, storing the new value |
| Irq.Platform.AcpiMapTab | stage2/irq.c:54-67 | acpi_map_tab maps the union-sized header, and if the length is larger it unmaps that and maps the whole table: one window of the larger size stays live |
| Irq.Platform.AcpiUnmapTab | stage2/irq.c:73-80 | acpi_unmap_tab unmaps exactly that window |
| Irq.Platform.MaskIoApic | stage2/irq.c:106-115 | the IOAPIC case masks all 24 entries of the block with the events of IoApicIo and leaves no mapping behind |
| Irq.Platform.ProcessMadt | stage2/irq.c:82-121 | acpi_process_madt masks every I/O APIC the MADT lists, in order, with no mapping left behind |
| Irq.Platform.ProcessTable | stage2/irq.c:132-135 | one XSDT entry: the table is mapped, processed if its signature is "APIC", and unmapped |
| Irq.Platform.ProcessXsdt | stage2/irq.c:123-137 | acpi_process_xsdt does that for each of NumTabs entries in order |
| Irq.Platform.ProcessRsdp | stage2/irq.c:139-149 | a wrong RSDP signature halts with nothing changed; otherwise the XSDT is mapped, processed and unmapped |
| Irq.PicInit | stage2/irq.c:173-186 | the PIC part issues the twelve port writes of PicIo, each followed by the delay |
| Irq.Platform.IrqInit | stage2/irq.c:151-187 | irq_init maps the first RSDP record's RSDP; on a bad signature it halts with that mapping live and the PICs untouched, otherwise every I/O APIC reachable is masked, the RSDP is unmapped and the PICs programmed |
| Irq.PicIoValues | stage2/irq.c:173-186 | the port and byte of each write in order: 0x20/0xa0 get 0x11, the data ports 0x08/0x70, 4/2, 1/1, the masks 0xf8/0xfe, then the commands 0x20 |
| Irq.PicConfiguration | stage2/irq.c:173-186 | the writes start an edge-triggered cascaded initialisation with ICW4, give vector bases that are multiples of 8, put the slave on master line 2 with identity 2, select 8086 mode without auto-EOI, and leave unmasked exactly lines 0..2 of the master and line 0 of the slave |
| Ports.CmosIndices | stage2/stage2.h:491-518 | no more CMOS index selections than accesses |
| Ports.CmosIndicesAppend | stage2/stage2.h:491-518 | the selections of two traces in a row are those of each, in order |
| Ports.CmosHelperIndices | stage2/stage2.h:491-518 | cmos_read and cmos_write select exactly the index they are given, cmos_home selects status register D |
| Ports.OpsIoAppend | stage2/stage2.h:491-518 | the traffic of two runs of helper calls is the concatenation of each |
| Ports.OpsIndices | stage2/stage2.h:491-518 | the indices selected at port 0x70 are those of the helper calls, one each, in order |
| Ports.Reads | stage2/stage2.h:491-496 | no more reads than helper calls |
| Ports.Answer | stage2/stage2.h:427-434 | the k-th read returns the k-th recorded byte, and 0xff past the end of the recording |
| Ports.Bus.OutpW | stage2/stage2.h:443-449 | outp_w writes the byte to the port and then to the dummy port 0x80, and reads nothing |
| Ports.Bus.InpW | stage2/stage2.h:427-434 | inp_w returns the next answer, traced as the read and then the dummy write |
| Ports.Bus.CmosRead | stage2/stage2.h:491-496 | cmos_read selects the index at 0x70 and returns the next answer read at 0x71 |
| Ports.Bus.CmosWrite | stage2/stage2.h:503-508 | cmos_write selects the index at 0x70 and writes the byte to 0x71 |
| Ports.Bus.CmosHome | stage2/stage2.h:514-518 | cmos_home selects status register D, with the NMI-disable bit clear |
| Time.IndexValues | stage2/time.c:80-88 | the status-register indices used carry the NMI-disable bit |
| Time.PitIoBytes | stage2/time.c:71-73 | the PIT gets 0x36 at port 0x43 (channel 0, low then high byte, mode 3, binary) and then a divisor of 0 at port 0x40 |
| Time.StatusA | stage2/time.c:82-83 | status A is written back with its UIP bit kept and the rate field set to 1024 Hz |
| Time.StatusB | stage2/time.c:84-86 | status B is written back with freeze, periodic and update-ended interrupts cleared, the alarm interrupt set and bits 0..3 kept |
| Time.UipReads | stage2/time.c:79-81 | status A is read between 1 and retries + 1 times |
| Time.UipReadsStop | stage2/time.c:79-81 | the poll stops at the first read with UIP clear or after its last retry, and every earlier read showed UIP set |
| Time.UipReadsStep | stage2/time.c:79-81 | a read with UIP set and a retry left is followed by the rest of the poll with one retry fewer |
| Time.PollOpsAt | stage2/time.c:79-81 | read j of the poll reads status A and returns answer r0 + j |
| Time.TimeInit | stage2/time.c:66-90 | time_init's port traffic is TimeInitIo of the answers, and it reads UipReads + 2 bytes |
| Time.TimeInitIoSplit | stage2/time.c:66-90 | that traffic is the PIT programming, then the poll, then the RTC programming that follows it |
| Time.ProgramPit | stage2/time.c:71-73 | the PIT programming is PitIo, with no read |
| Time.PollStatusA | stage2/time.c:79-81 | the do-while loop performs exactly the poll of UipReads reads and returns the last status read |
| Time.ProgramRtc | stage2/time.c:82-89 | status A written, status B read and written, status C read, then cmos_home: two reads |
| Time.RtcOpsIo | stage2/time.c:82-89 | the traffic of those calls in order |
| Time.TimeInitShape | stage2/time.c:66-81 | the traffic opens with the PIT programming and status A is read between once and 0x10000 times |
| Time.TimeInitIndices | stage2/time.c:79-89 | every CMOS index selected before the final cmos_home disables NMI, and the last one is status D with NMI enabled |
| Time.TimeInitOpsNmi | stage2/time.c:79-89 | as helper calls: all but the last carry CMOS_NMI_DIS and the last is cmos_home |
| Time.PitIndices | stage2/time.c:71-73 | the PIT programming selects no CMOS register |
| Time.RtcIndex | stage2/time.c:82-88 | the four status-register accesses after the poll disable NMI |
| Bytes.Le16Bytes | s1-main.c:177-257 | a 16-bit field stored low byte first reads back as the value |
| Bytes.Le32Bytes | s1-main.c:177-257 | a 32-bit field stored low byte first reads back as the value |
| Bytes.Le16At | s1-main.c:177-257 | a 16-bit field reads back from anywhere inside a larger buffer |
| Bytes.Le32At | s1-main.c:177-257 | a 32-bit field reads back from anywhere inside a larger buffer |
| Bytes.SumAppend | s1-main.c:168-175 | the byte sum of a concatenation is the sum of the sums |
| Bytes.SumUpdate | s1-main.c:168-175 | replacing one byte changes the sum by the difference |
| Bda.MkFp16 | stage2/stage2.h:344-349 | MK_FP16 puts the segment in bits 31..16 and the offset in bits 15..0 |
| Bda.FpUnpackPack | stage2/stage2.h:344-349 | every far pointer is the packing of its two halves |
| Bda.CsCallTarget | stage2/stage2.h:351-358 | rm16_cs_call calls through stage 2's 16-bit code segment and the low 16 bits of the callee's address |
| Bda.Linear | stage2/stage2.h:41-45 | a segment:offset pair names a real-mode address at most 0xffff:0xffff, below 0x10_fff0 |
| Bda.BdaBase | stage2/stage2.h:41-45 | BDA_SEG:0 is the address of the `bda` structure, 0x400 |
| Bda.OffsetPrefix | stage2/stage2.h:202-280 | members of a packed prefix lie where they lie in the prefix alone |
| Bda.OffsetAppend | stage2/stage2.h:202-280 | members after a packed prefix lie the prefix's size further on |
| Bda.SizeAppend | stage2/stage2.h:202-280 | the size of a packed structure is the sum of its parts' sizes |
| Bda.PortsLayout | stage2/stage2.h:204-214 | the port words end at 0x12, wait_cntdn_low is at 0x12 and base_kib at 0x13 |
| Bda.BdaNames | stage2/stage2.h:202-280 | the members stage 2 uses are at positions 9, 10, 35, 71, 72 and 73 with their C names and widths |
| Bda.BdaLayout | stage2/stage2.h:202-280 | the packed layout puts wait_cntdn_low at 0x12, base_kib at 0x13, timer at 0x6c, p_wait_flag at 0x98, wait_cntdn at 0x9c and wait_active at 0xa0, and the structure ends at 0xac |
| Bda.Store32 | stage2/stage2.h:275-276 | a 32-bit store changes only its four bytes |
| Bda.LoadStore32 | stage2/stage2.h:275-276 | a stored word reads back as itself |
| Bda.Load32Same | stage2/stage2.h:275-276 | a word reads the same from memories that agree on its four bytes |
| Bda.WithAh | stage2/stage2.h:290-298 | storing ah changes byte 1 of eax and nothing else |
| Bda.RegsImage | stage2/stage2.h:288-342 | the packed register block is 42 bytes |
| Bda.WordViews | stage2/stage2.h:290-298 | in a register stored little-endian, al is byte 0, ah byte 1, ax the first two bytes |
| Bda.RegsImageLayout | stage2/stage2.h:288-342 | eax, ecx, edx and ebx are at offsets 0, 4, 8 and 12 and flags at 40 |
| Bda.SetCarry | stage2/16/isr-15.c:38 | `flags \|= EFL_C` sets the carry and keeps the other flags |
| Bda.ClearCarry | stage2/16/isr-15.c:73 | `flags &= ~EFL_C` clears the carry and keeps the other flags (also line 59) |
| Isr15.IdxBNmi | stage2/16/isr-15.c:48-49 | status B is selected with NMIs disabled |
| Isr15.WaitActiveFlag | stage2/16/isr-15.c:96 | BDA_SEG:offsetof(bda_t, wait_active) is the wait_active byte |
| Isr15.RealMode.PokeB | stage2/16/isr-15.c:56-57 | pokeb stores one byte at seg:off |
| Isr15.RealMode.StartWait | stage2/16/isr-15.c:42-52 | with a nonzero interval: p_wait_flag, wait_cntdn = interval - 1 and wait_cntdn_low = 0xff are stored, status B is read and written back with the periodic interrupt on, then cmos_home, then wait_active |
| Isr15.RealMode.WaitUs | stage2/16/isr-15.c:30-60 | wait_us changes memory, registers and ports as WaitUsMem, WaitUsRegs and WaitUsOps say |
| Isr15.RealMode.CancelWait | stage2/16/isr-15.c:62-74 | cancel_wait changes memory and ports as CancelMem and CancelOps say, and clears the carry |
| Isr15.RealMode.Int15 | stage2/16/isr-15.c:76-104 | isr16_0x15_impl dispatches on AH and AL as Int15Mem, Int15Regs, Int15Ops and Int15Outcome say |
| Isr15.WaitUsArmCase | stage2/16/isr-15.c:41-59 | the arm case of wait_us: which stores, which CMOS calls, carry cleared |
| Isr15.WaitUsBusyCase | stage2/16/isr-15.c:35-40 | the busy case: nothing stored, AH = 83h and carry set |
| Isr15.WaitUsZeroCase | stage2/16/isr-15.c:53-59 | the zero-interval case: bit 7 of the flag byte set, carry cleared |
| Isr15.WaitUsBusy | stage2/16/isr-15.c:35-40 | a call while a wait is active fails with AH = 83h and carry set, keeps AL, CX and DX, and touches neither memory nor the CMOS |
| Isr15.WaitUsArms | stage2/16/isr-15.c:41-59 | with no wait active and a nonzero interval the BDA records the flag pointer, interval - 1, 0xff and wait_active, no byte outside those fields changes, status B gets the periodic bit with its other bits kept, NMIs are disabled on both accesses, and only the carry changes among the registers |
| Isr15.WaitUsZero | stage2/16/isr-15.c:53-59 | with a zero interval only bit 7 of the flag byte changes, the CMOS is untouched and the carry is cleared |
| Isr15.CancelWaitEffect | stage2/16/isr-15.c:62-74 | with a wait active, wait_active is cleared and status B is written back with the periodic interrupt off; the read disables NMIs but the write selects plain status B; with none active nothing changes |
| Isr15.Int15Unsupported | stage2/16/isr-15.c:90-93 | AH = 83h with AL other than 0 or 1 fails with AH = 86h and carry set |
| Isr15.Int15Unimplemented | stage2/16/isr-15.c:101-102 | any AH other than 83h and 86h goes to isr16_unimpl with eax, edx and 15h and changes nothing |
| Isr15.Int86Outcome | stage2/16/isr-15.c:95-100 | AH = 86h is left waiting for the interrupt exactly when it armed a wait; a zero interval sets bit 7 of wait_active, so the loop ends at once; a busy wait fails with carry set |
| Conio.Crlf | stage2/conio.c:75-81 | the translation is at least as long as its input |
| Conio.CrlfAppend | stage2/conio.c:75-81 | the translation of a concatenation is the concatenation of translations |
| Conio.CrlfPairs | stage2/conio.c:75-81 | every line feed sent is immediately preceded by a carriage return |
| Conio.CrlfDropCr | stage2/conio.c:75-81 | removing the inserted carriage returns gives back the formatter's output |
| Conio.CrlfNoLoneLf | stage2/conio.c:75-81 | the translation never starts with a line feed |
| Conio.FullLength | stage2/conio.c:62-73 | full chunks hold TB_SZ characters each |
| Conio.ChunkCount | stage2/conio.c:62-91 | chunks that are full but the last, which is not empty, hold more than TB_SZ characters per extra chunk |
| Conio.PfCtx.PutC1 | stage2/conio.c:62-73 | our_putc_1 hands over a full buffer of TB_SZ characters first, then stores the character |
| Conio.PfCtx.PutC | stage2/conio.c:75-81 | our_putc writes a carriage return before a line feed |
| Conio.Vcprintf | stage2/conio.c:83-91 | every chunk handed over holds 1..TB_SZ characters, all but the last are full; on success they make up the whole translated output; on a formatter error the last partial buffer is dropped, so what was sent is a prefix missing 1 to TB_SZ characters (all TB_SZ of them when the output ends on a full buffer) |
| Conio.Cputs | stage2/conio.c:104-108 | cputs sends the translated string |
| Conio.Putch | stage2/conio.c:110-114 | putch sends one chunk: the character, or CR LF for a line feed |
| Bda.KbFdLayout | stage2/stage2.h:216-226 | the keyboard and floppy members take 0x32 bytes |
| Bda.VideoLayout | stage2/stage2.h:227-236 | the video members take 0x1e bytes |
| Bda.TimerHdLayout | stage2/stage2.h:237-246 | the restart vector to hd_port_off take 0x11 bytes, with timer 5 bytes in |
| Bda.CntdnLayout | stage2/stage2.h:247-254 | the eight count-down bytes take 8 bytes |
| Bda.KbVideoLayout | stage2/stage2.h:255-261 | kb_buf_start to the two padding bytes take 0x0b bytes |
| Bda.DiskLayout | stage2/stage2.h:262-274 | the disk-controller members take 0x0d bytes |
| Bda.WaitLayout | stage2/stage2.h:275-279 | the wait members take 0x14 bytes, with wait_cntdn 4 and wait_active 8 bytes in |
| Bda.HeadBodySizes | stage2/stage2.h:202-280 | the members up to hd_port_off take 0x78 bytes with timer at 0x6c, and those up to kb_stat2 end at p_wait_flag's offset 0x98 |
| Conio.PfCtx.constructor | stage2/conio.c:48-52 | the print context starts with an empty buffer and nothing handed over |
| UsbCommon.LegacyBits | stage2/usb.c:38-41 | BIOS-owned is bit 16, OS-owned bit 24, the USB SMI enable bit 0 and the SMI-on-OS-ownership enable bit 13 |
| UsbCommon.Writes | stage2/usb-ehci.c:51-82 | no more writes than accesses |
| UsbCommon.WritesAppend | stage2/usb-ehci.c:51-82 | the writes of two runs of accesses are those of each, in order |
| UsbCommon.RequestBits | stage2/usb-ehci.c:62 | the ownership request clears BIOS-owned, sets OS-owned and keeps every other bit |
| UsbCommon.RequestUnchanged | stage2/usb-ehci.c:62-66 | the request changes nothing exactly when the controller is OS-owned and not BIOS-owned already |
| UsbCommon.SpinWrites | stage2/usb-ehci.c:69-71 | the spin on BIOS-owned only reads, and in configuration space when its register is there |
| UsbCommon.SpinCount | stage2/usb-ehci.c:69-71 | with BIOS-owned read set N times and then clear, the spin makes exactly N + 1 reads, of those values in order, and ends |
| UsbCommon.SpinNeverReleased | stage2/usb-ehci.c:69-71 | while no read shows BIOS-owned clear, the spin goes on reading |
| UsbCommon.Spin | stage2/usb-ehci.c:69-71 | the do-while loop makes the reads SpinReads lists and reports whether one showed the controller released |
| UsbCommon.MappedAppend | stage2/usb-xhci.c:98-124 | sound use of mappings composes along a run of accesses |
| UsbCommon.MappedOne | stage2/usb-xhci.c:98-124 | one access is sound when it lies inside an open mapping, or is a map or an unmap of an open one |
| UsbCommon.Bracket | stage2/usb-xhci.c:98-124 | mapping a region, touching only bytes inside it and unmapping it is sound and leaves the open mappings as they were |
| UsbCommon.BracketMapped | stage2/usb-xhci.c:139-153 | so is bracketing any body that is sound with the region open and leaves the open mappings as it found them |
| UsbCommon.CfgOnlyAppend | stage2/pci.h:53-75 | configuration-space-only runs compose |
| UsbCommon.CfgOnlyInside | stage2/pci.h:53-75 | configuration accesses go through ports and need no mapping |
| UsbCommon.InsideMapped | stage2/usb-xhci.c:98-124 | accesses inside a mapping already open are sound and open or close nothing |
| UsbEhci.FindLegacy | stage2/usb-ehci.c:54-81 | the reference walk: a capability it finds is at an offset of at least 0x40 and carries the legacy id |
| UsbEhci.ClaimLegacy | stage2/usb-ehci.c:59-75 | the legacy-capability branch as a method: the accesses and outcome of Claim; each configuration write recorded as one dword write |
| UsbEhci.StopLegacy | stage2/usb-ehci.c:51-82 | ehci_stop_legacy's loop makes the accesses and ends as StopWalk says; each configuration write recorded as one dword write |
| UsbEhci.StopWalkSplits | stage2/usb-ehci.c:54-81 | the walk reads each capability it visits and then either handles the legacy capability the reference walk finds or ends as the reference walk does, off the list or out of steps |
| UsbEhci.VisitedReads | stage2/usb-ehci.c:55-80 | before the legacy capability the walk only reads configuration space |
| UsbEhci.StopWrites | stage2/usb-ehci.c:51-82 | the only write is the ownership request, once, to USBLEGSUP of the capability the reference walk finds, and only when the request changes it; USBLEGCTLSTS is never written; each configuration write recorded as one dword write |
| UsbEhci.ClaimWrites | stage2/usb-ehci.c:59-75 | the legacy branch writes the request to USBLEGSUP exactly when it changes the register; each configuration write recorded as one dword write |
| UsbEhci.StopOutcome | stage2/usb-ehci.c:51-82 | without a legacy capability the routine ends off the list or out of steps; with one it returns at once when the request changes nothing, returns after the spin when the firmware lets go, and spins otherwise |
| UsbEhci.StopSpins | stage2/usb-ehci.c:66-75 | when the request is written and USBLEGSUP then reads BIOS-owned N times before reading clear, the write is followed by exactly N + 1 reads of USBLEGSUP, the last accesses of the routine; each configuration write recorded as one dword write |
| UsbEhci.StopCfgOnly | stage2/usb-ehci.c:51-82 | ehci_stop_legacy touches configuration space only |
| UsbEhci.ClaimCfgOnly | stage2/usb-ehci.c:59-75 | so does its legacy branch |
| UsbEhci.UsbEhciInitBus | stage2/usb-ehci.c:84-102 | usb_ehci_init_bus maps 0x200 bytes, reads HCCPARAMS, stops the legacy support and unmaps the 0x200 bytes; each configuration write recorded as one dword write |
| UsbEhci.InitBusMapped | stage2/usb-ehci.c:84-102 | whenever it returns it touches registers only inside the region it mapped and unmaps that region |
| UsbEhci.RequestAsWrittenWithdraws | stage2/usb-ehci.c:66-68 | the ownership request through out_pci_d as written, at an aligned USBLEGSUP, ends with OS-owned clear, sets the USB SMI enable of USBLEGCTLSTS and keeps that register's other bytes |
| UsbEhci.RequestCorrected | stage2/usb-ehci.c:66-68 | the single dword write the walk records leaves the request in USBLEGSUP, OS-owned set and BIOS-owned clear, and at an aligned offset leaves USBLEGCTLSTS as it was |
| UsbXhci.HcLayout | stage2/usb-xhci.c:42-68 | HCCPARAMS1 is at offset 0x10 of the packed capability registers, which are 0x20 bytes; an extended capability is 8 bytes |
| UsbXhci.Advance | stage2/usb-xhci.c:97 | `pa += (uint64_t) off * 4` wraps at 64 bits |
| UsbXhci.FindLegacy | stage2/usb-xhci.c:91-125 | the reference walk: a capability it finds carries the legacy id |
| UsbXhci.ClaimLegacy | stage2/usb-xhci.c:100-119 | the legacy-capability branch as a method: the accesses and outcome of Claim |
| UsbXhci.StopLegacy | stage2/usb-xhci.c:88-126 | xhci_stop_legacy's loop makes the accesses and ends as StopWalk says |
| UsbXhci.StopWrites | stage2/usb-xhci.c:88-126 | the only write is the ownership request, once, to USBLEGSUP of the capability the reference walk finds, and only when the request changes it; USBLEGCTLSTS is never written |
| UsbXhci.HeadSkipReads | stage2/usb-xhci.c:98-124 | looking at a capability and skipping it write nothing |
| UsbXhci.ClaimWrites | stage2/usb-xhci.c:100-119 | the legacy branch writes the request to USBLEGSUP exactly when it changes the register |
| UsbXhci.StopOutcome | stage2/usb-xhci.c:88-126 | without a legacy capability the routine ends off the list or out of steps; with one it returns at once when the request changes nothing, after the spin when the firmware lets go, and spins otherwise |
| UsbXhci.StopEndsWithClaim | stage2/usb-xhci.c:100-119 | when the reference walk finds the capability, the routine's accesses end with that capability's legacy branch |
| UsbXhci.StopSpins | stage2/usb-xhci.c:108-118 | when the request is written and USBLEGSUP then reads BIOS-owned N times before reading clear, the write is followed by exactly N + 1 reads of USBLEGSUP and the unmap, the last accesses of the routine |
| UsbXhci.ClaimSpins | stage2/usb-xhci.c:108-118 | the same for the legacy branch alone |
| UsbXhci.ClaimInside | stage2/usb-xhci.c:102-113 | every access of the legacy branch lies in the capability's 8-byte mapping |
| UsbXhci.SpinInside | stage2/usb-xhci.c:111-113 | so does every read of the spin |
| UsbXhci.StopMapped | stage2/usb-xhci.c:88-126 | whenever it returns, xhci_stop_legacy maps each capability it looks at with the size of usb_xhci_xec_t, touches only those bytes and unmaps it with the same size, found or not |
| UsbXhci.SkipMapped | stage2/usb-xhci.c:98-124 | a capability that is not the legacy one is mapped, read and unmapped |
| UsbXhci.LegacyMapped | stage2/usb-xhci.c:98-118 | so is the legacy one, when the routine returns |
| UsbXhci.UsbXhciInitBusAsWritten | stage2/usb-xhci.c:128-154 | usb_xhci_init_bus as written: maps sizeof (usb_xhci_t) bytes, reads HCCPARAMS1 and CAPLENGTH, stops the legacy support, reads USBSTS at CAPLENGTH + 4 and unmaps |
| UsbXhci.UsbXhciInitBus | stage2/usb-xhci.c:128-154 | the same with MAP_LEN bytes mapped and unmapped |
| UsbXhci.InitBus | stage2/usb-xhci.c:128-154 | either, for the mapping length given |
| UsbXhci.InitBusParts | stage2/usb-xhci.c:139-153 | the accesses are the map and two capability reads, the handoff, the USBSTS read and the unmap, and the handoff leaves just the controller's mapping open |
| UsbXhci.InitBusMapped | stage2/usb-xhci.c:131-153 | with MAP_LEN bytes mapped, every access lies inside an open mapping whatever CAPLENGTH says, and exactly what was mapped is unmapped |
| UsbXhci.InitBusAsWrittenReadsUnmapped | stage2/usb-xhci.c:139-153 | as written, whenever CAPLENGTH exceeds 24 the USBSTS read lies outside every open mapping |
| UsbXhci.InitBusAsWrittenExample | stage2/usb-xhci.c:139-153 | a controller with CAPLENGTH 0x20 and no extended capabilities shows it |
| Usb.OsOwnedBits | stage2/usb.c:91 | the start request sets OS-owned and keeps every other bit (the xHCI routine does the same at line 144) |
| Usb.OsOwnedKeepsBios | stage2/usb.c:91 | BIOS-owned among them (likewise at line 144) |
| Usb.SmiEnabledBits | stage2/usb.c:92-93 | both SMI enables are set and every other bit is kept (likewise at lines 145-146) |
| Usb.StartWritesAreWrites | stage2/usb.c:94-158 | the legacy branch's accesses are only writes, and there are none exactly when both registers are already set; each configuration write recorded as one dword write |
| Usb.EhciStartLegacy | stage2/usb.c:83-110 | ehci_start_legacy as written, within the fuel bound, makes the accesses and ends as EhciStartWalk says; each configuration write recorded as one dword write |
| Usb.EhciStartLegacyFixed | stage2/usb.c:83-110 | the corrected routine, returning where the registers are already set, as EhciStartWalkFixed says; each configuration write recorded as one dword write |
| Usb.EhciStartHangs | stage2/usb.c:94-95 | as written, once the walk reaches a legacy capability whose registers are both set, no number of iterations lets ehci_start_legacy return: the `continue` re-reads the same two registers for ever, writing nothing |
| Usb.EhciStartHangsExample | stage2/usb.c:94-95 | a controller whose EECP is 0x68 with USBLEGSUP 0x0100_0001 and USBLEGCTLSTS 0x2001 shows it: as written the walk runs out of steps, corrected it returns unchanged |
| Usb.EhciStartAgrees | stage2/usb.c:83-110 | away from that case the routine as written and the corrected one make the same accesses and end the same way |
| Usb.EhciStartFixedWrites | stage2/usb.c:89-104 | corrected, it writes USBLEGCTLSTS then USBLEGSUP of the legacy capability the reference walk finds, only when one of them changes, and nothing when it finds none |
| Usb.EhciStartAtWrites | stage2/usb.c:89-104 | the legacy branch writes StartWrites of its two registers; each configuration write recorded as one dword write |
| Usb.EhciStartFixedOutcome | stage2/usb.c:83-110 | corrected, it returns unless the walk runs out, unchanged exactly when both registers are already set |
| Usb.EhciStartCfgOnly | stage2/usb.c:83-110 | ehci_start_legacy touches configuration space only |
| Usb.XhciStartLegacy | stage2/usb.c:131-168 | xhci_start_legacy's loop makes the accesses and ends as XhciStartWalk says |
| Usb.XhciStartWrites | stage2/usb.c:131-168 | it writes USBLEGCTLSTS then USBLEGSUP of the capability the reference walk finds, only when one of them changes, and nothing when it finds none |
| Usb.XhciStartWritesHere | stage2/usb.c:141-161 | at the legacy capability its writes are all there is |
| Usb.XhciStartWritesNext | stage2/usb.c:162-166 | another capability is only read, so the writes are those of the rest of the walk |
| Usb.XhciStartOutcome | stage2/usb.c:131-168 | it returns unless the walk runs out, unchanged exactly when both registers are already set |
| Usb.XhciStartAtWrites | stage2/usb.c:141-161 | the legacy branch writes StartWrites of its two registers |
| Usb.XhciStartMapped | stage2/usb.c:131-168 | xhci_start_legacy maps each capability it looks at, touches only its bytes and unmaps it on both paths |
| Usb.XhciStartAtMapped | stage2/usb.c:139-161 | the legacy branch stays inside its capability's mapping and unmaps it |
| Usb.EhciInitBusMethod | stage2/usb.c:112-129 | ehci_init_bus maps 0x200 bytes, reads HCCPARAMS, starts the legacy support and unmaps; each configuration write recorded as one dword write |
| Usb.EhciInitBusMapped | stage2/usb.c:112-129 | whenever it returns it touches only mapped registers and unmaps what it mapped |
| Usb.XhciInitBusMethod | stage2/usb.c:170-190 | xhci_init_bus maps sizeof (usb_xhci_t) bytes, reads HCCPARAMS1, starts the legacy support and unmaps |
| Usb.XhciInitBusMapped | stage2/usb.c:170-190 | whenever it returns it touches only mapped registers and unmaps what it mapped |
| Usb.Dispatches | stage2/usb.c:192-211 | no more dispatches than records |
| Usb.UsbInit | stage2/usb.c:192-211 | usb_init's loop over the records makes the dispatches Dispatches lists |
| Usb.DispatchesAppend | stage2/usb.c:195 | dispatching follows list order |
| Usb.DispatchesOne | stage2/usb.c:197-209 | each record is dispatched to the EHCI or xHCI driver when it is a PCI device of that class interface, and otherwise skipped |
| ConsBits.Ord | macron2/cons.h:39-47 | the six teletype states number 0..5 |
| ConsBits.FromOrd | macron2/cons.h:39-47 | each number 0..5 names the state with that value |
| ConsBits.Utf8StatesConsecutive | macron2/cons.h:36-47 | the three UTF-8 states are consecutive, so `--state` goes from 3 to 2 to 1 |
| ConsBits.GlyphSize | macron2/cons.h:151-163 | glyphs are 13 pixels high and 8 wide |
| ConsBits.AccumFetch | macron2/cons.h:198-205 | a fetched byte leaves its bit 7 as the result and `a << 1 \| 1` in the accumulator, which is not the sentinel |
| ConsBits.AccumStep | macron2/cons.h:206-210 | between fetches each shift hands out the next lower bit and does not reach the sentinel before the eighth |
| ConsBits.ReadN | macron2/cons.h:179-214 | n calls from __init1b hand out n bits, fetch (n + 7) / 8 bytes, and leave the accumulator holding the bits of the current byte not yet handed out |
| ConsBits.ReadMsbFirst | macron2/cons.h:179-214 | call i hands out bit 7 - i mod 8 of byte i / 8: the stream's bits MSB first |
| ConsBits.BitAt | macron2/cons.h:179-214 | a bit handed out stays in place in every longer read |
| ConsBits.ReadWholeBytes | macron2/cons.h:179-214 | after 8k calls the accumulator holds the sentinel and exactly k bytes have been fetched |
| ConsBits.LastBit | macron2/cons.h:186-214 | call n hands out bit 7 - (n - 1) mod 8 of byte (n - 1) / 8 |
| ConsBits.SentinelAtBoundaries | macron2/cons.h:198-210 | the sentinel 0x80 is in the accumulator exactly at byte boundaries, so a byte is fetched only then |
| ConsBits.BitReader.Init1b | macron2/cons.h:179-183 | __init1b sets the accumulator to the sentinel |
| ConsBits.BitReader.Get1bStep | macron2/cons.h:185-214 | __get1b's portable branch returns the bit and updates accumulator and stream as Get1b says |
| ConsGeom.PixelLayout | stage2/cons.early.c:69-100 | RGBX for the RGB-reserved format or a red mask of 0xff, two bytes per pixel exactly for red masks 0xf800 and 0x7c00, BGRX otherwise; the bytes per pixel are the colour union's size |
| ConsGeom.Short | stage2/cons.early.c:65-68 | an unsigned short value |
| ConsGeom.UefiGeometryCells | stage2/cons.early.c:65-106 | the screen is the mode's lines and columns mod 2^16, its cells the whole glyphs that fit, and its stride the scan line in bytes mod 2^16 |
| ConsGeom.UefiRowsFit | stage2/cons.early.c:68-101 | a mode whose scan line is a whole number of bytes below 2^16 gets a stride that holds a row of pixels |
| ConsGeom.DummyStrideTooShort | stage2/cons.early.c:115-119 | as written the dummy console's stride is 8 bytes, a quarter of its 32-byte row, so rows overlap and a clear of yp * xs bytes covers 104 of the buffer's 416 |
| ConsGeom.DummyFixedFits | stage2/cons.early.c:115-119 | with a stride of one 32-byte row the rows fit the buffer exactly and the one cell line covers the glyph height |
| ConsGrid.Blank | stage2/cons.early.c:163-178 | a blank line has the screen's width |
| ConsGrid.Apply | stage2/cons.early.c:163-186 | a drawing request keeps the number of lines |
| ConsGrid.ReplayAppend | stage2/cons.early.c:163-219 | replaying two runs of requests is replaying one after the other |
| ConsGrid.MoveLine | stage2/cons.early.c:180-186 | a whole-line copy replaces the destination line by the source line |
| ConsGrid.BlockMove | stage2/cons.early.c:188-212 | the reference for a line move keeps the number of lines |
| ConsGrid.MoveUpLines | stage2/cons.early.c:192-200 | copying top down toward the top never overwrites a source line still to be read: the result is the block move |
| ConsGrid.MoveDownLines | stage2/cons.early.c:201-211 | copying bottom up toward the bottom never does either |
| ConsGrid.MoveLinesIsBlockMove | stage2/cons.early.c:188-212 | __cons_move_lines is a block move whichever way the ranges overlap |
| ConsGrid.EraseLinesBlanks | stage2/cons.early.c:169-178 | __cons_erase_lines blanks exactly lines y .. y+n-1 |
| ConsGrid.ScrollShiftsUp | stage2/cons.early.c:214-219 | scrolling corrected to move lines up: each line shows the one n below it and the last n are blank |
| ConsGrid.ScrollAsWrittenShiftsDown | stage2/cons.early.c:214-219 | as written the first n lines stay, the others show the line n above them, and the last n are blank |
| ConsGrid.ScrollAsWrittenLosesBottomLine | stage2/cons.early.c:214-229 | on a two-line screen showing A over B, a line feed on the bottom line gives A over blank as written, losing B; scrolling up gives B over blank |
| ConsText.EraseLinesOps | stage2/cons.early.c:169-178 | one erase request per line |
| ConsText.MoveLinesOps | stage2/cons.early.c:188-212 | one copy per line when the lines move, none when they stay |
| ConsText.MoveUpOps | stage2/cons.early.c:192-200 | one copy per line |
| ConsText.MoveDownOps | stage2/cons.early.c:201-211 | one copy per line |
| ConsEarly.HooksFor | stage2/cons.early.c:41-58 | the 16-bit drawing routines exactly for the two-byte pixel types, the 32-bit ones otherwise |
| ConsEarly.EarlyMap | stage2/cons.early.c:108 | the mapped frame buffer is a 64-bit address |
| ConsEarly.FindVideo | stage2/cons.early.c:148-152 | the search stops at the first reserve named "video" |
| ConsEarly.SearchVideo | stage2/cons.early.c:146-152 | the `++rs, --nr` loop stops at FindVideo with nr equal to reserves minus that index, mod 2^64 |
| ConsEarly.NrZero | stage2/cons.early.c:153 | the wrapped count is 0 exactly when the search stopped one past the table |
| ConsEarly.VideoInTableChosen | stage2/cons.early.c:146-156 | with a video reserve inside the table the frame-buffer console is chosen with that mode's geometry |
| ConsEarly.Cons.constructor | stage2/cons.early.c:145 | the console after `memset (cons, 0, sizeof (*cons))` |
| ConsEarly.Cons.EraseLines | stage2/cons.early.c:169-178 | __cons_erase_lines issues EraseLinesOps |
| ConsEarly.Cons.MoveLines | stage2/cons.early.c:188-212 | __cons_move_lines issues MoveLinesOps |
| ConsEarly.Cons.Scroll | stage2/cons.early.c:214-219 | __cons_scroll as written issues the moves of lines 0 .. yn-n-1 to line n on and the erase of the last n lines (ScrollOpsAsWritten), which ScrollAsWrittenShiftsDown proves move the text down |
| ConsEarly.Cons.Index | stage2/cons.early.c:221-229 | __cons_index moves down a line, or on the bottom line scrolls by one as written |
| ConsEarly.Cons.Advance | stage2/cons.early.c:231-243 | __cons_advance and __cons_newline leave the red zone, go to column 0 and index |
| ConsEarly.Cons.WriteGlyph | stage2/cons.early.c:259-274 | __cons_write_glyph with width 1: advance first in the red zone, draw at the cursor, move right or enter the red zone in the last column |
| ConsEarly.Cons.ResetOutputMode | stage2/cons.early.c:124-130 | the normal state and the default colours |
| ConsEarly.Cons.FullReset | stage2/cons.early.c:132-138 | the output mode reset, the cursor homed and yp * xs bytes of the frame buffer cleared |
| ConsEarly.Cons.Cntrl | stage2/cons.early.c:245-257 | a line feed starts a new line, ESC enters the escape state, other controls do nothing |
| ConsEarly.Cons.PutchNorm | stage2/cons.early.c:282-334 | controls, printable ASCII, lead bytes and other bytes as ConsText.PutchNorm says |
| ConsEarly.Cons.Reparse | stage2/cons.early.c:336-342 | U+FFFD, then the byte taken afresh in the normal state |
| ConsEarly.Cons.Utf8One | stage2/cons.early.c:344-360 | a last continuation byte completes the code, which is drawn, or U+FFFD if overlong or a surrogate |
| ConsEarly.Cons.Utf8Mid | stage2/cons.early.c:362-372 | a middle continuation byte adds six bits and steps the state down |
| ConsEarly.Cons.PutchEsc | stage2/cons.early.c:374-386 | `ESC c` fully resets, any other byte just ends the escape |
| ConsEarly.Cons.Write | stage2/cons.early.c:394-417 | __cons_write feeds each byte to the handler of the current state, in order |
| ConsEarly.Cons.SetType | stage2/cons.early.c:41-58 | __cons_set_type records the type and installs HooksFor it |
| ConsEarly.Cons.InitUefi | stage2/cons.early.c:60-110 | __early_init_uefi_cons sets the geometry of the mode, the drawing routines for its type and the mapped frame buffer |
| ConsEarly.Cons.InitDummy | stage2/cons.early.c:112-122 | __early_init_dummy_cons: one cell, BGRX, the stride set to the glyph width, 8 bytes |
| ConsEarly.Cons.InitScreen | stage2/cons.early.c:153-156 | the frame-buffer console when the count is nonzero, else the dummy with its 8-byte stride |
| ConsEarly.Cons.SetGlyphSize | stage2/cons.early.c:157-158 | 13 by 8 pixel glyphs |
| ConsEarly.Cons.PickScreen | stage2/cons.early.c:146-158 | find the video reserve, set up the screen it names, set the glyph size |
| ConsEarly.Cons.Greet | stage2/cons.early.c:159-160 | a full reset, then "hello world\n" written |
| ConsEarly.EarlyInit | stage2/cons.early.c:140-161 | __early_init_cons_1 leaves the geometry the reserves name and the teletype state of writing the greeting after a full reset |
| ConsPreinit.PreinitUefi | stage2/cons.preinit.c:32-83 | _preinit_uefi_cons sets the mode's geometry and the mapped frame buffer and clears yp * xs bytes of it |
| ConsPreinit.PreinitDummy | stage2/cons.preinit.c:85-95 | _preinit_dummy_cons: one cell, the stride set to the glyph width, 8 bytes, clearing nothing |
| ConsPreinit.PreinitScreen | stage2/cons.preinit.c:107-110 | the frame-buffer console when the count is nonzero, else the dummy with its 8-byte stride |
| ConsPreinit.Preinit | stage2/cons.preinit.c:97-114 | _preinit_cons picks the screen as the early console does, sets the glyph size and homes the cursor, clearing the frame buffer only for a real screen |
| ConsPreinit.PreinitVideoClears | stage2/cons.preinit.c:100-108 | with a video reserve inside the table the mode's screen is used and all of its rows are cleared |
| ConsPreinit.PreinitNoVideo | stage2/cons.preinit.c:100-110 | without one the dummy screen is used and nothing is cleared; its 8-byte stride does not hold a 32-byte row |
| ConsProps.WriteGlyphOnScreen | stage2/cons.early.c:259-274 | drawing a glyph keeps the cursor on the screen |
| ConsProps.PutchNormOnScreen | stage2/cons.early.c:282-334 | so does any byte in the normal state |
| ConsProps.ReparseOnScreen | stage2/cons.early.c:336-342 | and a reparsed byte |
| ConsProps.PutchOnScreen | stage2/cons.early.c:401-415 | and any byte in any state |
| ConsProps.WriteOnScreen | stage2/cons.early.c:394-417 | if the screen has a cell, every write leaves the cursor on the screen |
| ConsProps.GlyphMidLine | stage2/cons.early.c:265-268 | a glyph before the last column is drawn at the cursor, which moves one cell right |
| ConsProps.GlyphEntersRedZone | stage2/cons.early.c:267-273 | a glyph in the last column is drawn there and the cursor stays, in the red zone |
| ConsProps.GlyphLeavesRedZone | stage2/cons.early.c:265-273 | in the red zone the next glyph first starts a new line, on the bottom line scrolling as written, then lands in column 0 |
| ConsProps.NewLine | stage2/cons.early.c:221-257 | a line feed goes to column 0 out of the red zone and down a line, or on the bottom line scrolls by one as written |
| ConsProps.StrayBytes | stage2/cons.early.c:282-294 | in the normal state C1 controls and C0 controls other than LF and ESC do nothing, ESC enters the escape state, printable ASCII is drawn, and other non-lead bytes draw U+FFFD |
| ConsProps.LeadBytes | stage2/cons.early.c:295-333 | a lead byte records its payload bits and the smallest code its sequence may carry |
| ConsProps.BrokenSequence | stage2/cons.early.c:336-372 | inside a sequence a byte that does not continue it draws U+FFFD and is then taken afresh |
| ConsProps.EscapeReset | stage2/cons.early.c:374-386 | `ESC c` gives the normal state, the default colours, the cursor at home and the frame buffer cleared |
| ConsProps.EscapeOther | stage2/cons.early.c:374-386 | ESC and any other byte changes nothing |
| ConsProps.TwoByteSequence | stage2/cons.early.c:295-360 | a two-byte sequence draws the code of its five and six payload bits |
| ConsProps.ThreeByteSequence | stage2/cons.early.c:314-372 | a three-byte sequence draws its code checked against U+0800 and the surrogates |
| ConsProps.FourByteSequence | stage2/cons.early.c:326-372 | a four-byte sequence draws its code checked against U+10000 only |
| ConsProps.Encode | stage2/cons.early.c:295-333 | a code below 2^21 encodes to 1..4 bytes |
| ConsProps.EncodedGlyph | stage2/cons.early.c:282-417 | every printable code but a surrogate, written in UTF-8, draws exactly that glyph and leaves the decoder in the normal state; codes above U+10FFFF are not rejected |
| ConsProps.MalformedSequences | stage2/cons.early.c:351-354 | overlong forms and encoded surrogates draw U+FFFD |
| ConsProps.BeyondUnicode | stage2/cons.early.c:326-354 | F4 90 80 80, one past U+10FFFF, is drawn as the code 0x110000 |
| Stage2Main.StartCall | stage2/main.c:59-77 | a device's option ROM is entered at its image segment, offset 3, with EAX holding its PCI location, EBX its run-time segment and ECX, EDX zero |
| Stage2Main.StartCalls | stage2/main.c:76-77 | the calls for a list of devices are one start call per device, in order |
| Stage2Main.Started | stage2/main.c:40-61 | one pass starts at most as many devices as there are boot records |
| Stage2Main.RimgInit | stage2/main.c:37-81 | a pass of rimg_init makes exactly the start calls of the devices that pass selects, in record order |
| Stage2Main.StartCallsAppend | stage2/main.c:40-77 | the calls for two lists of devices are the calls for the first followed by those for the second |
| Stage2Main.StartedAppend | stage2/main.c:40 | a pass over two runs of records starts the first run's devices, then the second run's |
| Stage2Main.StartedOne | stage2/main.c:45-61 | a single record is started exactly when it is a PCI device of this pass's class (VGA, 8514 or XGA for the video pass, anything else for the other) with a nonzero ROM segment |
| Stage2Main.PassKeepsOrder | stage2/main.c:40-61 | each pass starts the PCI devices with a ROM image whose class matches the pass, in the order of the records |
| Stage2Main.OfClassAppend | stage2/main.c:48-56 | class selection over two lists is the selection over the first followed by that over the second |
| Stage2Main.OfClassSplits | stage2/main.c:48-56 | the video and non-video selections together are a permutation of the list |
| Stage2Main.OfClassIs | stage2/main.c:48-56 | every device selected for a class is of that class |
| Stage2Main.TwoPasses | stage2/main.c:97-100 | over the two passes every PCI device with a ROM image is started exactly once (a permutation), the video ones in the first pass and only those |
| Stage2Main.RomStarts | stage2/main.c:76-77 | a pass's trace has one option-ROM start per device, carrying its start call |
| Stage2Main.UsbStarts | stage2/usb.c:192-211 | the USB step's trace has one controller start per device, in order |
| Stage2Main.RomActs | stage2/main.c:76-77 | the calls RimgInit made for a pass, paired with their devices, are that pass's option-ROM starts |
| Stage2Main.Stage2Main | stage2/main.c:91-103 | stage2_main's trace is the boot order: bring-up steps, video ROMs, hello, USB, other ROMs, halt |
| Stage2Main.BeforeFacts | stage2/main.c:93-97 | before hello there are only the four bring-up steps followed by video option ROMs, and no USB start |
| Stage2Main.AfterFacts | stage2/main.c:98-102 | from hello on, hello comes first, no video option ROM and no bring-up step follows, and the halt is last |
| Stage2Main.BootOrder | stage2/main.c:91-103 | memory, real-mode, IRQ and timer set-up come first and only there; video option ROMs run before the screen is set up; USB and the other option ROMs run after it; the halt is last |
| BootDev.NodeHeader | muon/boot-dev.c:49-53 | a device-path node header is four bytes |
| BootDev.NodeLengthOfHeader | muon/boot-dev.c:49-53 | the length dev_node_length reads from a header is the little-endian length it was written with |
| BootDev.FindHardDrive | muon/boot-dev.c:90-106 | the first walk stops at a hard-drive node lying wholly within the path, at or after the start |
| BootDev.TrailOfWalk | muon/boot-dev.c:90-106 | the walk visits nodes each one node length after the previous, none before the last being a hard-drive or end node, and finds the last exactly when it is a hard drive; otherwise it ends at an end node |
| BootDev.WalkToHardDrive | muon/boot-dev.c:90-106 | the loop returns the node the walk specifies, or none at an end node |
| BootDev.SeekHardDrive | muon/boot-dev.c:131-142 | the second walk, without an end check, reaches the hard-drive node of the copy |
| BootDev.WholeDiskNodeNumber | muon/boot-dev.c:108-115 | the whole-disk test is a test that the little-endian partition number is zero |
| BootDev.WholeDrivePathFields | muon/boot-dev.c:144-150 | after the rewrite the node reads partition 0, start 0, size 2^64-1, and every other byte is kept |
| BootDev.RewriteKeepsWalk | muon/boot-dev.c:131-150 | rewriting the node the walk stops at keeps every header, so the walk over the rewritten path stops at the same node |
| BootDev.RewriteNode | muon/boot-dev.c:144-150 | the in-place rewrite of the copy yields the whole-drive path |
| BootDev.FreeMissesCopy | muon/boot-dev.c:131-153 | as written, after a successful lookup FreePool gets a pointer 10 bytes into the copy, not the copy |
| BootDev.WholeDriveCases | muon/boot-dev.c:55-173 | each failure passes its status on with nothing looked up or freed; a whole-disk node answers the boot device; otherwise the rewritten path, which walks to the same node and now reads as a whole disk, is looked up and the copy itself is freed |
| BootDev.FindWholeDrive | muon/boot-dev.c:55-173 | find_whole_drive as written: the outcome of WholeDriveCases except that the pointer freed after the lookup is the one LocateDevicePath advanced (WholeDriveAsWritten) |
| BootDev.WholeDriveAgree | muon/boot-dev.c:131-153 | the code as written and the corrected walk-and-rewrite differ only in the pointer freed |
| BootDev.FindBootDev | muon/boot-dev.c:175-200 | a loaded-image failure is returned; otherwise block I/O is asked of the whole drive if find_whole_drive as written found one, of the image's device if not, and that status returned |
| MuonMain.Boot.constructor | muon/main.c:33 | the firmware's boot services start with no calls made |
| MuonMain.Boot.DoStall | muon/main.c:24-27 | a stall is recorded and answered with the firmware's status |
| MuonMain.Boot.DoCreateEvent | muon/main.c:37-38 | an event creation is recorded and answered with the firmware's status |
| MuonMain.Boot.DoSetTimer | muon/main.c:41 | arming a timer is recorded and answered with the firmware's status |
| MuonMain.Boot.DoWaitForEvent | muon/main.c:42 | a wait is recorded and answered with the firmware's status |
| MuonMain.Boot.DoCloseEvent | muon/main.c:44-48 | closing the event is recorded and answered with the firmware's status |
| MuonMain.StallPlanCovers | muon/main.c:19-28 | snooze_1's stalls add up to the delay: all but the last are 10 ms, the last at most 10 ms and nonzero for a nonzero delay, max(1, ceil(us/10000)) of them |
| MuonMain.StallCallsPlan | muon/main.c:22-27 | snooze_1 issues the planned stalls, one by one |
| MuonMain.Snooze1 | muon/main.c:19-28 | the loop makes exactly the planned stall calls and returns the status of the last |
| MuonMain.CloseCountAppend | muon/main.c:44-48 | close calls in two runs add up |
| MuonMain.NoCloseInStalls | muon/main.c:19-28 | snooze_1 closes no event |
| MuonMain.TimerWait | muon/main.c:37-48 | the timer half of snooze creates, arms and waits, closing the event unless it was never created |
| MuonMain.Snooze | muon/main.c:30-49 | snooze makes the calls and returns the status that SnoozeCalls and SnoozeStatus give |
| MuonMain.SnoozeSleeps | muon/main.c:30-49 | snooze sleeps the whole delay: a timer of us*10 100-ns ticks was armed and awaited, or the fallback stalls add up to us |
| MuonMain.SnoozeClosesOnce | muon/main.c:30-49 | the event is closed exactly once if it was created, never otherwise |
| MuonMain.FirstFailure | muon/main.c:69-73 | the first round whose status is not a success: all before it succeeded |
| MuonMain.EfiMain | muon/main.c:65-76 | efi_main runs until the first failed attempt, snoozing after each round and once more, and returns that failure |
| AcpicaOsl.LoadBound | acpica-osl.c:136-148 | a load of n bytes is below 256^n, so it is zero-extended |
| AcpicaOsl.StoreElsewhere | acpica-osl.c:158-170 | a store changes only its own bytes |
| AcpicaOsl.LoadStore | acpica-osl.c:131-175 | reading back what was written gives the value truncated to the width |
| AcpicaOsl.ModSplit | acpica-osl.c:160-166 | truncation to a wider width splits into the low byte and the truncation of the rest |
| AcpicaOsl.PowMono | acpica-osl.c:136-148 | wider widths have larger ranges |
| AcpicaOsl.Machine.ReadMemory | acpica-osl.c:131-153 | a null value pointer or a width other than 8, 16, 32, 64 is a bad parameter; otherwise the value is the zero-extended little-endian load at the address |
| AcpicaOsl.Machine.WriteMemory | acpica-osl.c:155-175 | a width other than 8, 16, 32, 64 is a bad parameter and stores nothing; otherwise the truncated value is stored, low byte first |
| AcpicaOsl.Machine.ReadPort | acpica-osl.c:177-206 | a null pointer, a port above 0xffff or a width other than 8, 16, 32 is refused with no bus traffic; otherwise one in instruction of that width, its result zero-extended |
| AcpicaOsl.Machine.WritePortAsWritten | acpica-osl.c:208-232 | as written, a zero value is refused like a null pointer, and a 16-bit write puts the whole 32-bit value on the bus |
| AcpicaOsl.Machine.WritePort | acpica-osl.c:208-232 | only a port above 0xffff or a width other than 8, 16, 32 is refused; otherwise one out instruction of that width with the value cut to it |
| AcpicaOsl.WritePortAsWrittenExample | acpica-osl.c:218-222 | a 16-bit write of 0x12345 to port 0x80 is a 32-bit out as written |
| AcpicaOsl.WritePortAgreement | acpica-osl.c:208-232 | both writes agree on 8- and 32-bit ports; on 16-bit ports the code as written writes 32 bits, with the intended value exactly when it fits in 16 bits |
| AcpicaOsl.PredefinedOverride | acpica-osl.c:49-56 | both pointers given: success and no replacement; otherwise a bad parameter and nothing stored |
| AcpicaOsl.TableOverride | acpica-osl.c:58-65 | both pointers given: success and no replacement table; otherwise a bad parameter |
| AcpicaOsl.PhysicalTableOverride | acpica-osl.c:67-76 | all three pointers given: success, address and size both zero; otherwise a bad parameter |
| AcpicaOsl.MapMemoryIdentity | acpica-osl.c:105-113 | a mapping is the identity, so a load through it reads the physical memory |
| Bmem.TopFit | stage1/bmem.c:199-203 | bmem_alloc's placement in a block is aligned and lies wholly inside the block |
| Bmem.TopFitHighest | stage1/bmem.c:199-203 | it is the highest aligned place in the block with room, and it fails only when there is none |
| Bmem.BottomFit | stage1/bmem.c:234-240 | bmem_alloc_boottime's placement in a block is aligned and lies wholly inside the block |
| Bmem.BottomFitLowest | stage1/bmem.c:234-240 | it is the lowest aligned place in the block, and it succeeds whenever any aligned place at or above the start has room |
| Bmem.HighestBelow | stage1/bmem.c:195-203 | bmem_alloc takes the highest block with room; every block above it has none, and when it fails no block has room |
| Bmem.LowestFrom | stage1/bmem.c:231-240 | bmem_alloc_boottime takes the lowest block with room; every block below it has none, and when it fails no block has room |
| Bmem.TakeKeepsOrdered | stage1/bmem.c:207-255 | shrinking a block to a part of itself, or dropping it, keeps the block table ordered |
| Bmem.TakeKeepsConsistent | stage1/bmem.c:205-256 | handing out part of a block and keeping the rest keeps the free blocks and the handed-out regions disjoint and inside the initial blocks |
| Bmem.EnoughBaseMem | stage1/bmem.c:72-77 | enough base memory means a run-time top of at least 192 KiB and 128 KiB between the boot-time bottom and the top, under the unsigned subtraction |
| Bmem.FreeBitmap | stage1/bmem.c:88-109 | the grabbed-page bitmap has one entry per page below BMEM_MAX_ADDR |
| Bmem.MarkDescs | stage1/bmem.c:149-176 | marking the memory map keeps the bitmap's size |
| Bmem.MarkedBitmap | stage1/bmem.c:149-176 | the bitmap used to size run-time memory has one entry per page |
| Bmem.RunTableFits | stage1/bmem.c:117-140 | maximal runs are separated by an unavailable page, so the table never exceeds MAX_BMEM_BLKS entries (MAX_BMEM_BLKS at line 48) |
| Bmem.RunStarts | stage1/bmem.c:117-140 | block i of the run table starts at page 2i+1 or later |
| Bmem.GrabPages | stage1/bmem.c:94-109 | the grab loop, requests halving on failure, marks exactly the pages the firmware handed out |
| Bmem.StepAvail | stage1/bmem.c:118-120 | an available page opens a run or extends the open one |
| Bmem.StepSkip | stage1/bmem.c:117-121 | an unavailable page with no run open changes nothing |
| Bmem.StepClose | stage1/bmem.c:121-129 | an unavailable page closes the open run, which is a maximal run, and the table still fits |
| Bmem.FinishClosed | stage1/bmem.c:131-132 | at the end with no run open the table is complete |
| Bmem.FinishOpen | stage1/bmem.c:132-140 | at the end, closing the open run completes the table |
| Bmem.GroupCompletes | stage1/bmem.c:117-140 | from any state of the grouping loop, the blocks still to come complete the run table |
| Bmem.GroupIsRunTable | stage1/bmem.c:111-140 | the blocks bmem_init builds are, in order, exactly the maximal runs of grabbed pages above page 0, and fit in blk |
| Bmem.GroupOrdered | stage1/bmem.c:111-140 | the built table is ordered and fits in blk |
| Bmem.GroupBlocks | stage1/bmem.c:115-140 | the grouping loop fills blk with exactly that table |
| Bmem.MarkMemMap | stage1/bmem.c:149-176 | every page a loader, boot-services or conventional descriptor starting below BMEM_MAX_ADDR covers is marked, with the end index truncated to 32 bits and clamped |
| Bmem.RuntimePages | stage1/bmem.c:149-180 | the count is the length of the run of pages from 0 that are grabbed or freed when boot services exit |
| Bmem.InitialValid | stage1/bmem.c:55-69 | right after start-up nothing is handed out and the state is sound |
| Bmem.RuntimeTakeKeepsValid | stage1/bmem.c:205-216 | a run-time allocation keeps the state sound |
| Bmem.BoottimeTakeKeepsValid | stage1/bmem.c:244-256 | a boot-time allocation keeps the state sound |
| Bmem.BaseMemory.constructor | stage1/bmem.c:55-69 | no blocks, boot-time bottom one page, run-time top 0 |
| Bmem.BaseMemory.Init | stage1/bmem.c:80-185 | the free blocks become the maximal runs of grabbed pages; the run-time top becomes the grabbed-or-freed run from page 0; it stops with an error when that is below 192 KiB |
| Bmem.BaseMemory.RemoveBlock | stage1/bmem.c:210-214 | dropping block i moves the blocks above it down, and nothing else changes (bmem_alloc_boottime repeats it at lines 250-254) |
| Bmem.BaseMemory.Carve | stage1/bmem.c:207-215 | block i is shrunk to the kept part, or dropped when that is empty (bmem_alloc_boottime at lines 247-255) |
| Bmem.BaseMemory.FindHighest | stage1/bmem.c:195-203 | the loop from the highest block down finds what HighestBelow specifies |
| Bmem.BaseMemory.FindLowest | stage1/bmem.c:231-240 | the loop from the lowest block up finds what LowestFrom specifies |
| Bmem.BaseMemory.CommitRuntime | stage1/bmem.c:205-216 | the block keeps the part below the allocation, the run-time top drops to it, and the region is recorded |
| Bmem.BaseMemory.CommitBoottime | stage1/bmem.c:244-256 | the block keeps the part above the allocation, the boot-time bottom rises past it, and the region is recorded |
| Bmem.BaseMemory.Alloc | stage1/bmem.c:191-219 | success exactly when some block has room; the highest such block gives its top aligned place, and the run-time top drops to it; on failure nothing changes |
| Bmem.BaseMemory.AllocBoottime | stage1/bmem.c:227-259 | success exactly when the lowest block with room places the bytes below the run-time top; the boot-time bottom rises past them; on failure nothing changes |
| Bmem.BaseMemory.Fini | stage1/bmem.c:262-271 | the bottom is rounded up to a paragraph and the top down to a KiB; success is bmem_check_enough, and then the scratch area overlaps nothing handed out |

## Left out

- Inline assembly (control registers, `cli`/`sti`/`hlt`, `rdmsr`, `cpuid`, the amd64 branch of `__get1b`) is modelled only through its effect on the recorded port, MMIO or register state.
- Firmware services are parameters or oracles: AllocatePages, GetMemoryMap, the file protocol, HandleProtocol/LocateProtocol, device-path-to-text, events and timers, ExitBootServices. Each boot-services call kind in muon answers with a fixed status, and the stall's status may depend on its length.
- Bmem.BaseMemory.Init: the firmware's AllocatePages(AllocateMaxAddress) is an oracle that hands out any run of the requested length inside a given set of free pages. Which run it picks is not modelled.
- Bmem: BMEM_MAX_ADDR is not defined in the files modelled; it is taken as 0xa0000 (640 KiB).
- Bmem.BaseMemory.Alloc and AllocBoottime require a power-of-2 alignment, as the source comment asks of callers; other alignments are not modelled.
- Print, Output, cprintf and info diagnostics and the device-path text form are not modelled: their text is not an interface.
- Handoff.PrepareToHandOver: the BP_BMEM record allocation (bparm_add), the real-mode segment conversion (addr_to_rm_seg), conf_fini, the 3-second sleep and ExitBootServices are not modelled; bparm.c is not part of this model.
- The records stage 2 receives (bparm.c) are a sequence of tagged records; the list links are not modelled.
- mem.c (mem_va_map, mem_va_unmap) is not part of this model: mappings are a multiset of live physical windows, and the address a mapping returns is a parameter.
- The memory mapper `__early_map_memory` of the console set-up is not part of this model: the address it returns is a parameter.
- MpTables: the hardware reads of fake_mp_table (APIC base MSR, local APIC and I/O APIC registers, CPUID) are parameters, and IOAPIC_ADDR, which is not defined in the files modelled, is a parameter.
- Pci.PciHost.InPciD and OutPciD: whether the compiler knows the offset is aligned is the parameter `constAligned`. The non-constant branch runs in_pci_d_maybe_unaligned and out_pci_d_maybe_unaligned as written, the latter falling through from its aligned case.
- UsbEhci.StopLegacy: the USBLEGSUP request is recorded as one dword write, as out_pci_d would make it with a `break` after the aligned case. As written (stage2/pci.c:55-61) the non-constant offset sends it through out_pci_d_maybe_unaligned, which adds a read-modify-write of USBLEGSUP and of USBLEGCTLSTS; UsbEhci.RequestAsWrittenWithdraws states what that leaves in the two registers.
- UsbEhci.ClaimLegacy: the same single-write record of the request.
- UsbEhci.StopWrites: "USBLEGCTLSTS is never written" is a fact of the single-write record; the as-written fall-through writes its low byte.
- UsbEhci.ClaimWrites: the same single-write record of the request.
- UsbEhci.StopSpins: the accesses after the request leave out the fall-through's two reads and two writes.
- UsbEhci.UsbEhciInitBus: built on StopLegacy's single-write record.
- Usb.EhciStartLegacy: the writes to USBLEGCTLSTS and USBLEGSUP are recorded as single dword writes; as written each goes through the falling-through out_pci_d_maybe_unaligned, as for UsbEhci.StopLegacy.
- Usb.StartWritesAreWrites: "only writes" is a fact of the single-write record; as written the fall-through also reads.
- Usb.EhciStartAtWrites: the same single-write record.
- Usb.EhciInitBusMethod: built on EhciStartLegacy's single-write record.
- ConsEarly.EarlyInit: every console operation requires the screen to hold a cell (HasCells: at least one line and one column). __early_init_uefi_cons accepts a mode smaller than one 13 by 8 glyph, whose yn or xn is then 0, and `cons->yn - 1` wraps; that case is not modelled.
- BootDev.WalkToHardDrive and SeekHardDrive: BootDev.FirmwareOk requires every node the walk steps over to be at least a header long. On a node whose length field is 0 the walk of muon/boot-dev.c:90-106 and :131-142 makes no progress and loops for ever; that case is not modelled.
- The 16-bit call gate (rm16.asm), the 16-bit vectors, `isr16_unimpl` and `tb16` are not modelled; `rm16_call` and `rm16_cs_call` invocations are recorded as calls.
- Stage2Main.Stage2Main: mem_init, rm16_init and hlt are recorded as opaque steps; irq_init, time_init and usb_init are modelled in their own modules.
- Stage2Main.RimgInit: the `wherex()`/`putch('\n')` after an option-ROM call is not modelled, because it depends on what the foreign ROM printed.
- Isr15: the `yield_to_irq` wait of AH=86h depends on an interrupt handler that is not part of this model. Only the state before the wait is modelled.
- The USB BIOS-owned polling and the RTC update-in-progress wait read from supplied read sequences; timing is not modelled.
- Usb.EhciStartLegacy and Usb.EhciStartLegacyFixed: the loop runs for at most `fuel` iterations, and a run that reaches the bound is the outcome `Exhausted`. The code as written does not terminate in the case EhciStartHangs describes.
- Glyph rendering, font tables and nanoprintf formatting are not part of this model. Draw, erase and move operations are recorded requests; the formatter's output is an arbitrary character sequence.
- ConsEarly.SearchVideo and ConsPreinit: the reserve search has no bounds check, so the model requires a "video" reserve in the table, as the source assumes.
- AcpicaOsl.Machine.ReadMemory and WriteMemory require the accessed bytes to lie inside the modelled memory, which is a finite array. Physical addresses are unbounded in the source.
- AcpicaOsl: the stub hooks (Initialize, Terminate, GetRootPointer, Allocate, Free, Sleep, Stall, WaitEventsComplete, UnmapMemory, the interrupt-handler hooks, PCI configuration access, printing, the timer, signals) are not modelled. They call unshown collaborators or only report an error.
- MuonMain.EfiMain requires the pause to be the 3-second constant and a failing round to exist. A run in which every round succeeds never returns.
- MuonMain: efi_main_1's find_boot_dev call is the per-round status `attempts`; BootDev.FindBootDev models that search on its own.
- stage1/conf.c, stage1/util.c and exit.c are firmware and user-interface glue and are not modelled.
- Declaration-only headers (stage2/stage1.h, stage2/cons.h, stage2/pc.h, macron2/pc.h and muon/efi/*.h) are used for types and constants only.

## Findings

| source | as written | input that shows it | evidently intended | confidence | as-written member | corrected member |
|---|---|---|---|---|---|---|
| stage1/main.c:171-174 | free_stage2_mem computes every segment's page count from `phdrs->p_memsz`, the first header's | a 1-page segment followed by a 3-page one: only 1 page of the second is freed | each segment's own `phdr->p_memsz` | not executed | ElfSegments.FreeAsWrittenMismatch | ElfSegments.FreeLoaded |
| s1-main.c:215 | the MP floating pointer's `len` holds its size in bytes, 16 | any call of fake_mp_table | its size in 16-byte paragraphs, 1 (section 4.1 of the MultiProcessor Specification 1.4) | not executed | MpTables.FltLengthFinding | MpTables.BundleFixed |
| s1-main.c:239 | the processor entry's APIC ID is `(uint8_t)` of the local APIC ID register, its low byte | ID register 0x0100_0000 (APIC ID 1) is reported as 0 | bits 31..24 of the register | not executed | MpTables.LapicIdAsWrittenLosesId | MpTables.LapicIdRecovers |
| stage2/pci.c:59-61 | the aligned case of out_pci_d_maybe_unaligned has no `break` and falls into case 1 | writing 0x12345678 at offset 0 leaves 0x34567878 there and 0x12 in the next dword | one aligned write and nothing more | not executed | Pci.AlignedWriteAsWrittenBreaks | Pci.WriteThenRead |
| stage2/usb-ehci.c:66-68 | the ownership request goes through out_pci_d with an offset read from the device, so through out_pci_d_maybe_unaligned, whose aligned case falls into case 1 | USBLEGSUP at the aligned offset 0x68 reading 0x0001_0001 (BIOS-owned): the request 0x0100_0001 is followed by 0x0000_0101, with OS-owned clear | one dword write of the request | not executed | UsbEhci.RequestAsWrittenWithdraws | UsbEhci.RequestCorrected |
| stage2/usb-xhci.c:139-153 | only sizeof (usb_xhci_t), 32 bytes, is mapped, but USBSTS is read at CAPLENGTH + 4 | CAPLENGTH 0x20 and no extended capabilities: the read is outside every mapping | map MAP_LEN bytes | not executed | UsbXhci.InitBusAsWrittenReadsUnmapped | UsbXhci.InitBusMapped |
| stage2/usb.c:94-95 | when both legacy registers already hold their values, `continue` re-reads the same offset for ever | EECP 0x68 with USBLEGSUP 0x0100_0001 and USBLEGCTLSTS 0x2001 | return, since nothing needs writing | not executed | Usb.EhciStartHangs | Usb.EhciStartFixedWrites |
| stage2/cons.early.c:214-219 | __cons_scroll moves lines from y to y + n, so the text moves down | a two-line screen showing A over B, with a line feed on the bottom line, shows A over blank | move lines up, giving B over blank | not executed | ConsGrid.ScrollAsWrittenLosesBottomLine | ConsGrid.ScrollShiftsUp |
| stage2/cons.early.c:115-119 | the dummy console's row stride `xs` is 8 bytes, but a row of 8 BGRX pixels is 32 | clearing yp * xs bytes covers 104 of the buffer's 416 | a stride of 32 bytes | not executed | ConsGeom.DummyStrideTooShort | ConsGeom.DummyFixedFits |
| muon/boot-dev.c:152-153 | FreePool gets `dev_path` after LocateDevicePath has advanced it past the nodes it matched | LocateDevicePath matching 10 bytes of the rewritten copy: the pointer freed is 10 bytes into the copy | free the copy's start | not executed | BootDev.FreeMissesCopy | BootDev.WholeDriveCases |
| acpica-osl.c:210 | AcpiOsWritePort tests `!value`, so writing 0 is refused | writing 0 to port 0x80 with width 8 gives AE_BAD_PARAMETER | no test on the value | not executed | AcpicaOsl.Machine.WritePortAsWritten | AcpicaOsl.Machine.WritePort |
| acpica-osl.c:218-222 | the 16-bit case hands the 32-bit value to `out`, which makes it a 32-bit write | a 16-bit write of 0x12345 to port 0x80 | a 16-bit out of the low half | not executed | AcpicaOsl.WritePortAsWrittenExample | AcpicaOsl.WritePortAgreement |
