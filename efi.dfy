/**
 * The few UEFI definitions the bootloader's logic depends on: memory
 * descriptor types (UEFI 2.x section 7.2, EFI_MEMORY_TYPE), status codes
 * (appendix D) and graphics pixel formats (section 12.9).
 */
module Efi {
  import opened Common

  const EfiReservedMemoryType: int := 0
  const EfiLoaderCode: int := 1
  const EfiLoaderData: int := 2
  const EfiBootServicesCode: int := 3
  const EfiBootServicesData: int := 4
  const EfiRuntimeServicesCode: int := 5
  const EfiRuntimeServicesData: int := 6
  const EfiConventionalMemory: int := 7
  const EfiUnusableMemory: int := 8
  const EfiACPIReclaimMemory: int := 9
  const EfiACPIMemoryNVS: int := 10
  const EfiMemoryMappedIO: int := 11
  const EfiMemoryMappedIOPortSpace: int := 12
  const EfiPalCode: int := 13
  /** The stage 1 loader defines this one itself, as EfiPalCode + 1. */
  const EfiPersistentMemory: int := EfiPalCode + 1

  /** One entry of the firmware memory map. */
  datatype MemDesc = MemDesc(typ: u32, physStart: u64, virtStart: u64, numPages: u64, attr: u64)

  /**
   * Memory types whose pages become free once boot services are exited:
   * loader and boot services code and data, and conventional memory.
   */
  predicate FreedAtExit(typ: int)
  {
    typ == EfiLoaderCode || typ == EfiLoaderData || typ == EfiBootServicesCode ||
    typ == EfiBootServicesData || typ == EfiConventionalMemory
  }

  /** First byte past the descriptor's range, computed in 64-bit arithmetic. */
  function DescEnd(d: MemDesc): (e: u64)
    ensures d.physStart + d.numPages * PAGE_SIZE < U64_MOD ==> e == d.physStart + d.numPages * PAGE_SIZE
  {
    (d.physStart + d.numPages * PAGE_SIZE) % U64_MOD
  }

  type Status = u64

  const SUCCESS: Status := 0
  const OUT_OF_RESOURCES: Status := 0x8000_0000_0000_0009
  const NOT_FOUND: Status := 0x8000_0000_0000_000e

  /** EFI_ERROR: the top bit of a status marks an error. */
  predicate IsError(s: Status)
  {
    s >= 0x8000_0000_0000_0000
  }

  const PixelRedGreenBlueReserved8BitPerColor: int := 0
  const PixelBlueGreenRedReserved8BitPerColor: int := 1
  const PixelBitMask: int := 2
  const PixelBltOnly: int := 3
}
