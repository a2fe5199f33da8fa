/**
 * The PCI device records stage 2 walks (BP_PCID records of the boot
 * parameter list, bdat_pci_dev_t): a device's location, its class, and
 * where stage 1 left its option ROM image.
 */
module Pcid {
  /**
   * Class, subclass and programming interface, as PCI_CIF_* compares them
   * (PCI Code and ID Assignment Specification): the controllers and video
   * adapters stage 2 singles out.
   */
  const CIF_USB_EHCI: int := 0x0c_03_20
  const CIF_USB_XHCI: int := 0x0c_03_30
  const CIF_VID_VGA: int := 0x03_00_00
  const CIF_VID_8514: int := 0x03_00_01
  const CIF_VID_XGA: int := 0x03_01_00

  /**
   * One PCI function: its location (segment, bus, device, function packed
   * into a dword), its class, the segment of its option ROM image in base
   * memory (0 if it has none) and the segment the image may use at run time.
   */
  datatype PciDev = PciDev(locn: bv32, classIf: int, rimgSeg: bv16, rimgRtSeg: bv16)

  /** A boot parameter record: a PCI device, or any other kind, by its tag. */
  datatype Record = Pcid(dev: PciDev) | OtherRecord(tag: int)

  /** The location's fields, as stage 2 prints them. */
  function LocSeg(locn: bv32): bv32
  {
    locn >> 16
  }

  function LocBus(locn: bv32): bv32
  {
    (locn >> 8) & 0xff
  }

  function LocDev(locn: bv32): bv32
  {
    (locn >> 3) & 0x1f
  }

  function LocFn(locn: bv32): bv32
  {
    locn & 7
  }

  /** The packing of a location: seg << 16 | bus << 8 | dev << 3 | fn. */
  function Locn(seg: bv16, bus: bv8, dev: bv8, fn: bv8): (locn: bv32)
    requires dev < 0x20 && fn < 8
  {
    ((seg as bv32) << 16) | ((bus as bv32) << 8) | ((dev as bv32) << 3) | (fn as bv32)
  }

  /** Decoding a packed location gives back its fields ... */
  lemma LocnDecodes(seg: bv16, bus: bv8, dev: bv8, fn: bv8)
    requires dev < 0x20 && fn < 8
    ensures LocSeg(Locn(seg, bus, dev, fn)) == seg as bv32
    ensures LocBus(Locn(seg, bus, dev, fn)) == bus as bv32
    ensures LocDev(Locn(seg, bus, dev, fn)) == dev as bv32
    ensures LocFn(Locn(seg, bus, dev, fn)) == fn as bv32
  {
  }

  /** ... and every location is the packing of its fields. */
  lemma LocnEncodes(locn: bv32)
    ensures LocDev(locn) < 0x20 && LocFn(locn) < 8 && LocBus(locn) < 0x100 && LocSeg(locn) < 0x1_0000
    ensures Locn(LocSeg(locn) as bv16, LocBus(locn) as bv8, LocDev(locn) as bv8, LocFn(locn) as bv8) == locn
  {
  }
}
