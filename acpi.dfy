/**
 * The ACPI tables stage 2 reads to find the I/O APICs (ACPI 6.x: the Root
 * System Description Pointer of section 5.2.5.3, the table header of
 * section 5.2.6, the XSDT of section 5.2.8 and the MADT of section 5.2.12
 * with its I/O APIC structure of section 5.2.12.3), read from physical
 * memory.
 */
module Acpi {
  import opened Common

  /** Physical memory; an address nothing answers for reads as all ones. */
  function PhysByte(phys: seq<u8>, a: int): u8
  {
    if 0 <= a < |phys| then phys[a] else 0xff
  }

  function Phys16(phys: seq<u8>, a: int): u16
  {
    PhysByte(phys, a) + PhysByte(phys, a + 1) * 0x100
  }

  function Phys32(phys: seq<u8>, a: int): u32
  {
    Phys16(phys, a) + Phys16(phys, a + 2) * 0x1_0000
  }

  function Phys64(phys: seq<u8>, a: int): u64
  {
    Phys32(phys, a) + Phys32(phys, a + 4) * U32_MOD
  }

  /** The bytes at a..a+|sig| are the signature: memcmp(a, sig, |sig|) == 0. */
  predicate HasSignature(phys: seq<u8>, a: int, sig: seq<u8>)
  {
    forall k :: 0 <= k < |sig| ==> PhysByte(phys, a + k) == sig[k]
  }

  /** "RSD PTR " and "APIC" as bytes. */
  const RSDP_SIG: seq<u8> := [0x52, 0x53, 0x44, 0x20, 0x50, 0x54, 0x52, 0x20]
  const MADT_SIG: seq<u8> := [0x41, 0x50, 0x49, 0x43]

  lemma SignatureText()
    ensures |RSDP_SIG| == 8 && forall k :: 0 <= k < 8 ==> RSDP_SIG[k] == "RSD PTR "[k] as int
    ensures |MADT_SIG| == 4 && forall k :: 0 <= k < 4 ==> MADT_SIG[k] == "APIC"[k] as int
  {
  }

  /** RSDP: the 64-bit physical address of the XSDT. */
  const RSDP_XSDT_OFF: int := 24
  /** Every system description table: the 4-byte signature, then the 32-bit length. */
  const HDR_LENGTH_OFF: int := 4
  const HDR_SIZE: int := 36
  /** XSDT: 64-bit table addresses follow the header. */
  const XSDT_ENTRY_SIZE: int := 8
  /** MADT: the interrupt controller structures follow the header and two 32-bit fields. */
  const MADT_ICS_OFF: int := 44
  /** Interrupt controller structure: type byte, length byte; an I/O APIC is type 1, its address at offset 4. */
  const IC_LENGTH_OFF: int := 1
  const MADT_IC_IOAPIC: int := 1
  const IOAPIC_ADDR_OFF: int := 4

  function TableLength(phys: seq<u8>, t: int): u32
  {
    Phys32(phys, t + HDR_LENGTH_OFF)
  }

  /**
   * acpi_map_tab maps sizeof(acpi_table_union_t) bytes first and, if the
   * table says it is longer, remaps it whole; acpi_unmap_tab rounds a short
   * length up to the union's size.
   */
  function MapTabSize(len: int, unionSize: int): (n: int)
  {
    if len > unionSize then len else unionSize
  }

  function UnmapTabSize(len: int, unionSize: int): (n: int)
  {
    if len < unionSize then unionSize else len
  }

  /** Both are the larger of the two sizes, so each unmap matches its map. */
  lemma TabSizesAgree(len: int, unionSize: int)
    ensures MapTabSize(len, unionSize) == UnmapTabSize(len, unionSize)
    ensures MapTabSize(len, unionSize) >= len && MapTabSize(len, unionSize) >= unionSize
    ensures MapTabSize(len, unionSize) == len || MapTabSize(len, unionSize) == unionSize
  {
  }

  /**
   * num_tabs = (xsdt_sz - sizeof(acpi_header_t)) / sizeof(uint64_t), in
   * 32-bit size_t arithmetic.
   */
  function NumTabs(len: u32): (n: nat)
  {
    ((len - HDR_SIZE) % U32_MOD) / XSDT_ENTRY_SIZE
  }

  /** A well-formed XSDT: the entries counted are exactly those within its length. */
  lemma NumTabsFits(len: u32)
    requires len >= HDR_SIZE
    ensures HDR_SIZE + NumTabs(len) * XSDT_ENTRY_SIZE <= len < HDR_SIZE + (NumTabs(len) + 1) * XSDT_ENTRY_SIZE
  {
  }

  /**
   * A length below the header's size wraps the subtraction: the loop then
   * counts more than half a billion entries, reaching far past the table.
   */
  lemma NumTabsWraps(len: u32)
    requires len < HDR_SIZE
    ensures NumTabs(len) >= 0x1fff_fffb
    ensures HDR_SIZE + NumTabs(len) * XSDT_ENTRY_SIZE > len + 0xffff_ffd0
  {
  }

  /** Entry i of the XSDT at x: the physical address of a table. */
  function XsdtEntry(phys: seq<u8>, x: int, i: nat): u64
  {
    Phys64(phys, x + HDR_SIZE + XSDT_ENTRY_SIZE * i)
  }

  function IcLength(phys: seq<u8>, ic: int): u8
  {
    PhysByte(phys, ic + IC_LENGTH_OFF)
  }

  /**
   * The interrupt controller structures the MADT loop visits, from `ic`
   * on, each found by adding the previous one's length, until the position
   * equals `end`. None when the position never equals `end`: a zero length
   * repeats a structure forever, and a position past `end` only grows.
   */
  function IcsFrom(phys: seq<u8>, ic: int, end: int): (r: Option<seq<int>>)
    decreases end - ic
  {
    if ic == end then Some([])
    else if ic > end || IcLength(phys, ic) == 0 then None
    else match IcsFrom(phys, ic + IcLength(phys, ic), end)
      case None => None
      case Some(rest) => Some([ic] + rest)
  }

  /** The position after k steps of the loop `ic += u->header.length`. */
  function Walk(phys: seq<u8>, ic: int, k: nat): int
  {
    if k == 0 then ic else var p := Walk(phys, ic, k - 1); p + IcLength(phys, p)
  }

  lemma {:induction false} WalkShift(phys: seq<u8>, ic: int, k: nat)
    ensures Walk(phys, ic + IcLength(phys, ic), k) == Walk(phys, ic, k + 1)
    decreases k
  {
    if k > 0 {
      WalkShift(phys, ic, k - 1);
    }
  }

  lemma {:induction false} WalkMonotone(phys: seq<u8>, ic: int, j: nat, k: nat)
    requires j <= k
    ensures Walk(phys, ic, j) <= Walk(phys, ic, k)
    decreases k
  {
    if j < k {
      WalkMonotone(phys, ic, j, k - 1);
    }
  }

  /**
   * IcsFrom lists exactly the positions the loop passes through before it
   * stops: the k-th one is where the loop is after k steps, none of them is
   * `end`, and the step after the last one lands on `end`.
   */
  lemma {:induction false} IcsFromWalk(phys: seq<u8>, ic: int, end: int)
    requires IcsFrom(phys, ic, end).Some?
    ensures var r := IcsFrom(phys, ic, end).value;
      Walk(phys, ic, |r|) == end && forall k :: 0 <= k < |r| ==> r[k] == Walk(phys, ic, k) != end
    decreases end - ic
  {
    if ic != end {
      var next := ic + IcLength(phys, ic);
      IcsFromWalk(phys, next, end);
      var rest := IcsFrom(phys, next, end).value;
      WalkShift(phys, ic, |rest|);
      forall k | 0 <= k < |rest| + 1
        ensures ([ic] + rest)[k] == Walk(phys, ic, k) != end
      {
        if k > 0 {
          WalkShift(phys, ic, k - 1);
        }
      }
    }
  }

  /** The loop stops only if IcsFrom says so: if some step lands on `end`, the list exists. */
  lemma {:induction false} WalkReachesIcs(phys: seq<u8>, ic: int, end: int, k: nat)
    requires Walk(phys, ic, k) == end
    ensures IcsFrom(phys, ic, end).Some?
    decreases k
  {
    if ic != end {
      assert k > 0;
      WalkMonotone(phys, ic, 0, k);
      if IcLength(phys, ic) == 0 {
        ZeroLengthStuck(phys, ic, k);
      } else {
        WalkShift(phys, ic, k - 1);
        WalkReachesIcs(phys, ic + IcLength(phys, ic), end, k - 1);
      }
    }
  }

  lemma {:induction false} ZeroLengthStuck(phys: seq<u8>, ic: int, k: nat)
    requires IcLength(phys, ic) == 0
    ensures Walk(phys, ic, k) == ic
    decreases k
  {
    if k > 0 {
      ZeroLengthStuck(phys, ic, k - 1);
    }
  }

  /** The MADT at t: its structures run from offset 44 up to its length. */
  function MadtIcs(phys: seq<u8>, t: int): Option<seq<int>>
  {
    IcsFrom(phys, t + MADT_ICS_OFF, t + TableLength(phys, t))
  }

  /** The I/O APIC register blocks named by the structures at the positions given, in order. */
  function IoApicsAt(phys: seq<u8>, ics: seq<int>): (bases: seq<int>)
    ensures |bases| <= |ics|
  {
    if |ics| == 0 then []
    else IoApicsAt(phys, ics[..|ics| - 1]) + IoApicOf(phys, ics[|ics| - 1])
  }

  function IoApicOf(phys: seq<u8>, ic: int): seq<int>
  {
    if PhysByte(phys, ic) == MADT_IC_IOAPIC then [Phys32(phys, ic + IOAPIC_ADDR_OFF)] else []
  }

  /** Every block listed comes from an I/O APIC structure among those positions. */
  lemma {:induction false} IoApicsAtFrom(phys: seq<u8>, ics: seq<int>, b: int)
    requires b in IoApicsAt(phys, ics)
    ensures exists k :: 0 <= k < |ics| && PhysByte(phys, ics[k]) == MADT_IC_IOAPIC && b == Phys32(phys, ics[k] + IOAPIC_ADDR_OFF)
    decreases |ics|
  {
    var last := ics[|ics| - 1];
    if b in IoApicsAt(phys, ics[..|ics| - 1]) {
      IoApicsAtFrom(phys, ics[..|ics| - 1], b);
      var k :| 0 <= k < |ics| - 1 && PhysByte(phys, ics[..|ics| - 1][k]) == MADT_IC_IOAPIC &&
        b == Phys32(phys, ics[..|ics| - 1][k] + IOAPIC_ADDR_OFF);
      assert ics[k] == ics[..|ics| - 1][k];
    } else {
      assert b in IoApicOf(phys, last);
    }
  }

  /** ... and every I/O APIC structure among them contributes its block. */
  lemma {:induction false} IoApicsAtAll(phys: seq<u8>, ics: seq<int>, k: nat)
    requires k < |ics| && PhysByte(phys, ics[k]) == MADT_IC_IOAPIC
    ensures Phys32(phys, ics[k] + IOAPIC_ADDR_OFF) in IoApicsAt(phys, ics)
    decreases |ics|
  {
    if k < |ics| - 1 {
      IoApicsAtAll(phys, ics[..|ics| - 1], k);
      assert ics[..|ics| - 1][k] == ics[k];
    }
  }

  /** The I/O APICs of the MADT at t, in the order the loop visits them. */
  function MadtIoApics(phys: seq<u8>, t: int): seq<int>
    requires MadtIcs(phys, t).Some?
  {
    IoApicsAt(phys, MadtIcs(phys, t).value)
  }

  predicate IsMadt(phys: seq<u8>, t: int)
  {
    HasSignature(phys, t, MADT_SIG)
  }

  /** The first n entries of the XSDT at x: every MADT among them ends where its length says. */
  predicate MadtsWellFormed(phys: seq<u8>, x: int, n: nat)
  {
    forall i :: 0 <= i < n ==> IsMadt(phys, XsdtEntry(phys, x, i)) ==> MadtIcs(phys, XsdtEntry(phys, x, i)).Some?
  }

  /** The I/O APICs of all MADTs among the first n entries of the XSDT at x, in order. */
  function XsdtIoApics(phys: seq<u8>, x: int, n: nat): seq<int>
    requires MadtsWellFormed(phys, x, n)
  {
    if n == 0 then []
    else XsdtIoApics(phys, x, n - 1) + TableIoApics(phys, XsdtEntry(phys, x, n - 1))
  }

  function TableIoApics(phys: seq<u8>, t: int): seq<int>
    requires IsMadt(phys, t) ==> MadtIcs(phys, t).Some?
  {
    if IsMadt(phys, t) then MadtIoApics(phys, t) else []
  }
}
