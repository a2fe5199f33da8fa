/**
 * Stage 2's interrupt controller bring-up (stage2/irq.c): find the RSDP
 * among the boot parameters, walk the XSDT to every MADT, mask all 24
 * redirection entries of every I/O APIC the MADT lists, then initialise
 * the two legacy 8259 PICs.
 *
 * The platform is an object: the virtual mappings that are live (a
 * multiset of physical windows), the ordered record of map, unmap and
 * I/O APIC register events, and the I/O APIC registers themselves.
 * Physical memory, which the tables are read from, is a constant.
 */
module Irq {
  import opened Common
  import opened Acpi
  import opened Apic
  import opened Ports

  /** PTE_CD: the page-table flag that maps a window uncached. */
  const PTE_CD: int := 0x10

  /** A physical range mem_va_map was asked to map. */
  datatype Window = Window(phys: int, size: int)

  /** What stage 2 does to its mappings and to the I/O APICs, in order. */
  datatype Event =
    | Map(w: Window, flags: int)
    | Unmap(w: Window)
    | SelStore(base: int, sel: int)
    | WinStore(base: int, value: bv32)

  /** One boot parameter record: the RSDP record's payload, or any other kind. */
  datatype Bparm = RsdpRecord(rsdpPhys: u64, rsdpSize: u32) | OtherRecord(tag: u32)

  lemma EventsAssoc(a: seq<Event>, b: seq<Event>, c: seq<Event>)
    ensures a + b + c == a + (b + c)
  {
  }

  /** The register block of the I/O APIC at `base`, as it is mapped. */
  function IoApicWindow(base: int): Window
  {
    Window(base, IOAPIC_SIZE)
  }

  /** Iteration i of the masking loop: select entry i, then set its mask bit through the window. */
  function MaskPair(d: IoApics, base: int, i: nat): seq<Event>
  {
    [SelStore(base, RedTblLo(i)), WinStore(base, RegValue(d, Reg(base, RedTblLo(i))) | RTLO_MASKED)]
  }

  /** The register events of the first n iterations of the masking loop. */
  function MaskIo(d: IoApics, base: int, n: nat): (io: seq<Event>)
    requires n <= REDIR_ENTRIES
    ensures |io| == 2 * n
  {
    if n == 0 then [] else MaskIo(d, base, n - 1) + MaskPair(MaskEntries(d, base, n - 1), base, n - 1)
  }

  /** One I/O APIC: map its block uncached, mask the 24 entries, unmap it. */
  function IoApicIo(d: IoApics, base: int): seq<Event>
  {
    [Map(IoApicWindow(base), PTE_CD)] + MaskIo(d, base, REDIR_ENTRIES) + [Unmap(IoApicWindow(base))]
  }

  /**
   * Each I/O APIC is served by exactly 48 register events between one map
   * and one unmap of its block: for i = 0..23 in order, IOREGSEL gets
   * IOREDTBLLO(i), then IOREGWIN gets that register's original contents
   * with the mask bit set.
   */
  lemma IoApicIoShape(d: IoApics, base: int, i: nat)
    requires i < REDIR_ENTRIES
    ensures |IoApicIo(d, base)| == 2 * REDIR_ENTRIES + 2
    ensures IoApicIo(d, base)[0] == Map(IoApicWindow(base), PTE_CD)
    ensures IoApicIo(d, base)[2 * REDIR_ENTRIES + 1] == Unmap(IoApicWindow(base))
    ensures IoApicIo(d, base)[1 + 2 * i] == SelStore(base, RedTblLo(i))
    ensures IoApicIo(d, base)[2 + 2 * i] == WinStore(base, RegValue(d, Reg(base, RedTblLo(i))) | RTLO_MASKED)
  {
    MaskIoAt(d, base, REDIR_ENTRIES, i);
    MaskEntriesEffect(d, base, i);
    LastLo(i + 1);
  }

  lemma {:induction false} MaskIoAt(d: IoApics, base: int, n: nat, i: nat)
    requires i < n <= REDIR_ENTRIES
    ensures MaskIo(d, base, n)[2 * i] == MaskPair(MaskEntries(d, base, i), base, i)[0]
    ensures MaskIo(d, base, n)[2 * i + 1] == MaskPair(MaskEntries(d, base, i), base, i)[1]
    decreases n
  {
    if i < n - 1 {
      MaskIoAt(d, base, n - 1, i);
    }
  }

  /** The I/O APICs at `bases`, masked one after the other. */
  function MaskAll(d: IoApics, bases: seq<int>): IoApics
  {
    if |bases| == 0 then d
    else MaskEntries(MaskAll(d, bases[..|bases| - 1]), bases[|bases| - 1], REDIR_ENTRIES)
  }

  /** The events of masking the I/O APICs at `bases` one after the other. */
  function MaskAllIo(d: IoApics, bases: seq<int>): seq<Event>
  {
    if |bases| == 0 then []
    else MaskAllIo(d, bases[..|bases| - 1]) + IoApicIo(MaskAll(d, bases[..|bases| - 1]), bases[|bases| - 1])
  }

  lemma MaskAllSnoc(d: IoApics, bases: seq<int>, b: int)
    ensures MaskAll(d, bases + [b]) == MaskEntries(MaskAll(d, bases), b, REDIR_ENTRIES)
    ensures MaskAllIo(d, bases + [b]) == MaskAllIo(d, bases) + IoApicIo(MaskAll(d, bases), b)
  {
    assert (bases + [b])[..|bases|] == bases;
  }

  lemma {:induction false} MaskAllAppend(d: IoApics, a: seq<int>, b: seq<int>)
    ensures MaskAll(d, a + b) == MaskAll(MaskAll(d, a), b)
    ensures MaskAllIo(d, a + b) == MaskAllIo(d, a) + MaskAllIo(MaskAll(d, a), b)
    decreases |b|
  {
    if |b| == 0 {
      assert a + b == a;
    } else {
      var b' := b[..|b| - 1];
      var last := b[|b| - 1];
      assert a + b == (a + b') + [last];
      assert b == b' + [last];
      MaskAllAppend(d, a, b');
      MaskAllSnoc(d, a + b', last);
      MaskAllSnoc(MaskAll(d, a), b', last);
      EventsAssoc(MaskAllIo(d, a), MaskAllIo(MaskAll(d, a), b'), IoApicIo(MaskAll(d, a + b'), last));
    }
  }

  /** What register r holds once the I/O APICs at `bases` are masked. */
  function MaskedAllValue(d: IoApics, bases: seq<int>, r: Reg): bv32
  {
    if r.base in bases && IsRedTblLo(r.index, REDIR_ENTRIES) then RegValue(d, r) | RTLO_MASKED else RegValue(d, r)
  }

  /**
   * Masking a list of I/O APICs sets the mask bit in the low half of all 24
   * redirection entries of each one listed, however often it is listed, and
   * leaves every other register as it was.
   */
  lemma {:induction false} MaskAllEffect(d: IoApics, bases: seq<int>, r: Reg)
    ensures RegValue(MaskAll(d, bases), r) == MaskedAllValue(d, bases, r)
    decreases |bases|
  {
    if |bases| > 0 {
      var pre := bases[..|bases| - 1];
      assert bases == pre + [bases[|bases| - 1]];
      MaskAllEffect(d, pre, r);
      MaskAllEffectStep(d, pre, bases[|bases| - 1], r);
    }
  }

  lemma MaskAllEffectStep(d: IoApics, pre: seq<int>, b: int, r: Reg)
    requires RegValue(MaskAll(d, pre), r) == MaskedAllValue(d, pre, r)
    ensures RegValue(MaskEntries(MaskAll(d, pre), b, REDIR_ENTRIES), r) == MaskedAllValue(d, pre + [b], r)
  {
    MaskEntriesEffect(MaskAll(d, pre), b, REDIR_ENTRIES);
    assert r.base in pre + [b] <==> r.base in pre || r.base == b;
    OrTwice(RegValue(d, r));
  }

  lemma OrTwice(x: bv32)
    ensures (x | RTLO_MASKED) | RTLO_MASKED == x | RTLO_MASKED
  {
  }

  /** acpi_map_tab's events: map the union's size, and remap if the table is longer. */
  function MapTabIo(phys: seq<u8>, unionSize: int, t: int): seq<Event>
  {
    var len := TableLength(phys, t);
    if len > unionSize then [Map(Window(t, unionSize), 0), Unmap(Window(t, unionSize)), Map(Window(t, len), 0)]
    else [Map(Window(t, unionSize), 0)]
  }

  /** acpi_unmap_tab's event. */
  function UnmapTabIo(phys: seq<u8>, unionSize: int, t: int): seq<Event>
  {
    [Unmap(Window(t, UnmapTabSize(TableLength(phys, t), unionSize)))]
  }

  /** One XSDT entry: map the table, process it if it is a MADT, unmap it. */
  function TabIo(phys: seq<u8>, unionSize: int, d: IoApics, t: int): seq<Event>
    requires IsMadt(phys, t) ==> MadtIcs(phys, t).Some?
  {
    MapTabIo(phys, unionSize, t) + MaskAllIo(d, TableIoApics(phys, t)) + UnmapTabIo(phys, unionSize, t)
  }

  /** The events of the first n iterations of the XSDT loop. */
  function XsdtIo(phys: seq<u8>, unionSize: int, d: IoApics, x: int, n: nat): seq<Event>
    requires MadtsWellFormed(phys, x, n)
  {
    if n == 0 then []
    else
      var d' := MaskAll(d, XsdtIoApics(phys, x, n - 1));
      XsdtIo(phys, unionSize, d, x, n - 1) + TabIo(phys, unionSize, d', XsdtEntry(phys, x, n - 1))
  }

  /** The XSDT an RSDP points at, and how many entries the loop reads from it. */
  function XsdtOf(phys: seq<u8>, rsdp: int): int
  {
    Phys64(phys, rsdp + RSDP_XSDT_OFF)
  }

  function XsdtTabs(phys: seq<u8>, rsdp: int): nat
  {
    NumTabs(TableLength(phys, XsdtOf(phys, rsdp)))
  }

  /** An RSDP whose tables the walk gets through: every MADT it reaches ends where its length says. */
  predicate RsdpWellFormed(phys: seq<u8>, rsdp: int)
  {
    HasSignature(phys, rsdp, RSDP_SIG) ==> MadtsWellFormed(phys, XsdtOf(phys, rsdp), XsdtTabs(phys, rsdp))
  }

  /** The I/O APICs of all MADTs the RSDP leads to, in the order they are masked. */
  function RsdpIoApics(phys: seq<u8>, rsdp: int): seq<int>
    requires HasSignature(phys, rsdp, RSDP_SIG) && RsdpWellFormed(phys, rsdp)
  {
    XsdtIoApics(phys, XsdtOf(phys, rsdp), XsdtTabs(phys, rsdp))
  }

  /** acpi_process_rsdp's events once the signature matched. */
  function RsdpIo(phys: seq<u8>, unionSize: int, d: IoApics, rsdp: int): seq<Event>
    requires HasSignature(phys, rsdp, RSDP_SIG) && RsdpWellFormed(phys, rsdp)
  {
    var x := XsdtOf(phys, rsdp);
    MapTabIo(phys, unionSize, x) + XsdtIo(phys, unionSize, d, x, XsdtTabs(phys, rsdp)) + UnmapTabIo(phys, unionSize, x)
  }

  /** The index of the first RSDP record. */
  function FirstRsdp(bparms: seq<Bparm>): (i: nat)
    requires exists k :: 0 <= k < |bparms| && bparms[k].RsdpRecord?
    ensures i < |bparms| && bparms[i].RsdpRecord?
    ensures forall j :: 0 <= j < i ==> !bparms[j].RsdpRecord?
  {
    if bparms[0].RsdpRecord? then 0
    else
      var k :| 0 <= k < |bparms| && bparms[k].RsdpRecord?;
      assert bparms[1..][k - 1] == bparms[k];
      1 + FirstRsdp(bparms[1..])
  }

  /**
   * The record list walk, `bp = bp->next` until the type is BP_RSDP: there
   * is no end-of-list test, so an RSDP record must be present.
   */
  method FindRsdp(bparms: seq<Bparm>) returns (i: nat)
    requires exists k :: 0 <= k < |bparms| && bparms[k].RsdpRecord?
    ensures i < |bparms| && bparms[i].RsdpRecord?
    ensures forall j :: 0 <= j < i ==> !bparms[j].RsdpRecord?
  {
    i := 0;
    while !bparms[i].RsdpRecord?
      invariant i < |bparms| && exists k :: i <= k < |bparms| && bparms[k].RsdpRecord?
      invariant forall j :: 0 <= j < i ==> !bparms[j].RsdpRecord?
      decreases |bparms| - i
    {
      i := i + 1;
    }
  }

  /** The first RSDP record is unique: the loop finds the one FirstRsdp names. */
  lemma FirstRsdpUnique(bparms: seq<Bparm>, i: nat)
    requires i < |bparms| && bparms[i].RsdpRecord?
    requires forall j :: 0 <= j < i ==> !bparms[j].RsdpRecord?
    ensures FirstRsdp(bparms) == i
  {
  }

  class Platform {
    /** Physical memory, and sizeof(acpi_table_union_t). */
    const phys: seq<u8>
    const unionSize: nat
    /** The physical windows mapped and not yet unmapped. */
    var live: multiset<Window>
    var events: seq<Event>
    var apics: IoApics

    constructor(phys: seq<u8>, unionSize: nat, apics: IoApics)
      ensures this.phys == phys && this.unionSize == unionSize && this.apics == apics
      ensures live == multiset{} && events == []
    {
      this.phys := phys;
      this.unionSize := unionSize;
      this.apics := apics;
      live := multiset{};
      events := [];
    }

    /** mem_va_map. */
    method MemVaMap(p: int, size: int, flags: int) returns (w: Window)
      modifies this
      ensures w == Window(p, size)
      ensures live == old(live) + multiset{w} && events == old(events) + [Map(w, flags)] && apics == old(apics)
    {
      w := Window(p, size);
      live := live + multiset{w};
      events := events + [Map(w, flags)];
    }

    /** mem_va_unmap: only a window that is mapped can be unmapped. */
    method MemVaUnmap(w: Window)
      requires w in live
      modifies this
      ensures live == old(live) - multiset{w} && events == old(events) + [Unmap(w)] && apics == old(apics)
    {
      live := live - multiset{w};
      events := events + [Unmap(w)];
    }

    /** `ioapic->IOREGSEL = v`, through the block's live mapping. */
    method StoreSel(base: int, v: int)
      requires IoApicWindow(base) in live
      modifies this
      ensures apics == Select(old(apics), base, v)
      ensures events == old(events) + [SelStore(base, v)] && live == old(live)
    {
      apics := Select(apics, base, v);
      events := events + [SelStore(base, v)];
    }

    /** `ioapic->IOREGWIN |= bits`, through the block's live mapping. */
    method OrWin(base: int, bits: bv32)
      requires IoApicWindow(base) in live
      modifies this
      ensures apics == OrWindow(old(apics), base, bits)
      ensures events == old(events) + [WinStore(base, RegValue(old(apics), Reg(base, SelOf(old(apics), base))) | bits)]
      ensures live == old(live)
    {
      var v := RegValue(apics, Reg(base, SelOf(apics, base))) | bits;
      apics := OrWindow(apics, base, bits);
      events := events + [WinStore(base, v)];
    }

    /** acpi_map_tab: the live window is max(length, union size) bytes. */
    method AcpiMapTab(t: int)
      modifies this
      ensures live == old(live) + multiset{Window(t, MapTabSize(TableLength(phys, t), unionSize))}
      ensures events == old(events) + MapTabIo(phys, unionSize, t) && apics == old(apics)
    {
      var w := MemVaMap(t, unionSize, 0);
      var sz := TableLength(phys, t);
      if sz > unionSize {
        MemVaUnmap(w);
        w := MemVaMap(t, sz, 0);
      }
    }

    /** acpi_unmap_tab: unmaps exactly the window acpi_map_tab left live. */
    method AcpiUnmapTab(t: int)
      requires Window(t, MapTabSize(TableLength(phys, t), unionSize)) in live
      modifies this
      ensures live == old(live) - multiset{Window(t, MapTabSize(TableLength(phys, t), unionSize))}
      ensures events == old(events) + UnmapTabIo(phys, unionSize, t) && apics == old(apics)
    {
      var sz := TableLength(phys, t);
      if sz < unionSize {
        sz := unionSize;
      }
      TabSizesAgree(TableLength(phys, t), unionSize);
      MemVaUnmap(Window(t, sz));
    }

    /** The IOAPIC case of the MADT loop. */
    method MaskIoApic(base: int)
      modifies this
      ensures live == old(live)
      ensures apics == MaskEntries(old(apics), base, REDIR_ENTRIES)
      ensures events == old(events) + IoApicIo(old(apics), base)
    {
      var w := MemVaMap(base, IOAPIC_SIZE, PTE_CD);
      ghost var e1 := events;
      for i := 0 to REDIR_ENTRIES
        invariant live == old(live) + multiset{w}
        invariant apics == MaskEntries(old(apics), base, i)
        invariant events == e1 + MaskIo(old(apics), base, i)
      {
        ghost var e := events;
        StoreSel(base, RedTblLo(i));
        OrWin(base, RTLO_MASKED);
        MaskIoNext(e1, old(apics), base, i, e, events);
      }
      ghost var e2 := events;
      MemVaUnmap(w);
      EventsAssoc(old(events), [Map(w, PTE_CD)], MaskIo(old(apics), base, REDIR_ENTRIES));
      EventsAssoc(old(events), [Map(w, PTE_CD)] + MaskIo(old(apics), base, REDIR_ENTRIES), [Unmap(w)]);
    }

    /** acpi_process_madt: the loop `ic += length` from the first structure to the table's end. */
    method ProcessMadt(t: int)
      requires MadtIcs(phys, t).Some?
      modifies this
      ensures live == old(live)
      ensures apics == MaskAll(old(apics), MadtIoApics(phys, t))
      ensures events == old(events) + MaskAllIo(old(apics), MadtIoApics(phys, t))
    {
      var madtEnd := t + TableLength(phys, t);
      var ic := t + MADT_ICS_OFF;
      ghost var seen: seq<int> := [];
      ghost var d0, e0 := apics, events;
      while ic != madtEnd
        invariant MadtWalk(phys, t, ic, seen) && MadtMasked(phys, seen, d0, e0, apics, events)
        invariant live == old(live)
        decreases madtEnd - ic
      {
        ghost var d, e := apics, events;
        if PhysByte(phys, ic) == MADT_IC_IOAPIC {
          MaskIoApic(Phys32(phys, ic + IOAPIC_ADDR_OFF));
        }
        var next := ic + IcLength(phys, ic);
        MadtWalkNext(phys, t, ic, next, seen);
        MadtMaskedNext(phys, ic, seen, d0, e0, d, e, apics, events);
        seen := seen + [ic];
        ic := next;
      }
      MadtDone(phys, t, seen, d0, e0, apics, events);
    }

    /** acpi_process_xsdt: every entry is mapped, processed if it is a MADT, and unmapped. */
    method ProcessXsdt(x: int)
      requires MadtsWellFormed(phys, x, NumTabs(TableLength(phys, x)))
      modifies this
      ensures live == old(live)
      ensures apics == MaskAll(old(apics), XsdtIoApics(phys, x, NumTabs(TableLength(phys, x))))
      ensures events == old(events) + XsdtIo(phys, unionSize, old(apics), x, NumTabs(TableLength(phys, x)))
    {
      var numTabs := NumTabs(TableLength(phys, x));
      ghost var d0, e0 := apics, events;
      for i := 0 to numTabs
        invariant XsdtState(phys, unionSize, x, i, d0, e0, apics, events)
        invariant live == old(live)
      {
        ghost var d, e := apics, events;
        XsdtEntryWellFormed(phys, x, numTabs, i);
        ProcessTable(XsdtEntry(phys, x, i));
        XsdtNext(phys, unionSize, x, i, d0, e0, d, e, apics, events);
      }
    }

    /** The body of the XSDT loop, for the table at t. */
    method ProcessTable(t: int)
      requires IsMadt(phys, t) ==> MadtIcs(phys, t).Some?
      modifies this
      ensures live == old(live)
      ensures apics == MaskAll(old(apics), TableIoApics(phys, t))
      ensures events == old(events) + TabIo(phys, unionSize, old(apics), t)
    {
      AcpiMapTab(t);
      ghost var e1 := events;
      if IsMadt(phys, t) {
        ProcessMadt(t);
      } else {
        NoMadtNoApics(phys, t, apics, events);
      }
      ghost var e2 := events;
      AcpiUnmapTab(t);
      EventsAssoc(old(events), MapTabIo(phys, unionSize, t), MaskAllIo(old(apics), TableIoApics(phys, t)));
    }

    /** acpi_process_rsdp: a wrong signature halts; otherwise the XSDT is mapped, processed and unmapped. */
    method ProcessRsdp(rsdp: int) returns (halted: bool)
      requires RsdpWellFormed(phys, rsdp)
      modifies this
      ensures halted <==> !HasSignature(phys, rsdp, RSDP_SIG)
      ensures live == old(live)
      ensures halted ==> apics == old(apics) && events == old(events)
      ensures !halted ==> apics == MaskAll(old(apics), RsdpIoApics(phys, rsdp))
      ensures !halted ==> events == old(events) + RsdpIo(phys, unionSize, old(apics), rsdp)
    {
      if !HasSignature(phys, rsdp, RSDP_SIG) {
        return true;
      }
      halted := false;
      var x := Phys64(phys, rsdp + RSDP_XSDT_OFF);
      AcpiMapTab(x);
      ghost var e1 := events;
      ProcessXsdt(x);
      ghost var e2 := events;
      AcpiUnmapTab(x);
      EventsAssoc(old(events), MapTabIo(phys, unionSize, x), XsdtIo(phys, unionSize, old(apics), x, XsdtTabs(phys, rsdp)));
      EventsAssoc(old(events), MapTabIo(phys, unionSize, x) + XsdtIo(phys, unionSize, old(apics), x, XsdtTabs(phys, rsdp)),
        UnmapTabIo(phys, unionSize, x));
    }

    /**
     * irq_init: map the first RSDP record's table, process it, unmap it, and
     * program the PICs. On a bad signature the system halts with the RSDP
     * still mapped and the PICs untouched.
     */
    method IrqInit(bus: Bus, bparms: seq<Bparm>) returns (halted: bool)
      requires exists k :: 0 <= k < |bparms| && bparms[k].RsdpRecord?
      requires RsdpWellFormed(phys, bparms[FirstRsdp(bparms)].rsdpPhys)
      modifies this, bus
      ensures var r := bparms[FirstRsdp(bparms)];
        halted <==> !HasSignature(phys, r.rsdpPhys, RSDP_SIG)
      ensures var r := bparms[FirstRsdp(bparms)];
        halted ==> (live == old(live) + multiset{Window(r.rsdpPhys, r.rsdpSize)} &&
                    events == old(events) + [Map(Window(r.rsdpPhys, r.rsdpSize), 0)] &&
                    apics == old(apics) && bus.trace == old(bus.trace))
      ensures var r := bparms[FirstRsdp(bparms)];
        !halted ==> (live == old(live) && apics == MaskAll(old(apics), RsdpIoApics(phys, r.rsdpPhys)) &&
                     events == old(events) + RsdpInitIo(phys, unionSize, old(apics), r) &&
                     bus.trace == old(bus.trace) + PicIo())
      ensures bus.served == old(bus.served)
    {
      var i := FindRsdp(bparms);
      FirstRsdpUnique(bparms, i);
      var rec := bparms[i];
      var w := MemVaMap(rec.rsdpPhys, rec.rsdpSize, 0);
      ghost var e1 := events;
      halted := ProcessRsdp(rec.rsdpPhys);
      if halted {
        return;
      }
      ghost var e2 := events;
      MemVaUnmap(w);
      EventsAssoc(old(events), [Map(w, 0)], RsdpIo(phys, unionSize, old(apics), rec.rsdpPhys));
      EventsAssoc(old(events), [Map(w, 0)] + RsdpIo(phys, unionSize, old(apics), rec.rsdpPhys), [Unmap(w)]);
      PicInit(bus);
    }
  }

  /** The events of irq_init's ACPI part when the RSDP is good. */
  function RsdpInitIo(phys: seq<u8>, unionSize: int, d: IoApics, r: Bparm): seq<Event>
    requires r.RsdpRecord? && HasSignature(phys, r.rsdpPhys, RSDP_SIG) && RsdpWellFormed(phys, r.rsdpPhys)
  {
    [Map(Window(r.rsdpPhys, r.rsdpSize), 0)] + RsdpIo(phys, unionSize, d, r.rsdpPhys) + [Unmap(Window(r.rsdpPhys, r.rsdpSize))]
  }

  lemma MaskIoNext(e1: seq<Event>, d: IoApics, base: int, i: nat, e: seq<Event>, e': seq<Event>)
    requires i < REDIR_ENTRIES
    requires e == e1 + MaskIo(d, base, i)
    requires e' == e + [SelStore(base, RedTblLo(i))] +
      [WinStore(base, RegValue(Select(MaskEntries(d, base, i), base, RedTblLo(i)),
        Reg(base, SelOf(Select(MaskEntries(d, base, i), base, RedTblLo(i)), base))) | RTLO_MASKED)]
    ensures e' == e1 + MaskIo(d, base, i + 1)
  {
    var p := MaskPair(MaskEntries(d, base, i), base, i);
    assert e' == e + p;
    EventsAssoc(e1, MaskIo(d, base, i), p);
  }

  /** The MADT loop's step: a position that is not the end is a structure with a length. */
  lemma IcsFromStep(phys: seq<u8>, ic: int, end: int, seen: seq<int>)
    requires ic != end && IcsFrom(phys, ic, end).Some?
    ensures ic < end && IcLength(phys, ic) > 0
    ensures IcsFrom(phys, ic + IcLength(phys, ic), end).Some?
    ensures seen + IcsFrom(phys, ic, end).value == (seen + [ic]) + IcsFrom(phys, ic + IcLength(phys, ic), end).value
  {
  }

  /** The MADT loop at position ic, having passed the structures `seen`: the rest of the walk exists. */
  ghost predicate MadtWalk(phys: seq<u8>, t: int, ic: int, seen: seq<int>)
    requires MadtIcs(phys, t).Some?
  {
    var end := t + TableLength(phys, t);
    IcsFrom(phys, ic, end).Some? && MadtIcs(phys, t).value == seen + IcsFrom(phys, ic, end).value
  }

  /** ... and the I/O APICs among the structures passed are masked. */
  ghost predicate MadtMasked(phys: seq<u8>, seen: seq<int>, d0: IoApics, e0: seq<Event>, d: IoApics, e: seq<Event>)
  {
    d == MaskAll(d0, IoApicsAt(phys, seen)) && e == e0 + MaskAllIo(d0, IoApicsAt(phys, seen))
  }

  lemma MadtWalkNext(phys: seq<u8>, t: int, ic: int, next: int, seen: seq<int>)
    requires MadtIcs(phys, t).Some? && ic != t + TableLength(phys, t) && next == ic + IcLength(phys, ic)
    requires MadtWalk(phys, t, ic, seen)
    ensures ic < t + TableLength(phys, t) && ic < next
    ensures MadtWalk(phys, t, next, seen + [ic])
  {
    IcsFromStep(phys, ic, t + TableLength(phys, t), seen);
  }

  /** One structure more: an I/O APIC structure adds its block to those masked, any other adds nothing. */
  lemma MadtMaskedNext(phys: seq<u8>, ic: int, seen: seq<int>, d0: IoApics, e0: seq<Event>,
                       d: IoApics, e: seq<Event>, d': IoApics, e': seq<Event>)
    requires MadtMasked(phys, seen, d0, e0, d, e)
    requires var b := Phys32(phys, ic + IOAPIC_ADDR_OFF);
      if PhysByte(phys, ic) == MADT_IC_IOAPIC then d' == MaskEntries(d, b, REDIR_ENTRIES) && e' == e + IoApicIo(d, b)
      else d' == d && e' == e
    ensures MadtMasked(phys, seen + [ic], d0, e0, d', e')
  {
    var found := IoApicsAt(phys, seen);
    IoApicsAtSnoc(phys, seen, ic);
    if PhysByte(phys, ic) == MADT_IC_IOAPIC {
      var b := Phys32(phys, ic + IOAPIC_ADDR_OFF);
      MaskAllSnoc(d0, found, b);
      EventsAssoc(e0, MaskAllIo(d0, found), IoApicIo(d, b));
    } else {
      assert found + [] == found;
    }
  }

  /** At the end of the table, every structure has been passed. */
  lemma MadtDone(phys: seq<u8>, t: int, seen: seq<int>, d0: IoApics, e0: seq<Event>, d: IoApics, e: seq<Event>)
    requires MadtIcs(phys, t).Some?
    requires MadtWalk(phys, t, t + TableLength(phys, t), seen) && MadtMasked(phys, seen, d0, e0, d, e)
    ensures d == MaskAll(d0, MadtIoApics(phys, t)) && e == e0 + MaskAllIo(d0, MadtIoApics(phys, t))
  {
    assert seen + [] == seen;
  }

  lemma IoApicsAtSnoc(phys: seq<u8>, ics: seq<int>, ic: int)
    ensures IoApicsAt(phys, ics + [ic]) == IoApicsAt(phys, ics) + IoApicOf(phys, ic)
  {
    assert (ics + [ic])[..|ics|] == ics;
  }

  /** The XSDT loop after i entries: the MADTs among them are processed. */
  ghost predicate XsdtState(phys: seq<u8>, unionSize: int, x: int, i: nat, d0: IoApics, e0: seq<Event>,
                            d: IoApics, e: seq<Event>)
  {
    MadtsWellFormed(phys, x, i) &&
    d == MaskAll(d0, XsdtIoApics(phys, x, i)) && e == e0 + XsdtIo(phys, unionSize, d0, x, i)
  }

  lemma XsdtEntryWellFormed(phys: seq<u8>, x: int, n: nat, i: nat)
    requires i < n && MadtsWellFormed(phys, x, n)
    ensures MadtsWellFormed(phys, x, i + 1)
    ensures IsMadt(phys, XsdtEntry(phys, x, i)) ==> MadtIcs(phys, XsdtEntry(phys, x, i)).Some?
  {
  }

  /** A table that is not a MADT masks nothing. */
  lemma NoMadtNoApics(phys: seq<u8>, t: int, d: IoApics, e: seq<Event>)
    requires !IsMadt(phys, t)
    ensures TableIoApics(phys, t) == []
    ensures d == MaskAll(d, TableIoApics(phys, t)) && e == e + MaskAllIo(d, TableIoApics(phys, t))
  {
  }

  /** One entry more: its table is mapped, processed if it is a MADT, and unmapped. */
  lemma XsdtNext(phys: seq<u8>, unionSize: int, x: int, i: nat, d0: IoApics, e0: seq<Event>,
                 d: IoApics, e: seq<Event>, d': IoApics, e': seq<Event>)
    requires MadtsWellFormed(phys, x, i + 1)
    requires XsdtState(phys, unionSize, x, i, d0, e0, d, e)
    requires var t := XsdtEntry(phys, x, i);
      d' == MaskAll(d, TableIoApics(phys, t)) && e' == e + TabIo(phys, unionSize, d, t)
    ensures XsdtState(phys, unionSize, x, i + 1, d0, e0, d', e')
  {
    var t := XsdtEntry(phys, x, i);
    MaskAllAppend(d0, XsdtIoApics(phys, x, i), TableIoApics(phys, t));
    EventsAssoc(e0, XsdtIo(phys, unionSize, d0, x, i), TabIo(phys, unionSize, d, t));
  }

  // ---------------------------------------------------------------- the 8259 PICs

  const PIC1_CMD: int := 0x20
  const PIC1_DATA: int := 0x21
  const PIC2_CMD: int := 0xa0
  const PIC2_DATA: int := 0xa1

  const ICW1_IC4: bv8 := 0x01
  const ICW1_SNGL: bv8 := 0x02
  const ICW1_ADI: bv8 := 0x04
  const ICW1_LTIM: bv8 := 0x08
  const ICW1_INIT: bv8 := 0x10
  const ICW4_X86: bv8 := 0x01
  const ICW4_EOI: bv8 := 0x02
  /** The legacy base vectors of the master's and the slave's interrupts. */
  const IRQ0: bv8 := 0x08
  const IRQ8: bv8 := 0x70
  const OCW2_EOI: bv8 := 0x20

  /**
   * The port accesses of the twelve PIC writes, each value as irq_init
   * computes it; `outp_w` takes a byte, so the complemented masks are
   * truncated to eight bits.
   */
  function PicIo(): seq<Access>
  {
    OutW(PIC1_CMD, ICW1_INIT | ICW1_IC4) + OutW(PIC2_CMD, ICW1_INIT | ICW1_IC4) +
    OutW(PIC1_DATA, IRQ0) + OutW(PIC2_DATA, IRQ8) +
    OutW(PIC1_DATA, 1 << 2) + OutW(PIC2_DATA, 1 << 1) +
    OutW(PIC1_DATA, ICW4_X86) + OutW(PIC2_DATA, ICW4_X86) +
    OutW(PIC1_DATA, !(((1 as bv8) << 0) | ((1 as bv8) << 1) | ((1 as bv8) << 2))) + OutW(PIC2_DATA, !((1 as bv8) << 0)) +
    OutW(PIC1_CMD, OCW2_EOI) + OutW(PIC2_CMD, OCW2_EOI)
  }

  /** The writes, port and byte, in order; each is followed by the delay write. */
  lemma PicIoValues()
    ensures PicIo() ==
      [Out(0x20, 0x11), Wait, Out(0xa0, 0x11), Wait, Out(0x21, 0x08), Wait, Out(0xa1, 0x70), Wait,
       Out(0x21, 0x04), Wait, Out(0xa1, 0x02), Wait, Out(0x21, 0x01), Wait, Out(0xa1, 0x01), Wait,
       Out(0x21, 0xf8), Wait, Out(0xa1, 0xfe), Wait, Out(0x20, 0x20), Wait, Out(0xa0, 0x20), Wait]
  {
  }

  /**
   * What the sequence configures: ICW1 starts initialisation for cascaded,
   * edge-triggered PICs that expect an ICW4; the base vectors are multiples
   * of 8; the master has its slave on line 2 and the slave has identity 2;
   * both run in 8086 mode without auto-EOI; afterwards only IRQs 0, 1 and 2
   * of the master and IRQ 8 of the slave are unmasked.
   */
  lemma PicConfiguration(line: nat)
    requires line < 8
    ensures var w := PicIo();
      w[0].value & ICW1_INIT != 0 && w[0].value & ICW1_IC4 != 0 && w[0].value & ICW1_SNGL == 0 &&
      w[0].value & ICW1_LTIM == 0 && w[2].value == w[0].value
    ensures var w := PicIo(); w[4].value & 7 == 0 && w[6].value & 7 == 0
    ensures var w := PicIo(); w[8].value == 1 << 2 && w[10].value == 2
    ensures var w := PicIo(); w[12].value & ICW4_X86 != 0 && w[12].value & ICW4_EOI == 0 && w[14].value == w[12].value
    ensures var w := PicIo(); (w[16].value & (1 << line) == 0) <==> line <= 2
    ensures var w := PicIo(); (w[18].value & (1 << line) == 0) <==> line == 0
  {
    PicIoValues();
    if line == 0 {
    } else if line == 1 {
    } else if line == 2 {
    } else if line == 3 {
    } else if line == 4 {
    } else if line == 5 {
    } else if line == 6 {
    } else {
    }
  }

  /** irq_init's PIC part. */
  method PicInit(bus: Bus)
    modifies bus
    ensures bus.trace == old(bus.trace) + PicIo() && bus.served == old(bus.served)
  {
    bus.OutpW(PIC1_CMD, ICW1_INIT | ICW1_IC4);
    ghost var sent := OutW(PIC1_CMD, ICW1_INIT | ICW1_IC4);
    bus.OutpW(PIC2_CMD, ICW1_INIT | ICW1_IC4);
    AppendAssoc(old(bus.trace), sent, OutW(PIC2_CMD, ICW1_INIT | ICW1_IC4));
    sent := sent + OutW(PIC2_CMD, ICW1_INIT | ICW1_IC4);
    bus.OutpW(PIC1_DATA, IRQ0);
    AppendAssoc(old(bus.trace), sent, OutW(PIC1_DATA, IRQ0));
    sent := sent + OutW(PIC1_DATA, IRQ0);
    bus.OutpW(PIC2_DATA, IRQ8);
    AppendAssoc(old(bus.trace), sent, OutW(PIC2_DATA, IRQ8));
    sent := sent + OutW(PIC2_DATA, IRQ8);
    bus.OutpW(PIC1_DATA, 1 << 2);
    AppendAssoc(old(bus.trace), sent, OutW(PIC1_DATA, 1 << 2));
    sent := sent + OutW(PIC1_DATA, 1 << 2);
    bus.OutpW(PIC2_DATA, 1 << 1);
    AppendAssoc(old(bus.trace), sent, OutW(PIC2_DATA, 1 << 1));
    sent := sent + OutW(PIC2_DATA, 1 << 1);
    bus.OutpW(PIC1_DATA, ICW4_X86);
    AppendAssoc(old(bus.trace), sent, OutW(PIC1_DATA, ICW4_X86));
    sent := sent + OutW(PIC1_DATA, ICW4_X86);
    bus.OutpW(PIC2_DATA, ICW4_X86);
    AppendAssoc(old(bus.trace), sent, OutW(PIC2_DATA, ICW4_X86));
    sent := sent + OutW(PIC2_DATA, ICW4_X86);
    bus.OutpW(PIC1_DATA, !(((1 as bv8) << 0) | ((1 as bv8) << 1) | ((1 as bv8) << 2)));
    AppendAssoc(old(bus.trace), sent, OutW(PIC1_DATA, !(((1 as bv8) << 0) | ((1 as bv8) << 1) | ((1 as bv8) << 2))));
    sent := sent + OutW(PIC1_DATA, !(((1 as bv8) << 0) | ((1 as bv8) << 1) | ((1 as bv8) << 2)));
    bus.OutpW(PIC2_DATA, !((1 as bv8) << 0));
    AppendAssoc(old(bus.trace), sent, OutW(PIC2_DATA, !((1 as bv8) << 0)));
    sent := sent + OutW(PIC2_DATA, !((1 as bv8) << 0));
    bus.OutpW(PIC1_CMD, OCW2_EOI);
    AppendAssoc(old(bus.trace), sent, OutW(PIC1_CMD, OCW2_EOI));
    sent := sent + OutW(PIC1_CMD, OCW2_EOI);
    bus.OutpW(PIC2_CMD, OCW2_EOI);
    AppendAssoc(old(bus.trace), sent, OutW(PIC2_CMD, OCW2_EOI));
    sent := sent + OutW(PIC2_CMD, OCW2_EOI);
  }
}
