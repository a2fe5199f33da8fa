/**
 * EHCI legacy ownership handoff (stage2/usb-ehci.c; EHCI specification
 * revision 1.0, section 5.1): the walk of the extended capability list in
 * PCI configuration space, the ownership request in USBLEGSUP and the
 * spin until the firmware lets go, and the mapping of the controller's
 * registers around it.
 *
 * A controller's configuration space is a value: what in_pci_d returns at
 * each offset before the handoff. What the USBLEGSUP register shows on
 * each read after the request is a separate sequence, since the firmware
 * changes it behind the program's back.
 */
module UsbEhci {
  import opened Common
  import opened UsbCommon
  import Pci

  /** What in_pci_d returns at an offset (the key); one nothing answers for reads all ones. */
  function CfgDword(cfg: map<int, bv32>, off: bv8): bv32
  {
    if off as int in cfg then cfg[off as int] else 0xffff_ffff
  }

  /** EECP, bits 15:8 of HCCPARAMS: the offset of the first extended capability. */
  function Eecp(hccp: bv32): bv8
  {
    ((hccp >> 8) & 0xff) as bv8
  }

  /** A capability dword's id (bits 7:0) and next-capability offset (bits 15:8). */
  function CapId(cap: bv32): bv8
  {
    (cap & 0xff) as bv8
  }

  function NextCap(cap: bv32): bv8
  {
    ((cap >> 8) & 0xff) as bv8
  }

  /** Offsets below 0x40 lie in the standard configuration header, so the list ends there. */
  const EECP_MIN: bv8 := 0x40

  /**
   * The reference walk: the first capability with the legacy id on the
   * list from `off`, following at most `fuel` capabilities.
   */
  function FindLegacy(cfg: map<int, bv32>, off: bv8, fuel: nat): (r: Option<bv8>)
    ensures r.Some? ==> r.value >= EECP_MIN && CapId(CfgDword(cfg, r.value)) == LEGACY_ID
    decreases fuel
  {
    if off < EECP_MIN || fuel == 0 then None
    else if CapId(CfgDword(cfg, off)) == LEGACY_ID then Some(off)
    else FindLegacy(cfg, NextCap(CfgDword(cfg, off)), fuel - 1)
  }

  /** The capability reads of the walk from `off`, up to and including the legacy one. */
  function Visited(cfg: map<int, bv32>, off: bv8, fuel: nat): (io: seq<Ev>)
    decreases fuel
  {
    if off < EECP_MIN || fuel == 0 then []
    else
      var cap := CfgDword(cfg, off);
      [Rd32(Cfg(off), cap)] + (if CapId(cap) == LEGACY_ID then [] else Visited(cfg, NextCap(cap), fuel - 1))
  }

  /** How a walk that finds nothing ends: at the end of the list, or out of fuel. */
  function WalkEnd(cfg: map<int, bv32>, off: bv8, fuel: nat): (o: Outcome)
    decreases fuel
  {
    if off < EECP_MIN then NotFound
    else if fuel == 0 then Exhausted
    else if CapId(CfgDword(cfg, off)) == LEGACY_ID then Unchanged
    else WalkEnd(cfg, NextCap(CfgDword(cfg, off)), fuel - 1)
  }

  /**
   * At the legacy capability at `off`, whose USBLEGSUP read `cap1`: read
   * USBLEGCTLSTS; if the request changes USBLEGSUP, write it and spin on
   * the BIOS-owned bit.
   */
  function Claim(cfg: map<int, bv32>, off: bv8, cap1: bv32, spin: seq<bv32>): (r: Run)
  {
    var ctl := [Rd32(Cfg(off + 4), CfgDword(cfg, off + 4))];
    var newCap1 := Request(cap1);
    if newCap1 == cap1 then Run(Unchanged, ctl)
    else Run(if Released(spin) then Written else Spinning, ctl + [Wr32(Cfg(off), newCap1)] + SpinReads(Cfg(off), spin))
  }

  /** ehci_stop_legacy from the capability at `off`, with `fuel` capabilities left to follow. */
  function StopWalk(cfg: map<int, bv32>, off: bv8, spin: seq<bv32>, fuel: nat): (r: Run)
    decreases fuel
  {
    if off < EECP_MIN then Run(NotFound, [])
    else if fuel == 0 then Run(Exhausted, [])
    else
      var cap1 := CfgDword(cfg, off);
      if CapId(cap1) == LEGACY_ID then Prepend([Rd32(Cfg(off), cap1)], Claim(cfg, off, cap1, spin))
      else Prepend([Rd32(Cfg(off), cap1)], StopWalk(cfg, NextCap(cap1), spin, fuel - 1))
  }

  /** The part at the legacy capability, as a method. */
  method ClaimLegacy(cfg: map<int, bv32>, off: bv8, cap1: bv32, spin: seq<bv32>) returns (r: Run)
    ensures r == Claim(cfg, off, cap1, spin)
  {
    var cap2 := CfgDword(cfg, off + 4);
    var io := [Rd32(Cfg(off + 4), cap2)];
    var newCap1 := Request(cap1);
    if newCap1 == cap1 {
      return Run(Unchanged, io);
    }
    io := io + [Wr32(Cfg(off), newCap1)];
    var rereads, released := Spin(Cfg(off), spin);
    r := Run(if released then Written else Spinning, io + rereads);
  }

  /** ehci_stop_legacy, following at most `fuel` capabilities. */
  method StopLegacy(cfg: map<int, bv32>, hccp: bv32, spin: seq<bv32>, fuel: nat) returns (r: Run)
    ensures r == StopWalk(cfg, Eecp(hccp), spin, fuel)
  {
    var off := Eecp(hccp);
    var f := fuel;
    var io: seq<Ev> := [];
    while off >= EECP_MIN && f > 0
      invariant Prepend(io, StopWalk(cfg, off, spin, f)) == StopWalk(cfg, Eecp(hccp), spin, fuel)
      decreases f
    {
      var cap1 := CfgDword(cfg, off);
      if CapId(cap1) == LEGACY_ID {
        var rest := ClaimLegacy(cfg, off, cap1, spin);
        AppendAssoc(io, [Rd32(Cfg(off), cap1)], rest.io);
        return Run(rest.outcome, io + [Rd32(Cfg(off), cap1)] + rest.io);
      }
      AppendAssoc(io, [Rd32(Cfg(off), cap1)], StopWalk(cfg, NextCap(cap1), spin, f - 1).io);
      io := io + [Rd32(Cfg(off), cap1)];
      off := NextCap(cap1);
      f := f - 1;
    }
    r := Run(if off < EECP_MIN then NotFound else Exhausted, io);
  }

  /**
   * The walk reads every capability it visits, and then either handles the
   * legacy capability the reference walk finds or ends as the reference
   * walk does.
   */
  lemma {:induction false} StopWalkSplits(cfg: map<int, bv32>, off: bv8, spin: seq<bv32>, fuel: nat)
    ensures FindLegacy(cfg, off, fuel).Some? ==>
      StopWalk(cfg, off, spin, fuel) ==
        Prepend(Visited(cfg, off, fuel), Claim(cfg, FindLegacy(cfg, off, fuel).value, CfgDword(cfg, FindLegacy(cfg, off, fuel).value), spin))
    ensures FindLegacy(cfg, off, fuel).None? ==>
      StopWalk(cfg, off, spin, fuel) == Run(WalkEnd(cfg, off, fuel), Visited(cfg, off, fuel))
    ensures FindLegacy(cfg, off, fuel).None? ==> WalkEnd(cfg, off, fuel) in {NotFound, Exhausted}
    decreases fuel
  {
    if off >= EECP_MIN && fuel > 0 {
      var cap1 := CfgDword(cfg, off);
      if CapId(cap1) != LEGACY_ID {
        StopWalkSplits(cfg, NextCap(cap1), spin, fuel - 1);
        var rest := StopWalk(cfg, NextCap(cap1), spin, fuel - 1);
        var vis := Visited(cfg, NextCap(cap1), fuel - 1);
        if FindLegacy(cfg, off, fuel).Some? {
          var l := FindLegacy(cfg, off, fuel).value;
          AppendAssoc([Rd32(Cfg(off), cap1)], vis, Claim(cfg, l, CfgDword(cfg, l), spin).io);
        }
      } else {
        assert [Rd32(Cfg(off), cap1)] + [] == [Rd32(Cfg(off), cap1)];
      }
    }
  }

  /** The walk before the legacy capability only reads. */
  lemma {:induction false} VisitedReads(cfg: map<int, bv32>, off: bv8, fuel: nat)
    ensures Writes(Visited(cfg, off, fuel)) == []
    ensures forall i :: 0 <= i < |Visited(cfg, off, fuel)| ==> Visited(cfg, off, fuel)[i].Rd32?
    ensures forall i :: 0 <= i < |Visited(cfg, off, fuel)| ==> Visited(cfg, off, fuel)[i].at.Cfg?
    decreases fuel
  {
    if off >= EECP_MIN && fuel > 0 {
      var cap := CfgDword(cfg, off);
      if CapId(cap) != LEGACY_ID {
        VisitedReads(cfg, NextCap(cap), fuel - 1);
        WritesAppend([Rd32(Cfg(off), cap)], Visited(cfg, NextCap(cap), fuel - 1));
      }
    }
  }

  /**
   * ehci_stop_legacy writes nothing but the ownership request, once, into
   * the USBLEGSUP of the capability the reference walk finds, and only when
   * the request changes it; USBLEGCTLSTS is read and never written.
   */
  lemma StopWrites(cfg: map<int, bv32>, hccp: bv32, spin: seq<bv32>, fuel: nat)
    ensures Writes(StopWalk(cfg, Eecp(hccp), spin, fuel).io) == LegacyWrites(cfg, FindLegacy(cfg, Eecp(hccp), fuel))
  {
    var off := Eecp(hccp);
    StopWalkSplits(cfg, off, spin, fuel);
    VisitedReads(cfg, off, fuel);
    var vis := Visited(cfg, off, fuel);
    if FindLegacy(cfg, off, fuel).Some? {
      var l := FindLegacy(cfg, off, fuel).value;
      ClaimWrites(cfg, l, CfgDword(cfg, l), spin);
      WritesAppend(vis, Claim(cfg, l, CfgDword(cfg, l), spin).io);
    }
  }

  lemma ClaimWrites(cfg: map<int, bv32>, off: bv8, cap1: bv32, spin: seq<bv32>)
    ensures Writes(Claim(cfg, off, cap1, spin).io) == RequestWrite(Cfg(off), cap1)
  {
    var ctl := [Rd32(Cfg(off + 4), CfgDword(cfg, off + 4))];
    if Request(cap1) != cap1 {
      var w := [Wr32(Cfg(off), Request(cap1))];
      SpinWrites(Cfg(off), spin);
      WritesAppend(ctl + w, SpinReads(Cfg(off), spin));
      WritesAppend(ctl, w);
    }
  }

  /** The writes the handoff makes, by the legacy capability the reference walk finds. */
  function LegacyWrites(cfg: map<int, bv32>, found: Option<bv8>): (w: seq<Ev>)
  {
    match found
    case None => []
    case Some(l) => RequestWrite(Cfg(l), CfgDword(cfg, l))
  }

  /** How ehci_stop_legacy ends, by what the reference walk finds and what the firmware does. */
  lemma StopOutcome(cfg: map<int, bv32>, hccp: bv32, spin: seq<bv32>, fuel: nat)
    ensures FindLegacy(cfg, Eecp(hccp), fuel).None? ==> StopWalk(cfg, Eecp(hccp), spin, fuel).outcome in {NotFound, Exhausted}
    ensures FindLegacy(cfg, Eecp(hccp), fuel).Some? ==>
      var cap1 := CfgDword(cfg, FindLegacy(cfg, Eecp(hccp), fuel).value);
      StopWalk(cfg, Eecp(hccp), spin, fuel).outcome ==
        if Request(cap1) == cap1 then Unchanged else if Released(spin) then Written else Spinning
  {
    StopWalkSplits(cfg, Eecp(hccp), spin, fuel);
  }

  /**
   * When the request is written and USBLEGSUP then reads BIOS-owned N
   * times before reading it clear, the write is followed by exactly N + 1
   * reads of USBLEGSUP, the last accesses of the routine, and it returns.
   */
  lemma StopSpins(cfg: map<int, bv32>, hccp: bv32, spin: seq<bv32>, fuel: nat, n: nat)
    requires FindLegacy(cfg, Eecp(hccp), fuel).Some?
    requires Request(CfgDword(cfg, FindLegacy(cfg, Eecp(hccp), fuel).value)) != CfgDword(cfg, FindLegacy(cfg, Eecp(hccp), fuel).value)
    requires n < |spin| && !Held(spin[n]) && forall i :: 0 <= i < n ==> Held(spin[i])
    ensures var l := FindLegacy(cfg, Eecp(hccp), fuel).value;
      var io := StopWalk(cfg, Eecp(hccp), spin, fuel).io;
      |io| >= n + 2 && io[|io| - (n + 2)] == Wr32(Cfg(l), Request(CfgDword(cfg, l))) &&
      io[|io| - (n + 1)..] == seq(n + 1, i requires 0 <= i < n + 1 => Rd32(Cfg(l), spin[i]))
    ensures StopWalk(cfg, Eecp(hccp), spin, fuel).outcome == Written
  {
    var l := FindLegacy(cfg, Eecp(hccp), fuel).value;
    StopWalkSplits(cfg, Eecp(hccp), spin, fuel);
    SpinCount(Cfg(l), spin, n);
    var vis := Visited(cfg, Eecp(hccp), fuel);
    var ctl := [Rd32(Cfg(l + 4), CfgDword(cfg, l + 4))];
    var w := [Wr32(Cfg(l), Request(CfgDword(cfg, l)))];
    var rereads := SpinReads(Cfg(l), spin);
    AppendAssoc(vis, ctl + w, rereads);
    AppendAssoc(vis, ctl, w);
    var io := StopWalk(cfg, Eecp(hccp), spin, fuel).io;
    assert io == vis + ctl + w + rereads;
    assert io[|io| - (n + 1)..] == rereads;
  }

  /** ehci_stop_legacy touches configuration space only. */
  lemma StopCfgOnly(cfg: map<int, bv32>, off: bv8, spin: seq<bv32>, fuel: nat)
    ensures CfgOnly(StopWalk(cfg, off, spin, fuel).io)
  {
    StopWalkSplits(cfg, off, spin, fuel);
    VisitedReads(cfg, off, fuel);
    var vis := Visited(cfg, off, fuel);
    assert CfgOnly(vis);
    if FindLegacy(cfg, off, fuel).Some? {
      var l := FindLegacy(cfg, off, fuel).value;
      ClaimCfgOnly(cfg, l, CfgDword(cfg, l), spin);
      CfgOnlyAppend(vis, Claim(cfg, l, CfgDword(cfg, l), spin).io);
    }
  }

  lemma ClaimCfgOnly(cfg: map<int, bv32>, off: bv8, cap1: bv32, spin: seq<bv32>)
    ensures CfgOnly(Claim(cfg, off, cap1, spin).io)
  {
    var ctl := [Rd32(Cfg(off + 4), CfgDword(cfg, off + 4))];
    if Request(cap1) != cap1 {
      SpinWrites(Cfg(off), spin);
      CfgOnlyAppend(ctl, [Wr32(Cfg(off), Request(cap1))]);
      CfgOnlyAppend(ctl + [Wr32(Cfg(off), Request(cap1))], SpinReads(Cfg(off), spin));
    }
  }

  /** usb_ehci_init_bus maps this many bytes of the controller's registers. */
  const MAP_LEN: nat := 0x200

  /** HCCPARAMS lies at offset 8 of the capability registers. */
  const HCCPARAMS_OFF: int := 8

  /**
   * usb_ehci_init_bus, with the registers mapped at `hcPa` (BAR 0) and
   * `mmio` the values their rereads return: map, read HCCPARAMS, hand off,
   * unmap — unless the handoff never returns.
   */
  function InitBus(mmio: map<int, bv32>, hcPa: int, cfg: map<int, bv32>, spin: seq<bv32>, fuel: nat): (r: Run)
  {
    var m := Mapping(hcPa, MAP_LEN);
    var hccp := Dword(mmio, hcPa + HCCPARAMS_OFF);
    var stop := StopWalk(cfg, Eecp(hccp), spin, fuel);
    Run(stop.outcome, [Map(m), Rd32(Mmio(hcPa + HCCPARAMS_OFF), hccp)] + stop.io + (if Returns(stop.outcome) then [Unmap(m)] else []))
  }

  method UsbEhciInitBus(mmio: map<int, bv32>, hcPa: int, cfg: map<int, bv32>, spin: seq<bv32>, fuel: nat) returns (r: Run)
    ensures r == InitBus(mmio, hcPa, cfg, spin, fuel)
  {
    var m := Mapping(hcPa, MAP_LEN);
    var hccp := Dword(mmio, hcPa + HCCPARAMS_OFF);
    var io := [Map(m), Rd32(Mmio(hcPa + HCCPARAMS_OFF), hccp)];
    var stop := StopLegacy(cfg, hccp, spin, fuel);
    io := io + stop.io;
    if Returns(stop.outcome) {
      io := io + [Unmap(m)];
    }
    r := Run(stop.outcome, io);
  }

  /**
   * Whenever it returns, usb_ehci_init_bus touches registers only inside
   * the region it mapped and unmaps that same region, leaving the open
   * mappings as they were.
   */
  lemma InitBusMapped(mmio: map<int, bv32>, hcPa: int, cfg: map<int, bv32>, spin: seq<bv32>, fuel: nat, live: multiset<Mapping>)
    requires Returns(InitBus(mmio, hcPa, cfg, spin, fuel).outcome)
    ensures Mapped(live, InitBus(mmio, hcPa, cfg, spin, fuel).io)
    ensures LiveAfter(live, InitBus(mmio, hcPa, cfg, spin, fuel).io) == live
  {
    var m := Mapping(hcPa, MAP_LEN);
    var hccp := Dword(mmio, hcPa + HCCPARAMS_OFF);
    var stop := StopWalk(cfg, Eecp(hccp), spin, fuel);
    var body := [Rd32(Mmio(hcPa + HCCPARAMS_OFF), hccp)] + stop.io;
    StopCfgOnly(cfg, Eecp(hccp), spin, fuel);
    CfgOnlyInside(stop.io, m);
    assert forall i :: 0 <= i < |body| ==> body[i] == (if i == 0 then Rd32(Mmio(hcPa + HCCPARAMS_OFF), hccp) else stop.io[i - 1]);
    Bracket(live, m, body);
    assert [Map(m), Rd32(Mmio(hcPa + HCCPARAMS_OFF), hccp)] == [Map(m)] + [Rd32(Mmio(hcPa + HCCPARAMS_OFF), hccp)];
    AppendAssoc([Map(m)], [Rd32(Mmio(hcPa + HCCPARAMS_OFF), hccp)], stop.io);
  }

  /**
   * The ownership request as ehci_stop_legacy makes it: out_pci_d with an
   * offset that is no compile-time constant goes through
   * out_pci_d_maybe_unaligned, whose aligned case falls through. At an
   * aligned USBLEGSUP the request is then overwritten by itself shifted
   * up a byte: OS-owned takes the request's BIOS-owned bit and so ends
   * clear, and the USB SMI enable of USBLEGCTLSTS takes its OS-owned bit
   * and so ends set.
   */
  lemma RequestAsWrittenWithdraws(space: map<Pci.Addr, bv32>, locn: bv32, off: bv8, cap1: bv32)
    requires (locn >> 16) & 0x7f == 0 && off & 3 == 0
    ensures var after := Pci.WriteSpecAsWritten(space, locn, off, Request(cap1)).space;
      Pci.ReadValue(after, locn, off) & OS_OWNED == 0 &&
      Pci.ReadValue(after, locn, off + 4) & SMI_USB == SMI_USB &&
      Pci.ReadValue(after, locn, off + 4) & 0xffff_ff00 == Pci.ReadValue(space, locn, off + 4) & 0xffff_ff00
  {
    Pci.AlignedWriteAsWritten(space, locn, off, Request(cap1));
  }

  /**
   * The write the walk records, one dword: USBLEGSUP reads back as the
   * request, OS-owned set and BIOS-owned clear, and USBLEGCTLSTS is left
   * as it was.
   */
  lemma RequestCorrected(space: map<Pci.Addr, bv32>, locn: bv32, off: bv8, cap1: bv32)
    requires (locn >> 16) & 0x7f == 0
    ensures var after := Pci.WriteSpec(space, locn, off, Request(cap1)).space;
      Pci.ReadValue(after, locn, off) == Request(cap1) &&
      Pci.ReadValue(after, locn, off) & OS_OWNED == OS_OWNED && Pci.ReadValue(after, locn, off) & BIOS_OWNED == 0 &&
      (off & 3 == 0 ==> Pci.ReadValue(after, locn, off + 4) == Pci.ReadValue(space, locn, off + 4))
  {
    Pci.WriteThenRead(space, locn, off, Request(cap1));
    RequestBits(cap1);
    if off & 3 == 0 {
      var off4: bv8 := off + 4;
      assert off4 & 3 == 0;
      Pci.AddressFields(locn, off);
      Pci.AddressFields(locn, off4);
      assert !Pci.Touches(locn, off, Pci.ReadAddr(locn, off4));
    }
  }
}
