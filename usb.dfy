/**
 * The older USB handoff of stage2/usb.c and its driver loop usb_init.
 * Unlike usb-ehci.c and usb-xhci.c, it enables the SMIs in USBLEGCTLSTS,
 * sets OS-owned without clearing BIOS-owned, and does not wait for the
 * firmware to let go.
 *
 * The capability walks, the register values and the recorded accesses
 * are those of UsbEhci and UsbXhci.
 */
module Usb {
  import opened Common
  import opened UsbCommon
  import opened Pcid
  import UsbEhci
  import UsbXhci

  /** The new USBLEGSUP: OS-owned set, everything else, BIOS-owned included, as read. */
  function OsOwned(cap1: bv32): (v: bv32)
  {
    cap1 | OS_OWNED
  }

  /** The new USBLEGCTLSTS: the USB SMI and the OS-ownership SMI enabled. */
  function SmiEnabled(cap2: bv32): (v: bv32)
  {
    cap2 | SMI_USB | SMI_OS_ENA
  }

  /** The request sets OS-owned and keeps every other bit, BIOS-owned among them. */
  lemma OsOwnedBits(cap1: bv32)
    ensures OsOwned(cap1) & OS_OWNED == OS_OWNED
    ensures OsOwned(cap1) & !OS_OWNED == cap1 & !OS_OWNED
  {
  }

  lemma OsOwnedKeepsBios(cap1: bv32)
    ensures OsOwned(cap1) & BIOS_OWNED == cap1 & BIOS_OWNED
  {
  }

  /** Both SMI enables are set and every other bit is kept. */
  lemma SmiEnabledBits(cap2: bv32)
    ensures SmiEnabled(cap2) & (SMI_USB | SMI_OS_ENA) == SMI_USB | SMI_OS_ENA
    ensures SmiEnabled(cap2) & !(SMI_USB | SMI_OS_ENA) == cap2 & !(SMI_USB | SMI_OS_ENA)
  {
  }

  /** Both registers already hold what the handoff would write. */
  predicate AlreadySet(cap1: bv32, cap2: bv32)
  {
    OsOwned(cap1) == cap1 && SmiEnabled(cap2) == cap2
  }

  /** The writes of the handoff at a legacy capability: USBLEGCTLSTS first, then USBLEGSUP. */
  function StartWrites(sup: Loc, ctl: Loc, cap1: bv32, cap2: bv32): (w: seq<Ev>)
  {
    if AlreadySet(cap1, cap2) then [] else [Wr32(ctl, SmiEnabled(cap2)), Wr32(sup, OsOwned(cap1))]
  }

  /** They are nothing but writes, and there are none exactly when both registers are already set. */
  lemma StartWritesAreWrites(sup: Loc, ctl: Loc, cap1: bv32, cap2: bv32)
    ensures Writes(StartWrites(sup, ctl, cap1, cap2)) == StartWrites(sup, ctl, cap1, cap2)
    ensures StartWrites(sup, ctl, cap1, cap2) == [] <==> AlreadySet(cap1, cap2)
  {
    if !AlreadySet(cap1, cap2) {
      assert StartWrites(sup, ctl, cap1, cap2)[1..][1..] == [];
    }
  }

  lemma PairNoWrites(a: Ev, b: Ev)
    requires !a.Wr32? && !b.Wr32?
    ensures Writes([a, b]) == []
  {
    assert [a, b][1..][1..] == [];
  }

  // ehci_start_legacy

  /** Reading USBLEGSUP and USBLEGCTLSTS of the capability at `off`. */
  function LegacyReads(cfg: map<int, bv32>, off: bv8): (io: seq<Ev>)
  {
    [Rd32(Cfg(off), UsbEhci.CfgDword(cfg, off)), Rd32(Cfg(off + 4), UsbEhci.CfgDword(cfg, off + 4))]
  }

  /** At the legacy capability: read both registers, write them if either changes, return. */
  function EhciStartAt(cfg: map<int, bv32>, off: bv8): (r: Run)
  {
    var cap1 := UsbEhci.CfgDword(cfg, off);
    var cap2 := UsbEhci.CfgDword(cfg, off + 4);
    Run(if AlreadySet(cap1, cap2) then Unchanged else Written, LegacyReads(cfg, off) + StartWrites(Cfg(off), Cfg(off + 4), cap1, cap2))
  }

  /**
   * ehci_start_legacy as written, from the capability at `off`, with
   * `fuel` loop iterations left: when both registers already hold their
   * new values, `continue` goes round the loop again at the same offset.
   */
  function EhciStartWalk(cfg: map<int, bv32>, off: bv8, fuel: nat): (r: Run)
    decreases fuel
  {
    if off < UsbEhci.EECP_MIN then Run(NotFound, [])
    else if fuel == 0 then Run(Exhausted, [])
    else if UsbEhci.CapId(UsbEhci.CfgDword(cfg, off)) != LEGACY_ID then
      Prepend([Rd32(Cfg(off), UsbEhci.CfgDword(cfg, off))], EhciStartWalk(cfg, UsbEhci.NextCap(UsbEhci.CfgDword(cfg, off)), fuel - 1))
    else if AlreadySet(UsbEhci.CfgDword(cfg, off), UsbEhci.CfgDword(cfg, off + 4)) then
      Prepend(LegacyReads(cfg, off), EhciStartWalk(cfg, off, fuel - 1))
    else EhciStartAt(cfg, off)
  }

  /** ehci_start_legacy with the `continue` replaced by a return, as xhci_start_legacy does. */
  function EhciStartWalkFixed(cfg: map<int, bv32>, off: bv8, fuel: nat): (r: Run)
    decreases fuel
  {
    if off < UsbEhci.EECP_MIN then Run(NotFound, [])
    else if fuel == 0 then Run(Exhausted, [])
    else if UsbEhci.CapId(UsbEhci.CfgDword(cfg, off)) != LEGACY_ID then
      Prepend([Rd32(Cfg(off), UsbEhci.CfgDword(cfg, off))], EhciStartWalkFixed(cfg, UsbEhci.NextCap(UsbEhci.CfgDword(cfg, off)), fuel - 1))
    else EhciStartAt(cfg, off)
  }

  /** ehci_start_legacy as written, with at most `fuel` iterations of its loop. */
  method EhciStartLegacy(cfg: map<int, bv32>, hccp: bv32, fuel: nat) returns (r: Run)
    ensures r == EhciStartWalk(cfg, UsbEhci.Eecp(hccp), fuel)
  {
    var off := UsbEhci.Eecp(hccp);
    var f := fuel;
    var io: seq<Ev> := [];
    while off >= UsbEhci.EECP_MIN && f > 0
      invariant Prepend(io, EhciStartWalk(cfg, off, f)) == EhciStartWalk(cfg, UsbEhci.Eecp(hccp), fuel)
      decreases f
    {
      var cap1 := UsbEhci.CfgDword(cfg, off);
      if UsbEhci.CapId(cap1) == LEGACY_ID {
        var cap2 := UsbEhci.CfgDword(cfg, off + 4);
        var rd := [Rd32(Cfg(off), cap1), Rd32(Cfg(off + 4), cap2)];
        var new1 := OsOwned(cap1);
        var new2 := SmiEnabled(cap2);
        if new1 == cap1 && new2 == cap2 {
          AppendAssoc(io, rd, EhciStartWalk(cfg, off, f - 1).io);
          io := io + rd;
          f := f - 1;
          continue;
        }
        return Run(Written, io + (rd + [Wr32(Cfg(off + 4), new2), Wr32(Cfg(off), new1)]));
      }
      var rd := [Rd32(Cfg(off), cap1)];
      AppendAssoc(io, rd, EhciStartWalk(cfg, UsbEhci.NextCap(cap1), f - 1).io);
      io := io + rd;
      off := UsbEhci.NextCap(cap1);
      f := f - 1;
    }
    r := Run(if off < UsbEhci.EECP_MIN then NotFound else Exhausted, io);
  }

  /** The corrected ehci_start_legacy. */
  method EhciStartLegacyFixed(cfg: map<int, bv32>, hccp: bv32, fuel: nat) returns (r: Run)
    ensures r == EhciStartWalkFixed(cfg, UsbEhci.Eecp(hccp), fuel)
  {
    var off := UsbEhci.Eecp(hccp);
    var f := fuel;
    var io: seq<Ev> := [];
    while off >= UsbEhci.EECP_MIN && f > 0
      invariant Prepend(io, EhciStartWalkFixed(cfg, off, f)) == EhciStartWalkFixed(cfg, UsbEhci.Eecp(hccp), fuel)
      decreases f
    {
      var cap1 := UsbEhci.CfgDword(cfg, off);
      if UsbEhci.CapId(cap1) == LEGACY_ID {
        var cap2 := UsbEhci.CfgDword(cfg, off + 4);
        var rd := [Rd32(Cfg(off), cap1), Rd32(Cfg(off + 4), cap2)];
        var new1 := OsOwned(cap1);
        var new2 := SmiEnabled(cap2);
        if new1 == cap1 && new2 == cap2 {
          return Run(Unchanged, io + (rd + []));
        }
        return Run(Written, io + (rd + [Wr32(Cfg(off + 4), new2), Wr32(Cfg(off), new1)]));
      }
      var rd := [Rd32(Cfg(off), cap1)];
      AppendAssoc(io, rd, EhciStartWalkFixed(cfg, UsbEhci.NextCap(cap1), f - 1).io);
      io := io + rd;
      off := UsbEhci.NextCap(cap1);
      f := f - 1;
    }
    r := Run(if off < UsbEhci.EECP_MIN then NotFound else Exhausted, io);
  }

  /** The legacy capability the reference walk finds has both registers set already. */
  predicate Hangs(cfg: map<int, bv32>, found: Option<bv8>)
  {
    found.Some? && AlreadySet(UsbEhci.CfgDword(cfg, found.value), UsbEhci.CfgDword(cfg, found.value + 4))
  }

  /**
   * As written, once the walk reaches a legacy capability whose registers
   * are already set, no number of iterations lets ehci_start_legacy
   * return: it re-reads the same two registers for ever, writing nothing.
   */
  lemma {:induction false} EhciStartHangs(cfg: map<int, bv32>, off: bv8, fuel: nat)
    requires Hangs(cfg, UsbEhci.FindLegacy(cfg, off, fuel + 1))
    ensures EhciStartWalk(cfg, off, fuel).outcome == Exhausted
    ensures Writes(EhciStartWalk(cfg, off, fuel).io) == []
    decreases fuel
  {
    if fuel > 0 {
      var cap1 := UsbEhci.CfgDword(cfg, off);
      if UsbEhci.CapId(cap1) != LEGACY_ID {
        EhciStartHangs(cfg, UsbEhci.NextCap(cap1), fuel - 1);
        WritesAppend([Rd32(Cfg(off), cap1)], EhciStartWalk(cfg, UsbEhci.NextCap(cap1), fuel - 1).io);
      } else {
        assert UsbEhci.FindLegacy(cfg, off, fuel) == Some(off);
        EhciStartHangs(cfg, off, fuel - 1);
        PairNoWrites(LegacyReads(cfg, off)[0], LegacyReads(cfg, off)[1]);
        WritesAppend(LegacyReads(cfg, off), EhciStartWalk(cfg, off, fuel - 1).io);
      }
    }
  }

  /** A controller whose EECP is 0x68 and whose legacy registers are already set hangs it. */
  lemma EhciStartHangsExample(fuel: nat)
    ensures EhciStartWalk(map[0x68 := 0x0100_0001, 0x6c := 0x0000_2001], UsbEhci.Eecp(0x6800), fuel).outcome == Exhausted
    ensures EhciStartWalkFixed(map[0x68 := 0x0100_0001, 0x6c := 0x0000_2001], UsbEhci.Eecp(0x6800), fuel + 1).outcome == Unchanged
  {
    var cfg: map<int, bv32> := map[0x68 := 0x0100_0001, 0x6c := 0x0000_2001];
    assert UsbEhci.Eecp(0x6800) == 0x68;
    assert (0x68 as bv8) + 4 == 0x6c;
    assert UsbEhci.CfgDword(cfg, 0x68) == 0x0100_0001;
    assert UsbEhci.CfgDword(cfg, 0x68 + 4) == 0x0000_2001;
    assert UsbEhci.CapId(0x0100_0001) == LEGACY_ID;
    assert UsbEhci.FindLegacy(cfg, 0x68, fuel + 1) == Some(0x68);
    assert AlreadySet(0x0100_0001, 0x0000_2001);
    EhciStartHangs(cfg, 0x68, fuel);
  }

  /** Away from that case, the routine as written and the corrected one do the same. */
  lemma {:induction false} EhciStartAgrees(cfg: map<int, bv32>, off: bv8, fuel: nat)
    requires !Hangs(cfg, UsbEhci.FindLegacy(cfg, off, fuel))
    ensures EhciStartWalk(cfg, off, fuel) == EhciStartWalkFixed(cfg, off, fuel)
    decreases fuel
  {
    if off >= UsbEhci.EECP_MIN && fuel > 0 {
      var cap1 := UsbEhci.CfgDword(cfg, off);
      if UsbEhci.CapId(cap1) != LEGACY_ID {
        EhciStartAgrees(cfg, UsbEhci.NextCap(cap1), fuel - 1);
      }
    }
  }

  /** The writes the corrected handoff makes, by the legacy capability the reference walk finds. */
  function EhciFoundWrites(cfg: map<int, bv32>, found: Option<bv8>): (w: seq<Ev>)
  {
    match found
    case None => []
    case Some(l) => StartWrites(Cfg(l), Cfg(l + 4), UsbEhci.CfgDword(cfg, l), UsbEhci.CfgDword(cfg, l + 4))
  }

  /**
   * Corrected, ehci_start_legacy writes USBLEGCTLSTS and then USBLEGSUP of
   * the legacy capability the reference walk finds, only when one changes,
   * and nothing when it finds none.
   */
  lemma {:induction false} EhciStartFixedWrites(cfg: map<int, bv32>, off: bv8, fuel: nat)
    ensures Writes(EhciStartWalkFixed(cfg, off, fuel).io) == EhciFoundWrites(cfg, UsbEhci.FindLegacy(cfg, off, fuel))
    decreases fuel
  {
    if off >= UsbEhci.EECP_MIN && fuel > 0 {
      var cap1 := UsbEhci.CfgDword(cfg, off);
      if UsbEhci.CapId(cap1) != LEGACY_ID {
        EhciStartFixedWrites(cfg, UsbEhci.NextCap(cap1), fuel - 1);
        WritesAppend([Rd32(Cfg(off), cap1)], EhciStartWalkFixed(cfg, UsbEhci.NextCap(cap1), fuel - 1).io);
      } else {
        EhciStartAtWrites(cfg, off);
      }
    }
  }

  lemma EhciStartAtWrites(cfg: map<int, bv32>, off: bv8)
    ensures Writes(EhciStartAt(cfg, off).io) == StartWrites(Cfg(off), Cfg(off + 4), UsbEhci.CfgDword(cfg, off), UsbEhci.CfgDword(cfg, off + 4))
  {
    var w := StartWrites(Cfg(off), Cfg(off + 4), UsbEhci.CfgDword(cfg, off), UsbEhci.CfgDword(cfg, off + 4));
    PairNoWrites(LegacyReads(cfg, off)[0], LegacyReads(cfg, off)[1]);
    StartWritesAreWrites(Cfg(off), Cfg(off + 4), UsbEhci.CfgDword(cfg, off), UsbEhci.CfgDword(cfg, off + 4));
    WritesAppend(LegacyReads(cfg, off), w);
  }

  /** Corrected, the routine returns unless the walk runs out, Unchanged exactly when both registers are set. */
  lemma {:induction false} EhciStartFixedOutcome(cfg: map<int, bv32>, off: bv8, fuel: nat)
    ensures UsbEhci.FindLegacy(cfg, off, fuel).None? ==> EhciStartWalkFixed(cfg, off, fuel).outcome in {NotFound, Exhausted}
    ensures UsbEhci.FindLegacy(cfg, off, fuel).Some? ==>
      EhciStartWalkFixed(cfg, off, fuel).outcome == if Hangs(cfg, UsbEhci.FindLegacy(cfg, off, fuel)) then Unchanged else Written
    decreases fuel
  {
    if off >= UsbEhci.EECP_MIN && fuel > 0 {
      var cap1 := UsbEhci.CfgDword(cfg, off);
      if UsbEhci.CapId(cap1) != LEGACY_ID {
        EhciStartFixedOutcome(cfg, UsbEhci.NextCap(cap1), fuel - 1);
      }
    }
  }

  /** ehci_start_legacy, as written, touches configuration space only. */
  lemma {:induction false} EhciStartCfgOnly(cfg: map<int, bv32>, off: bv8, fuel: nat)
    ensures CfgOnly(EhciStartWalk(cfg, off, fuel).io)
    decreases fuel
  {
    if off >= UsbEhci.EECP_MIN && fuel > 0 {
      var cap1 := UsbEhci.CfgDword(cfg, off);
      var cap2 := UsbEhci.CfgDword(cfg, off + 4);
      if UsbEhci.CapId(cap1) != LEGACY_ID {
        EhciStartCfgOnly(cfg, UsbEhci.NextCap(cap1), fuel - 1);
        CfgOnlyAppend([Rd32(Cfg(off), cap1)], EhciStartWalk(cfg, UsbEhci.NextCap(cap1), fuel - 1).io);
      } else if AlreadySet(cap1, cap2) {
        EhciStartCfgOnly(cfg, off, fuel - 1);
        CfgOnlyAppend(LegacyReads(cfg, off), EhciStartWalk(cfg, off, fuel - 1).io);
      } else {
        CfgOnlyAppend(LegacyReads(cfg, off), StartWrites(Cfg(off), Cfg(off + 4), cap1, cap2));
      }
    }
  }

  // xhci_start_legacy

  /** At the legacy capability at `p`: read both registers, write them if either changes, unmap. */
  function XhciStartAt(mmio: map<int, bv32>, p: int): (r: Run)
  {
    var cap1 := Dword(mmio, p);
    var cap2 := Dword(mmio, p + 4);
    Run(if AlreadySet(cap1, cap2) then Unchanged else Written,
      [Rd32(Mmio(p), cap1), Rd32(Mmio(p + 4), cap2)] + StartWrites(Mmio(p), Mmio(p + 4), cap1, cap2) + [Unmap(Mapping(p, UsbXhci.XEC_SIZE))])
  }

  /** xhci_start_legacy from the capability `off` dwords past `pa`, with `fuel` capabilities left to follow. */
  function XhciStartWalk(mmio: map<int, bv32>, pa: int, off: bv16, fuel: nat): (r: Run)
    decreases fuel
  {
    if off == 0 then Run(NotFound, [])
    else if fuel == 0 then Run(Exhausted, [])
    else
      var p := UsbXhci.Advance(pa, off);
      if UsbXhci.CapIdAt(mmio, p) == LEGACY_ID then Prepend(UsbXhci.Head(mmio, p), XhciStartAt(mmio, p))
      else Prepend(UsbXhci.Head(mmio, p) + UsbXhci.Skip(mmio, p), XhciStartWalk(mmio, p, UsbXhci.NxtAt(mmio, p) as bv16, fuel - 1))
  }

  method XhciStartLegacy(mmio: map<int, bv32>, hcPa: int, hccp1: bv32, fuel: nat) returns (r: Run)
    ensures r == XhciStartWalk(mmio, hcPa, UsbXhci.Xecp(hccp1), fuel)
  {
    var pa := hcPa;
    var off := UsbXhci.Xecp(hccp1);
    var f := fuel;
    var io: seq<Ev> := [];
    while off != 0 && f > 0
      invariant Prepend(io, XhciStartWalk(mmio, pa, off, f)) == XhciStartWalk(mmio, hcPa, UsbXhci.Xecp(hccp1), fuel)
      decreases f
    {
      var p := UsbXhci.Advance(pa, off);
      var m := Mapping(p, UsbXhci.XEC_SIZE);
      var head := [Map(m), Rd8(Mmio(p), UsbXhci.CapIdAt(mmio, p))];
      assert head == UsbXhci.Head(mmio, p);
      if UsbXhci.CapIdAt(mmio, p) == LEGACY_ID {
        var cap1 := Dword(mmio, p);
        var cap2 := Dword(mmio, p + 4);
        var body := [Rd32(Mmio(p), cap1), Rd32(Mmio(p + 4), cap2)];
        var outcome := Unchanged;
        if OsOwned(cap1) != cap1 || SmiEnabled(cap2) != cap2 {
          body := body + [Wr32(Mmio(p + 4), SmiEnabled(cap2)), Wr32(Mmio(p), OsOwned(cap1))];
          outcome := Written;
        }
        body := body + [Unmap(m)];
        AppendAssoc(io, head, body);
        return Run(outcome, io + head + body);
      }
      var step := head + [Rd8(Mmio(p + 1), UsbXhci.NxtAt(mmio, p)), Unmap(m)];
      assert step == UsbXhci.Head(mmio, p) + UsbXhci.Skip(mmio, p);
      AppendAssoc(io, step, XhciStartWalk(mmio, p, UsbXhci.NxtAt(mmio, p) as bv16, f - 1).io);
      io := io + step;
      pa := p;
      off := UsbXhci.NxtAt(mmio, p) as bv16;
      f := f - 1;
    }
    r := Run(if off == 0 then NotFound else Exhausted, io);
  }

  /** The writes the handoff makes, by the legacy capability the reference walk finds. */
  function XhciFoundWrites(mmio: map<int, bv32>, found: Option<int>): (w: seq<Ev>)
  {
    match found
    case None => []
    case Some(p) => StartWrites(Mmio(p), Mmio(p + 4), Dword(mmio, p), Dword(mmio, p + 4))
  }

  /**
   * xhci_start_legacy writes USBLEGCTLSTS then USBLEGSUP of the capability
   * the reference walk finds, only when one of them changes, and nothing
   * when it finds none.
   */
  lemma {:induction false} XhciStartWrites(mmio: map<int, bv32>, pa: int, off: bv16, fuel: nat)
    ensures Writes(XhciStartWalk(mmio, pa, off, fuel).io) == XhciFoundWrites(mmio, UsbXhci.FindLegacy(mmio, pa, off, fuel))
    decreases fuel
  {
    if off != 0 && fuel > 0 {
      var p := UsbXhci.Advance(pa, off);
      if UsbXhci.CapIdAt(mmio, p) == LEGACY_ID {
        XhciStartWritesHere(mmio, pa, off, fuel);
      } else {
        XhciStartWrites(mmio, p, UsbXhci.NxtAt(mmio, p) as bv16, fuel - 1);
        XhciStartWritesNext(mmio, pa, off, fuel);
      }
    }
  }

  /** The capability looked at is the legacy one: its writes are all there is. */
  lemma XhciStartWritesHere(mmio: map<int, bv32>, pa: int, off: bv16, fuel: nat)
    requires off != 0 && fuel > 0 && UsbXhci.CapIdAt(mmio, UsbXhci.Advance(pa, off)) == LEGACY_ID
    ensures Writes(XhciStartWalk(mmio, pa, off, fuel).io) == XhciFoundWrites(mmio, UsbXhci.FindLegacy(mmio, pa, off, fuel))
  {
    var p := UsbXhci.Advance(pa, off);
    UsbXhci.HeadSkipReads(mmio, p);
    XhciStartAtWrites(mmio, p);
    WritesAppend(UsbXhci.Head(mmio, p), XhciStartAt(mmio, p).io);
  }

  /** Another capability: it is only read, so the writes are those of the rest of the walk. */
  lemma XhciStartWritesNext(mmio: map<int, bv32>, pa: int, off: bv16, fuel: nat)
    requires off != 0 && fuel > 0 && UsbXhci.CapIdAt(mmio, UsbXhci.Advance(pa, off)) != LEGACY_ID
    requires var p := UsbXhci.Advance(pa, off);
      Writes(XhciStartWalk(mmio, p, UsbXhci.NxtAt(mmio, p) as bv16, fuel - 1).io) ==
      XhciFoundWrites(mmio, UsbXhci.FindLegacy(mmio, p, UsbXhci.NxtAt(mmio, p) as bv16, fuel - 1))
    ensures Writes(XhciStartWalk(mmio, pa, off, fuel).io) == XhciFoundWrites(mmio, UsbXhci.FindLegacy(mmio, pa, off, fuel))
  {
    var p := UsbXhci.Advance(pa, off);
    var nxt := UsbXhci.NxtAt(mmio, p) as bv16;
    UsbXhci.HeadSkipReads(mmio, p);
    WritesAppend(UsbXhci.Head(mmio, p), UsbXhci.Skip(mmio, p));
    WritesAppend(UsbXhci.Head(mmio, p) + UsbXhci.Skip(mmio, p), XhciStartWalk(mmio, p, nxt, fuel - 1).io);
  }

  /** It returns unless the walk runs out, Unchanged exactly when both registers are already set. */
  lemma {:induction false} XhciStartOutcome(mmio: map<int, bv32>, pa: int, off: bv16, fuel: nat)
    ensures OutcomeByFound(UsbXhci.FindLegacy(mmio, pa, off, fuel), mmio, XhciStartWalk(mmio, pa, off, fuel).outcome)
    decreases fuel
  {
    if off != 0 && fuel > 0 {
      var p := UsbXhci.Advance(pa, off);
      if UsbXhci.CapIdAt(mmio, p) != LEGACY_ID {
        var nxt := UsbXhci.NxtAt(mmio, p) as bv16;
        XhciStartOutcome(mmio, p, nxt, fuel - 1);
        assert UsbXhci.FindLegacy(mmio, pa, off, fuel) == UsbXhci.FindLegacy(mmio, p, nxt, fuel - 1);
        assert XhciStartWalk(mmio, pa, off, fuel).outcome == XhciStartWalk(mmio, p, nxt, fuel - 1).outcome;
      }
    }
  }

  /**
   * The outcome the handoff should report for the capability the
   * reference walk finds: NotFound or Exhausted when there is none,
   * Unchanged when both of its registers are already set, else Written.
   */
  predicate OutcomeByFound(found: Option<int>, mmio: map<int, bv32>, outcome: Outcome)
  {
    match found
    case None => outcome in {NotFound, Exhausted}
    case Some(p) => outcome == if AlreadySet(Dword(mmio, p), Dword(mmio, p + 4)) then Unchanged else Written
  }

  lemma XhciStartAtWrites(mmio: map<int, bv32>, p: int)
    ensures Writes(XhciStartAt(mmio, p).io) == StartWrites(Mmio(p), Mmio(p + 4), Dword(mmio, p), Dword(mmio, p + 4))
  {
    var cap1 := Dword(mmio, p);
    var cap2 := Dword(mmio, p + 4);
    var rd := [Rd32(Mmio(p), cap1), Rd32(Mmio(p + 4), cap2)];
    var w := StartWrites(Mmio(p), Mmio(p + 4), cap1, cap2);
    var u := [Unmap(Mapping(p, UsbXhci.XEC_SIZE))];
    PairNoWrites(rd[0], rd[1]);
    StartWritesAreWrites(Mmio(p), Mmio(p + 4), cap1, cap2);
    assert Writes(u) == [];
    WritesAppend(rd, w);
    WritesAppend(rd + w, u);
  }

  /** xhci_start_legacy maps each capability it looks at, touches only its bytes, and unmaps it on both paths. */
  lemma {:induction false} XhciStartMapped(mmio: map<int, bv32>, pa: int, off: bv16, fuel: nat, live: multiset<Mapping>)
    requires Returns(XhciStartWalk(mmio, pa, off, fuel).outcome)
    ensures Mapped(live, XhciStartWalk(mmio, pa, off, fuel).io)
    ensures LiveAfter(live, XhciStartWalk(mmio, pa, off, fuel).io) == live
    decreases fuel
  {
    if off != 0 && fuel > 0 {
      var p := UsbXhci.Advance(pa, off);
      if UsbXhci.CapIdAt(mmio, p) == LEGACY_ID {
        XhciStartAtMapped(mmio, p, live);
      } else {
        var nxt := UsbXhci.NxtAt(mmio, p) as bv16;
        UsbXhci.SkipMapped(mmio, p, live);
        assert XhciStartWalk(mmio, pa, off, fuel).outcome == XhciStartWalk(mmio, p, nxt, fuel - 1).outcome;
        XhciStartMapped(mmio, p, nxt, fuel - 1, live);
        MappedAppend(live, UsbXhci.Head(mmio, p) + UsbXhci.Skip(mmio, p), XhciStartWalk(mmio, p, nxt, fuel - 1).io);
      }
    }
  }

  lemma XhciStartAtMapped(mmio: map<int, bv32>, p: int, live: multiset<Mapping>)
    ensures Mapped(live, UsbXhci.Head(mmio, p) + XhciStartAt(mmio, p).io)
    ensures LiveAfter(live, UsbXhci.Head(mmio, p) + XhciStartAt(mmio, p).io) == live
  {
    var m := Mapping(p, UsbXhci.XEC_SIZE);
    var cap1 := Dword(mmio, p);
    var cap2 := Dword(mmio, p + 4);
    var id := Rd8(Mmio(p), UsbXhci.CapIdAt(mmio, p));
    var rd := [Rd32(Mmio(p), cap1), Rd32(Mmio(p + 4), cap2)];
    var w := StartWrites(Mmio(p), Mmio(p + 4), cap1, cap2);
    var body := [id] + rd + w;
    assert forall i :: 0 <= i < |body| ==> Inside(body[i], m) by {
      assert forall i :: 0 <= i < |body| ==> body[i] in {id, rd[0], rd[1]} + (if |w| == 2 then {w[0], w[1]} else {});
    }
    Bracket(live, m, body);
    assert UsbXhci.Head(mmio, p) + XhciStartAt(mmio, p).io == [Map(m)] + body + [Unmap(m)];
  }

  // The init_bus routines of usb.c

  /** ehci_init_bus: map 0x200 bytes of registers, read HCCPARAMS, hand off (as written), unmap. */
  function EhciInitBus(mmio: map<int, bv32>, hcPa: int, cfg: map<int, bv32>, fuel: nat): (r: Run)
  {
    var m := Mapping(hcPa, UsbEhci.MAP_LEN);
    var hccp := Dword(mmio, hcPa + UsbEhci.HCCPARAMS_OFF);
    var start := EhciStartWalk(cfg, UsbEhci.Eecp(hccp), fuel);
    Run(start.outcome, [Map(m), Rd32(Mmio(hcPa + UsbEhci.HCCPARAMS_OFF), hccp)] + start.io + (if Returns(start.outcome) then [Unmap(m)] else []))
  }

  method EhciInitBusMethod(mmio: map<int, bv32>, hcPa: int, cfg: map<int, bv32>, fuel: nat) returns (r: Run)
    ensures r == EhciInitBus(mmio, hcPa, cfg, fuel)
  {
    var m := Mapping(hcPa, UsbEhci.MAP_LEN);
    var hccp := Dword(mmio, hcPa + UsbEhci.HCCPARAMS_OFF);
    var io := [Map(m), Rd32(Mmio(hcPa + UsbEhci.HCCPARAMS_OFF), hccp)];
    var start := EhciStartLegacy(cfg, hccp, fuel);
    io := io + start.io;
    if Returns(start.outcome) {
      io := io + [Unmap(m)];
    }
    r := Run(start.outcome, io);
  }

  /** Whenever it returns, ehci_init_bus touches only mapped registers and unmaps what it mapped. */
  lemma EhciInitBusMapped(mmio: map<int, bv32>, hcPa: int, cfg: map<int, bv32>, fuel: nat, live: multiset<Mapping>)
    requires Returns(EhciInitBus(mmio, hcPa, cfg, fuel).outcome)
    ensures Mapped(live, EhciInitBus(mmio, hcPa, cfg, fuel).io)
    ensures LiveAfter(live, EhciInitBus(mmio, hcPa, cfg, fuel).io) == live
  {
    var m := Mapping(hcPa, UsbEhci.MAP_LEN);
    var hccp := Dword(mmio, hcPa + UsbEhci.HCCPARAMS_OFF);
    var rd := Rd32(Mmio(hcPa + UsbEhci.HCCPARAMS_OFF), hccp);
    var start := EhciStartWalk(cfg, UsbEhci.Eecp(hccp), fuel);
    var body := [rd] + start.io;
    EhciStartCfgOnly(cfg, UsbEhci.Eecp(hccp), fuel);
    CfgOnlyInside(start.io, m);
    assert forall i :: 0 <= i < |body| ==> body[i] == (if i == 0 then rd else start.io[i - 1]);
    Bracket(live, m, body);
    assert [Map(m), rd] == [Map(m)] + [rd];
    AppendAssoc([Map(m)], [rd], start.io);
  }

  /** xhci_init_bus: map the capability registers, read HCCPARAMS1, hand off, unmap the same region. */
  function XhciInitBus(mmio: map<int, bv32>, hcPa: int, fuel: nat): (r: Run)
  {
    var m := Mapping(hcPa, UsbXhci.HC_SIZE);
    var hccp1 := Dword(mmio, hcPa + UsbXhci.HCCPARAMS1_OFF);
    var start := XhciStartWalk(mmio, hcPa, UsbXhci.Xecp(hccp1), fuel);
    Run(start.outcome, [Map(m), Rd32(Mmio(hcPa + UsbXhci.HCCPARAMS1_OFF), hccp1)] + start.io + (if Returns(start.outcome) then [Unmap(m)] else []))
  }

  method XhciInitBusMethod(mmio: map<int, bv32>, hcPa: int, fuel: nat) returns (r: Run)
    ensures r == XhciInitBus(mmio, hcPa, fuel)
  {
    var m := Mapping(hcPa, UsbXhci.HC_SIZE);
    var hccp1 := Dword(mmio, hcPa + UsbXhci.HCCPARAMS1_OFF);
    var io := [Map(m), Rd32(Mmio(hcPa + UsbXhci.HCCPARAMS1_OFF), hccp1)];
    var start := XhciStartLegacy(mmio, hcPa, hccp1, fuel);
    io := io + start.io;
    if Returns(start.outcome) {
      io := io + [Unmap(m)];
    }
    r := Run(start.outcome, io);
  }

  /** Whenever it returns, xhci_init_bus touches only mapped registers and unmaps what it mapped. */
  lemma XhciInitBusMapped(mmio: map<int, bv32>, hcPa: int, fuel: nat, live: multiset<Mapping>)
    requires Returns(XhciInitBus(mmio, hcPa, fuel).outcome)
    ensures Mapped(live, XhciInitBus(mmio, hcPa, fuel).io)
    ensures LiveAfter(live, XhciInitBus(mmio, hcPa, fuel).io) == live
  {
    var m := Mapping(hcPa, UsbXhci.HC_SIZE);
    var l1 := live + multiset{m};
    var hccp1 := Dword(mmio, hcPa + UsbXhci.HCCPARAMS1_OFF);
    var rd := Rd32(Mmio(hcPa + UsbXhci.HCCPARAMS1_OFF), hccp1);
    var start := XhciStartWalk(mmio, hcPa, UsbXhci.Xecp(hccp1), fuel).io;
    XhciStartMapped(mmio, hcPa, UsbXhci.Xecp(hccp1), fuel, l1);
    MappedOne(l1, rd);
    assert Sound(l1, rd) by {
      assert m in l1;
    }
    MappedAppend(l1, [rd], start);
    BracketMapped(live, m, [rd] + start);
    assert [Map(m), rd] + start + [Unmap(m)] == [Map(m)] + ([rd] + start) + [Unmap(m)];
  }

  // usb_init

  /** The controller driver usb_init starts for one PCI device. */
  datatype Dispatch = EhciInit(dev: PciDev) | XhciInit(dev: PciDev)

  /** usb_init's dispatches for a record list, in list order. */
  function Dispatches(recs: seq<Record>): (ds: seq<Dispatch>)
    ensures |ds| <= |recs|
  {
    if |recs| == 0 then []
    else
      var d := match recs[0]
        case Pcid(dev) =>
          if dev.classIf == CIF_USB_EHCI then [EhciInit(dev)]
          else if dev.classIf == CIF_USB_XHCI then [XhciInit(dev)]
          else []
        case OtherRecord(_) => [];
      d + Dispatches(recs[1..])
  }

  /** usb_init: walk the records, starting the driver for each EHCI and xHCI controller. */
  method UsbInit(recs: seq<Record>) returns (ds: seq<Dispatch>)
    ensures ds == Dispatches(recs)
  {
    ds := [];
    var i := 0;
    while i < |recs|
      invariant 0 <= i <= |recs|
      invariant ds == Dispatches(recs[..i])
    {
      DispatchesStep(recs, i);
      DispatchesOne(recs[i]);
      match recs[i] {
        case Pcid(dev) =>
          if dev.classIf == CIF_USB_EHCI {
            ds := ds + [EhciInit(dev)];
          } else if dev.classIf == CIF_USB_XHCI {
            ds := ds + [XhciInit(dev)];
          }
        case OtherRecord(_) =>
      }
      i := i + 1;
    }
    assert recs[..i] == recs;
  }

  lemma DispatchesStep(recs: seq<Record>, i: nat)
    requires i < |recs|
    ensures Dispatches(recs[..i + 1]) == Dispatches(recs[..i]) + Dispatches([recs[i]])
  {
    assert recs[..i + 1] == recs[..i] + [recs[i]];
    DispatchesAppend(recs[..i], [recs[i]]);
  }

  /** Dispatching follows list order: the dispatches for a + b are those for a, then those for b ... */
  lemma {:induction false} DispatchesAppend(a: seq<Record>, b: seq<Record>)
    ensures Dispatches(a + b) == Dispatches(a) + Dispatches(b)
    decreases |a|
  {
    if |a| == 0 {
      assert a + b == b;
    } else {
      assert (a + b)[0] == a[0];
      assert (a + b)[1..] == a[1..] + b;
      DispatchesAppend(a[1..], b);
    }
  }

  /** ... and each record alone gets exactly one dispatch when it is an EHCI or xHCI device, and none otherwise. */
  lemma DispatchesOne(r: Record)
    ensures Dispatches([r]) ==
      if r.Pcid? && r.dev.classIf == CIF_USB_EHCI then [EhciInit(r.dev)]
      else if r.Pcid? && r.dev.classIf == CIF_USB_XHCI then [XhciInit(r.dev)]
      else []
  {
    assert [r][1..] == [];
  }
}
