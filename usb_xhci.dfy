/**
 * xHCI legacy ownership handoff (stage2/usb-xhci.c; xHCI specification
 * revision 1.2, sections 7.1 and 7.1.1): the walk of the extended
 * capability list in the controller's memory-mapped registers, each
 * capability mapped while it is looked at, the ownership request in
 * USBLEGSUP and the spin until the firmware lets go, and the mapping of
 * the capability registers around it.
 *
 * The registers are a value: the dword each physical address returns
 * before the handoff (in little-endian order, so a capability's CAPID is
 * the low byte of its first dword and NXT the next one). What USBLEGSUP
 * shows on each read after the request is a separate sequence.
 */
module UsbXhci {
  import opened Common
  import opened UsbCommon

  /** sizeof (usb_xhci_xec_t): USBLEGSUP and USBLEGCTLSTS. */
  const XEC_SIZE: nat := 8

  /** sizeof (usb_xhci_t): the capability registers up to HCCPARAMS2. */
  const HC_SIZE: nat := 32

  /** sizeof (usb_xhci_op_regs_t), and the MAP_LEN that usb_xhci_init_bus computes. */
  const OP_REGS_SIZE: nat := 0x400
  const MAP_LEN: nat := 0x100 + OP_REGS_SIZE

  /** Offsets of HCCPARAMS1 among the capability registers and of USBSTS among the operational ones. */
  const HCCPARAMS1_OFF: int := 0x10
  const USBSTS_OFF: int := 4

  /** Capability registers laid out as usb_xhci_t declares them, packed. */
  lemma HcLayout()
    ensures 1 + 1 + 2 + 3 * 4 == HCCPARAMS1_OFF && HCCPARAMS1_OFF + 4 * 4 == HC_SIZE
    ensures 4 + 4 == XEC_SIZE
  {
  }

  /** xECP, bits 31:16 of HCCPARAMS1: the first capability's distance from the base, in dwords. */
  function Xecp(hccp1: bv32): bv16
  {
    (hccp1 >> 16) as bv16
  }

  /** `pa += (uint64_t) off * 4`: each NXT counts dwords from the capability before. */
  function Advance(pa: int, off: bv16): (pa': int)
    ensures 0 <= pa' < U64_MOD
  {
    (pa + off as int * 4) % U64_MOD
  }

  /** CAPID and NXT, the first two bytes of a capability. */
  function CapIdAt(mmio: map<int, bv32>, pa: int): bv8
  {
    (Dword(mmio, pa) & 0xff) as bv8
  }

  function NxtAt(mmio: map<int, bv32>, pa: int): bv8
  {
    ((Dword(mmio, pa) >> 8) & 0xff) as bv8
  }

  /**
   * The reference walk: the address of the first capability with the
   * legacy id on the list that starts `off` dwords past `pa`, following at
   * most `fuel` capabilities.
   */
  function FindLegacy(mmio: map<int, bv32>, pa: int, off: bv16, fuel: nat): (r: Option<int>)
    ensures r.Some? ==> CapIdAt(mmio, r.value) == LEGACY_ID
    decreases fuel
  {
    if off == 0 || fuel == 0 then None
    else
      var p := Advance(pa, off);
      if CapIdAt(mmio, p) == LEGACY_ID then Some(p) else FindLegacy(mmio, p, NxtAt(mmio, p) as bv16, fuel - 1)
  }

  /**
   * At the legacy capability at `p`, mapped and with its CAPID read: read
   * both registers; if the request changes USBLEGSUP, write it and spin on
   * the BIOS-owned bit. Without the unmapping.
   */
  function ClaimBody(mmio: map<int, bv32>, p: int, spin: seq<bv32>): (r: Run)
  {
    var cap1 := Dword(mmio, p);
    var rd := [Rd32(Mmio(p), cap1), Rd32(Mmio(p + 4), Dword(mmio, p + 4))];
    var newCap1 := Request(cap1);
    if newCap1 == cap1 then Run(Unchanged, rd)
    else Run(if Released(spin) then Written else Spinning, rd + [Wr32(Mmio(p), newCap1)] + SpinReads(Mmio(p), spin))
  }

  /** The same, with the capability unmapped before returning. */
  function Claim(mmio: map<int, bv32>, p: int, spin: seq<bv32>): (r: Run)
  {
    var b := ClaimBody(mmio, p, spin);
    Run(b.outcome, b.io + (if Returns(b.outcome) then [Unmap(Mapping(p, XEC_SIZE))] else []))
  }

  /** Mapping a capability and reading its CAPID. */
  function Head(mmio: map<int, bv32>, p: int): (io: seq<Ev>)
  {
    [Map(Mapping(p, XEC_SIZE)), Rd8(Mmio(p), CapIdAt(mmio, p))]
  }

  /** Reading NXT of a capability that is not the legacy one, and unmapping it. */
  function Skip(mmio: map<int, bv32>, p: int): (io: seq<Ev>)
  {
    [Rd8(Mmio(p + 1), NxtAt(mmio, p)), Unmap(Mapping(p, XEC_SIZE))]
  }

  /** xhci_stop_legacy from the capability `off` dwords past `pa`, with `fuel` capabilities left to follow. */
  function StopWalk(mmio: map<int, bv32>, pa: int, off: bv16, spin: seq<bv32>, fuel: nat): (r: Run)
    decreases fuel, 1
  {
    if off == 0 then Run(NotFound, [])
    else if fuel == 0 then Run(Exhausted, [])
    else StopAt(mmio, Advance(pa, off), spin, fuel - 1)
  }

  /** The same, at the capability at `p`, with `fuel` more capabilities to follow after it. */
  function StopAt(mmio: map<int, bv32>, p: int, spin: seq<bv32>, fuel: nat): (r: Run)
    decreases fuel + 1, 0
  {
    if CapIdAt(mmio, p) == LEGACY_ID then Prepend(Head(mmio, p), Claim(mmio, p, spin))
    else Prepend(Head(mmio, p) + Skip(mmio, p), StopWalk(mmio, p, NxtAt(mmio, p) as bv16, spin, fuel))
  }

  method ClaimLegacy(mmio: map<int, bv32>, p: int, spin: seq<bv32>) returns (r: Run)
    ensures r == Claim(mmio, p, spin)
  {
    var cap1 := Dword(mmio, p);
    var cap2 := Dword(mmio, p + 4);
    var io := [Rd32(Mmio(p), cap1), Rd32(Mmio(p + 4), cap2)];
    var newCap1 := Request(cap1);
    var outcome := Unchanged;
    if newCap1 != cap1 {
      io := io + [Wr32(Mmio(p), newCap1)];
      var rereads, released := Spin(Mmio(p), spin);
      io := io + rereads;
      if !released {
        return Run(Spinning, io);
      }
      outcome := Written;
    }
    r := Run(outcome, io + [Unmap(Mapping(p, XEC_SIZE))]);
  }

  /** xhci_stop_legacy, following at most `fuel` capabilities. */
  method StopLegacy(mmio: map<int, bv32>, hcPa: int, hccp1: bv32, spin: seq<bv32>, fuel: nat) returns (r: Run)
    ensures r == StopWalk(mmio, hcPa, Xecp(hccp1), spin, fuel)
  {
    var pa := hcPa;
    var off := Xecp(hccp1);
    var f := fuel;
    var io: seq<Ev> := [];
    while off != 0 && f > 0
      invariant Prepend(io, StopWalk(mmio, pa, off, spin, f)) == StopWalk(mmio, hcPa, Xecp(hccp1), spin, fuel)
      decreases f
    {
      var p := Advance(pa, off);
      var m := Mapping(p, XEC_SIZE);
      var capId := CapIdAt(mmio, p);
      var head := [Map(m), Rd8(Mmio(p), capId)];
      assert head == Head(mmio, p);
      if capId == LEGACY_ID {
        var rest := ClaimLegacy(mmio, p, spin);
        AppendAssoc(io, head, rest.io);
        return Run(rest.outcome, io + head + rest.io);
      }
      var nxt := NxtAt(mmio, p);
      var step := head + [Rd8(Mmio(p + 1), nxt), Unmap(m)];
      assert step == Head(mmio, p) + Skip(mmio, p);
      AppendAssoc(io, step, StopWalk(mmio, p, nxt as bv16, spin, f - 1).io);
      io := io + step;
      pa := p;
      off := nxt as bv16;
      f := f - 1;
    }
    r := Run(if off == 0 then NotFound else Exhausted, io);
  }

  /**
   * xhci_stop_legacy writes nothing but the ownership request, once, into
   * the USBLEGSUP of the capability the reference walk finds, and only when
   * the request changes it; USBLEGCTLSTS is read and never written.
   */
  lemma {:induction false} StopWrites(mmio: map<int, bv32>, pa: int, off: bv16, spin: seq<bv32>, fuel: nat)
    ensures Writes(StopWalk(mmio, pa, off, spin, fuel).io) == LegacyWrites(mmio, FindLegacy(mmio, pa, off, fuel))
    decreases fuel
  {
    if off != 0 && fuel > 0 {
      var p := Advance(pa, off);
      HeadSkipReads(mmio, p);
      if CapIdAt(mmio, p) == LEGACY_ID {
        ClaimWrites(mmio, p, spin);
        WritesAppend(Head(mmio, p), Claim(mmio, p, spin).io);
      } else {
        StopWrites(mmio, p, NxtAt(mmio, p) as bv16, spin, fuel - 1);
        WritesAppend(Head(mmio, p), Skip(mmio, p));
        WritesAppend(Head(mmio, p) + Skip(mmio, p), StopWalk(mmio, p, NxtAt(mmio, p) as bv16, spin, fuel - 1).io);
      }
    }
  }

  /** Looking at a capability writes nothing, and touches only its mapping. */
  lemma HeadSkipReads(mmio: map<int, bv32>, p: int)
    ensures Writes(Head(mmio, p)) == [] && Writes(Skip(mmio, p)) == []
  {
    assert Head(mmio, p)[1..][1..] == [];
    assert Skip(mmio, p)[1..][1..] == [];
  }

  /** The writes the handoff makes, by the legacy capability the reference walk finds. */
  function LegacyWrites(mmio: map<int, bv32>, found: Option<int>): (w: seq<Ev>)
  {
    match found
    case None => []
    case Some(p) => RequestWrite(Mmio(p), Dword(mmio, p))
  }

  lemma ClaimWrites(mmio: map<int, bv32>, p: int, spin: seq<bv32>)
    ensures Writes(Claim(mmio, p, spin).io) == RequestWrite(Mmio(p), Dword(mmio, p))
  {
    var cap1 := Dword(mmio, p);
    var rd := [Rd32(Mmio(p), cap1), Rd32(Mmio(p + 4), Dword(mmio, p + 4))];
    assert Writes(rd) == [] by {
      assert rd[1..] == [Rd32(Mmio(p + 4), Dword(mmio, p + 4))];
    }
    var b := ClaimBody(mmio, p, spin);
    var tail: seq<Ev> := if Returns(b.outcome) then [Unmap(Mapping(p, XEC_SIZE))] else [];
    assert Writes(tail) == [];
    WritesAppend(b.io, tail);
    if Request(cap1) != cap1 {
      var w := [Wr32(Mmio(p), Request(cap1))];
      SpinWrites(Mmio(p), spin);
      WritesAppend(rd, w);
      WritesAppend(rd + w, SpinReads(Mmio(p), spin));
    }
  }

  /** How xhci_stop_legacy ends, by what the reference walk finds and what the firmware does. */
  lemma {:induction false} StopOutcome(mmio: map<int, bv32>, pa: int, off: bv16, spin: seq<bv32>, fuel: nat)
    ensures FindLegacy(mmio, pa, off, fuel).None? ==> StopWalk(mmio, pa, off, spin, fuel).outcome in {NotFound, Exhausted}
    ensures FindLegacy(mmio, pa, off, fuel).Some? ==>
      var cap1 := Dword(mmio, FindLegacy(mmio, pa, off, fuel).value);
      StopWalk(mmio, pa, off, spin, fuel).outcome ==
        if Request(cap1) == cap1 then Unchanged else if Released(spin) then Written else Spinning
    decreases fuel
  {
    if off != 0 && fuel > 0 {
      var p := Advance(pa, off);
      if CapIdAt(mmio, p) != LEGACY_ID {
        StopOutcome(mmio, p, NxtAt(mmio, p) as bv16, spin, fuel - 1);
        assert StopWalk(mmio, pa, off, spin, fuel).outcome == StopWalk(mmio, p, NxtAt(mmio, p) as bv16, spin, fuel - 1).outcome;
      }
    }
  }

  /** The accesses of `io` end with `tail`. */
  predicate EndsWith(io: seq<Ev>, tail: seq<Ev>)
  {
    |tail| <= |io| && io[|io| - |tail|..] == tail
  }

  lemma {:induction false} StopEndsWithClaim(mmio: map<int, bv32>, pa: int, off: bv16, spin: seq<bv32>, fuel: nat)
    requires FindLegacy(mmio, pa, off, fuel).Some?
    ensures EndsWith(StopWalk(mmio, pa, off, spin, fuel).io, Claim(mmio, FindLegacy(mmio, pa, off, fuel).value, spin).io)
    decreases fuel
  {
    var p := Advance(pa, off);
    var c := Claim(mmio, FindLegacy(mmio, pa, off, fuel).value, spin).io;
    if CapIdAt(mmio, p) == LEGACY_ID {
      EndsWithAppend(Head(mmio, p), c);
    } else {
      var step := Head(mmio, p) + Skip(mmio, p);
      var rest := StopWalk(mmio, p, NxtAt(mmio, p) as bv16, spin, fuel - 1).io;
      StopEndsWithClaim(mmio, p, NxtAt(mmio, p) as bv16, spin, fuel - 1);
      EndsWithPrepend(step, rest, c);
    }
  }

  lemma EndsWithAppend(a: seq<Ev>, b: seq<Ev>)
    ensures EndsWith(a + b, b)
  {
    assert (a + b)[|a + b| - |b|..] == b;
  }

  lemma EndsWithPrepend(a: seq<Ev>, b: seq<Ev>, c: seq<Ev>)
    requires EndsWith(b, c)
    ensures EndsWith(a + b, c)
  {
    assert (a + b)[|a + b| - |c|..] == b[|b| - |c|..];
  }

  /**
   * When the request is written and USBLEGSUP then reads BIOS-owned N
   * times before reading it clear, the write is followed by exactly N + 1
   * reads of USBLEGSUP and then the unmapping of the capability, the last
   * accesses of the routine, and it returns.
   */
  lemma StopSpins(mmio: map<int, bv32>, hcPa: int, hccp1: bv32, spin: seq<bv32>, fuel: nat, n: nat)
    requires FindLegacy(mmio, hcPa, Xecp(hccp1), fuel).Some?
    requires Request(Dword(mmio, FindLegacy(mmio, hcPa, Xecp(hccp1), fuel).value)) != Dword(mmio, FindLegacy(mmio, hcPa, Xecp(hccp1), fuel).value)
    requires n < |spin| && !Held(spin[n]) && forall i :: 0 <= i < n ==> Held(spin[i])
    ensures var p := FindLegacy(mmio, hcPa, Xecp(hccp1), fuel).value;
      EndsWith(StopWalk(mmio, hcPa, Xecp(hccp1), spin, fuel).io,
        [Wr32(Mmio(p), Request(Dword(mmio, p)))] + seq(n + 1, i requires 0 <= i < n + 1 => Rd32(Mmio(p), spin[i])) + [Unmap(Mapping(p, XEC_SIZE))])
    ensures StopWalk(mmio, hcPa, Xecp(hccp1), spin, fuel).outcome == Written
  {
    var p := FindLegacy(mmio, hcPa, Xecp(hccp1), fuel).value;
    StopEndsWithClaim(mmio, hcPa, Xecp(hccp1), spin, fuel);
    StopOutcome(mmio, hcPa, Xecp(hccp1), spin, fuel);
    ClaimSpins(mmio, p, spin, n);
    EndsWithTrans(StopWalk(mmio, hcPa, Xecp(hccp1), spin, fuel).io, Claim(mmio, p, spin).io,
      [Wr32(Mmio(p), Request(Dword(mmio, p)))] + seq(n + 1, i requires 0 <= i < n + 1 => Rd32(Mmio(p), spin[i])) + [Unmap(Mapping(p, XEC_SIZE))]);
  }

  lemma ClaimSpins(mmio: map<int, bv32>, p: int, spin: seq<bv32>, n: nat)
    requires Request(Dword(mmio, p)) != Dword(mmio, p)
    requires n < |spin| && !Held(spin[n]) && forall i :: 0 <= i < n ==> Held(spin[i])
    ensures EndsWith(Claim(mmio, p, spin).io,
      [Wr32(Mmio(p), Request(Dword(mmio, p)))] + seq(n + 1, i requires 0 <= i < n + 1 => Rd32(Mmio(p), spin[i])) + [Unmap(Mapping(p, XEC_SIZE))])
  {
    SpinCount(Mmio(p), spin, n);
    var cap1 := Dword(mmio, p);
    var rd := [Rd32(Mmio(p), cap1), Rd32(Mmio(p + 4), Dword(mmio, p + 4))];
    var w := [Wr32(Mmio(p), Request(cap1))];
    var s := SpinReads(Mmio(p), spin);
    var u := [Unmap(Mapping(p, XEC_SIZE))];
    assert Claim(mmio, p, spin).io == rd + w + s + u;
    AppendAssoc(rd, w, s);
    AppendAssoc(rd, w + s, u);
    EndsWithAppend(rd, w + s + u);
  }

  lemma EndsWithTrans(a: seq<Ev>, b: seq<Ev>, c: seq<Ev>)
    requires EndsWith(a, b) && EndsWith(b, c)
    ensures EndsWith(a, c)
  {
    assert a[|a| - |c|..] == a[|a| - |b|..][|b| - |c|..];
  }

  /** Every access of the legacy capability lies in its 8-byte mapping. */
  lemma ClaimInside(mmio: map<int, bv32>, p: int, spin: seq<bv32>)
    ensures forall i :: 0 <= i < |ClaimBody(mmio, p, spin).io| ==> Inside(ClaimBody(mmio, p, spin).io[i], Mapping(p, XEC_SIZE))
  {
    var m := Mapping(p, XEC_SIZE);
    var cap1 := Dword(mmio, p);
    var rd := [Rd32(Mmio(p), cap1), Rd32(Mmio(p + 4), Dword(mmio, p + 4))];
    if Request(cap1) != cap1 {
      var a := rd + [Wr32(Mmio(p), Request(cap1))];
      var s := SpinReads(Mmio(p), spin);
      SpinInside(p, spin);
      assert forall i :: 0 <= i < |a + s| ==> (a + s)[i] == (if i < |a| then a[i] else s[i - |a|]);
    }
  }

  lemma {:induction false} SpinInside(p: int, spin: seq<bv32>)
    ensures forall i :: 0 <= i < |SpinReads(Mmio(p), spin)| ==> Inside(SpinReads(Mmio(p), spin)[i], Mapping(p, XEC_SIZE))
  {
    if |spin| > 0 && Held(spin[0]) {
      SpinInside(p, spin[1..]);
      var s := SpinReads(Mmio(p), spin[1..]);
      assert forall i :: 0 <= i < |[Rd32(Mmio(p), spin[0])] + s| ==> ([Rd32(Mmio(p), spin[0])] + s)[i] == (if i == 0 then Rd32(Mmio(p), spin[0]) else s[i - 1]);
    }
  }

  /**
   * Whenever it returns, xhci_stop_legacy maps each capability it looks
   * at with the size of usb_xhci_xec_t, touches only those bytes, and
   * unmaps it with the same size, found or not: the open mappings are
   * left as they were.
   */
  lemma {:induction false} StopMapped(mmio: map<int, bv32>, pa: int, off: bv16, spin: seq<bv32>, fuel: nat, live: multiset<Mapping>)
    requires Returns(StopWalk(mmio, pa, off, spin, fuel).outcome)
    ensures Mapped(live, StopWalk(mmio, pa, off, spin, fuel).io)
    ensures LiveAfter(live, StopWalk(mmio, pa, off, spin, fuel).io) == live
    decreases fuel
  {
    if off != 0 && fuel > 0 {
      var p := Advance(pa, off);
      if CapIdAt(mmio, p) == LEGACY_ID {
        LegacyMapped(mmio, p, spin, live);
      } else {
        SkipMapped(mmio, p, live);
        assert StopWalk(mmio, pa, off, spin, fuel).outcome == StopWalk(mmio, p, NxtAt(mmio, p) as bv16, spin, fuel - 1).outcome;
        StopMapped(mmio, p, NxtAt(mmio, p) as bv16, spin, fuel - 1, live);
        MappedAppend(live, Head(mmio, p) + Skip(mmio, p), StopWalk(mmio, p, NxtAt(mmio, p) as bv16, spin, fuel - 1).io);
      }
    }
  }

  /** A capability that is not the legacy one is mapped, read and unmapped. */
  lemma SkipMapped(mmio: map<int, bv32>, p: int, live: multiset<Mapping>)
    ensures Mapped(live, Head(mmio, p) + Skip(mmio, p)) && LiveAfter(live, Head(mmio, p) + Skip(mmio, p)) == live
  {
    var m := Mapping(p, XEC_SIZE);
    var body := [Rd8(Mmio(p), CapIdAt(mmio, p)), Rd8(Mmio(p + 1), NxtAt(mmio, p))];
    Bracket(live, m, body);
    assert Head(mmio, p) + Skip(mmio, p) == [Map(m)] + body + [Unmap(m)];
  }

  /** So is the legacy one, when the routine returns. */
  lemma LegacyMapped(mmio: map<int, bv32>, p: int, spin: seq<bv32>, live: multiset<Mapping>)
    requires Returns(Claim(mmio, p, spin).outcome)
    ensures Mapped(live, Head(mmio, p) + Claim(mmio, p, spin).io) && LiveAfter(live, Head(mmio, p) + Claim(mmio, p, spin).io) == live
  {
    var m := Mapping(p, XEC_SIZE);
    var id := Rd8(Mmio(p), CapIdAt(mmio, p));
    var b := ClaimBody(mmio, p, spin);
    ClaimInside(mmio, p, spin);
    var body := [id] + b.io;
    assert forall i :: 0 <= i < |body| ==> body[i] == (if i == 0 then id else b.io[i - 1]);
    Bracket(live, m, body);
    assert Head(mmio, p) == [Map(m)] + [id];
    AppendAssoc([Map(m)], [id], b.io);
    AppendAssoc(Head(mmio, p), b.io, [Unmap(m)]);
  }

  /** The CAPLENGTH byte: where the operational registers start. */
  function CapLength(mmio: map<int, bv32>, hcPa: int): bv8
  {
    (Dword(mmio, hcPa) & 0xff) as bv8
  }

  /**
   * usb_xhci_init_bus with `mapLen` bytes of the capability registers
   * mapped at `hcPa`: map, read HCCPARAMS1 and CAPLENGTH, hand off, read
   * USBSTS at hc + CAPLENGTH, unmap — unless the handoff never returns.
   */
  function InitBusWith(mapLen: nat, mmio: map<int, bv32>, hcPa: int, spin: seq<bv32>, fuel: nat): (r: Run)
  {
    var m := Mapping(hcPa, mapLen);
    var hccp1 := Dword(mmio, hcPa + HCCPARAMS1_OFF);
    var capLen := CapLength(mmio, hcPa);
    var sts := hcPa + capLen as int + USBSTS_OFF;
    var stop := StopWalk(mmio, hcPa, Xecp(hccp1), spin, fuel);
    Run(stop.outcome,
      [Map(m), Rd32(Mmio(hcPa + HCCPARAMS1_OFF), hccp1), Rd8(Mmio(hcPa), capLen)] + stop.io +
      (if Returns(stop.outcome) then [Rd32(Mmio(sts), Dword(mmio, sts)), Unmap(m)] else []))
  }

  /** usb_xhci_init_bus as written, mapping and unmapping sizeof (usb_xhci_t) bytes. */
  method UsbXhciInitBusAsWritten(mmio: map<int, bv32>, hcPa: int, spin: seq<bv32>, fuel: nat) returns (r: Run)
    ensures r == InitBusWith(HC_SIZE, mmio, hcPa, spin, fuel)
  {
    r := InitBus(HC_SIZE, mmio, hcPa, spin, fuel);
  }

  /** usb_xhci_init_bus mapping and unmapping the MAP_LEN bytes it computes. */
  method UsbXhciInitBus(mmio: map<int, bv32>, hcPa: int, spin: seq<bv32>, fuel: nat) returns (r: Run)
    ensures r == InitBusWith(MAP_LEN, mmio, hcPa, spin, fuel)
  {
    r := InitBus(MAP_LEN, mmio, hcPa, spin, fuel);
  }

  method InitBus(mapLen: nat, mmio: map<int, bv32>, hcPa: int, spin: seq<bv32>, fuel: nat) returns (r: Run)
    ensures r == InitBusWith(mapLen, mmio, hcPa, spin, fuel)
  {
    var m := Mapping(hcPa, mapLen);
    var hccp1 := Dword(mmio, hcPa + HCCPARAMS1_OFF);
    var capLen := CapLength(mmio, hcPa);
    var io := [Map(m), Rd32(Mmio(hcPa + HCCPARAMS1_OFF), hccp1), Rd8(Mmio(hcPa), capLen)];
    var stop := StopLegacy(mmio, hcPa, hccp1, spin, fuel);
    io := io + stop.io;
    if Returns(stop.outcome) {
      var sts := hcPa + capLen as int + USBSTS_OFF;
      io := io + [Rd32(Mmio(sts), Dword(mmio, sts)), Unmap(m)];
    }
    r := Run(stop.outcome, io);
  }

  /** The accesses around the handoff, split into their parts. */
  lemma InitBusParts(mapLen: nat, mmio: map<int, bv32>, hcPa: int, spin: seq<bv32>, fuel: nat, live: multiset<Mapping>)
    requires Returns(InitBusWith(mapLen, mmio, hcPa, spin, fuel).outcome)
    ensures var m := Mapping(hcPa, mapLen);
      var hccp1 := Dword(mmio, hcPa + HCCPARAMS1_OFF);
      var head := [Map(m), Rd32(Mmio(hcPa + HCCPARAMS1_OFF), hccp1), Rd8(Mmio(hcPa), CapLength(mmio, hcPa))];
      var stop := StopWalk(mmio, hcPa, Xecp(hccp1), spin, fuel).io;
      var sts := hcPa + CapLength(mmio, hcPa) as int + USBSTS_OFF;
      var tail := [Rd32(Mmio(sts), Dword(mmio, sts)), Unmap(m)];
      InitBusWith(mapLen, mmio, hcPa, spin, fuel).io == head + stop + tail &&
      LiveAfter(live, head + stop) == live + multiset{m} &&
      (Mapped(live, head + stop) <==> Mapped(live + multiset{m}, head[1..]))
  {
    var m := Mapping(hcPa, mapLen);
    var hccp1 := Dword(mmio, hcPa + HCCPARAMS1_OFF);
    var head := [Map(m), Rd32(Mmio(hcPa + HCCPARAMS1_OFF), hccp1), Rd8(Mmio(hcPa), CapLength(mmio, hcPa))];
    var stop := StopWalk(mmio, hcPa, Xecp(hccp1), spin, fuel).io;
    var l1 := live + multiset{m};
    assert head[1..][1..][1..] == [];
    assert LiveAfter(l1, head[1..][1..][1..]) == l1;
    assert LiveAfter(l1, head[1..][1..]) == l1;
    assert LiveAfter(l1, head[1..]) == l1;
    assert LiveAfter(live, head) == l1;
    StopMapped(mmio, hcPa, Xecp(hccp1), spin, fuel, l1);
    MappedAppend(live, head, stop);
    assert Mapped(live, head) <==> Mapped(l1, head[1..]);
  }

  /**
   * With the MAP_LEN bytes mapped, every access usb_xhci_init_bus makes
   * lies inside an open mapping, whatever CAPLENGTH says, and it unmaps
   * exactly what it mapped.
   */
  lemma InitBusMapped(mmio: map<int, bv32>, hcPa: int, spin: seq<bv32>, fuel: nat, live: multiset<Mapping>)
    requires Returns(InitBusWith(MAP_LEN, mmio, hcPa, spin, fuel).outcome)
    ensures Mapped(live, InitBusWith(MAP_LEN, mmio, hcPa, spin, fuel).io)
    ensures LiveAfter(live, InitBusWith(MAP_LEN, mmio, hcPa, spin, fuel).io) == live
  {
    var m := Mapping(hcPa, MAP_LEN);
    var l1 := live + multiset{m};
    var hccp1 := Dword(mmio, hcPa + HCCPARAMS1_OFF);
    var head := [Map(m), Rd32(Mmio(hcPa + HCCPARAMS1_OFF), hccp1), Rd8(Mmio(hcPa), CapLength(mmio, hcPa))];
    var stop := StopWalk(mmio, hcPa, Xecp(hccp1), spin, fuel).io;
    var sts := hcPa + CapLength(mmio, hcPa) as int + USBSTS_OFF;
    var tail := [Rd32(Mmio(sts), Dword(mmio, sts)), Unmap(m)];
    InitBusParts(MAP_LEN, mmio, hcPa, spin, fuel, live);
    MappedPieces(live, m, hccp1, CapLength(mmio, hcPa), stop, sts, Dword(mmio, sts));
  }

  /** The map, the two capability reads, the handoff, the USBSTS read and the unmap, put together. */
  lemma MappedPieces(live: multiset<Mapping>, m: Mapping, hccp1: bv32, capLen: bv8, stop: seq<Ev>, sts: int, v: bv32)
    requires m.len == MAP_LEN && m.pa <= sts && sts + 4 <= m.pa + m.len
    requires var head := [Map(m), Rd32(Mmio(m.pa + HCCPARAMS1_OFF), hccp1), Rd8(Mmio(m.pa), capLen)];
      LiveAfter(live, head + stop) == live + multiset{m} &&
      (Mapped(live, head + stop) <==> Mapped(live + multiset{m}, head[1..]))
    ensures var head := [Map(m), Rd32(Mmio(m.pa + HCCPARAMS1_OFF), hccp1), Rd8(Mmio(m.pa), capLen)];
      var tail := [Rd32(Mmio(sts), v), Unmap(m)];
      Mapped(live, head + stop + tail) && LiveAfter(live, head + stop + tail) == live
  {
    var l1 := live + multiset{m};
    var head := [Map(m), Rd32(Mmio(m.pa + HCCPARAMS1_OFF), hccp1), Rd8(Mmio(m.pa), capLen)];
    var tail := [Rd32(Mmio(sts), v), Unmap(m)];
    assert head[1..] == [Rd32(Mmio(m.pa + HCCPARAMS1_OFF), hccp1), Rd8(Mmio(m.pa), capLen)];
    HeadMapped(l1, m, hccp1, capLen);
    assert Covered(l1, Mmio(sts), 4) by { assert m in l1; }
    TailUnmaps(live, m, sts, v);
    MappedAppend(live, head + stop, tail);
  }

  /** The two capability reads after the map lie inside the MAP_LEN bytes mapped. */
  lemma HeadMapped(l1: multiset<Mapping>, m: Mapping, hccp1: bv32, capLen: bv8)
    requires m in l1 && m.len == MAP_LEN
    ensures Mapped(l1, [Rd32(Mmio(m.pa + HCCPARAMS1_OFF), hccp1), Rd8(Mmio(m.pa), capLen)])
  {
    var h := [Rd32(Mmio(m.pa + HCCPARAMS1_OFF), hccp1), Rd8(Mmio(m.pa), capLen)];
    assert Covered(l1, Mmio(m.pa + HCCPARAMS1_OFF), 4);
    assert Covered(l1, Mmio(m.pa), 1);
    assert h[1..][1..] == [];
  }

  /** The USBSTS read inside the mapping, then its unmap, leave the mappings open before it. */
  lemma TailUnmaps(live: multiset<Mapping>, m: Mapping, sts: int, v: bv32)
    requires Covered(live + multiset{m}, Mmio(sts), 4)
    ensures Mapped(live + multiset{m}, [Rd32(Mmio(sts), v), Unmap(m)])
    ensures LiveAfter(live + multiset{m}, [Rd32(Mmio(sts), v), Unmap(m)]) == live
  {
    var l1 := live + multiset{m};
    var tail := [Rd32(Mmio(sts), v), Unmap(m)];
    assert tail[1..][1..] == [];
    assert l1 - multiset{m} == live;
    assert LiveAfter(live, tail[1..][1..]) == live;
    assert LiveAfter(l1, tail[1..]) == live;
  }

  /**
   * As written, only sizeof (usb_xhci_t) bytes are mapped, so whenever
   * CAPLENGTH exceeds 24 — and the xHCI capability registers alone take 32
   * bytes — the USBSTS read lies outside every open mapping.
   */
  lemma InitBusAsWrittenReadsUnmapped(mmio: map<int, bv32>, hcPa: int, spin: seq<bv32>, fuel: nat)
    requires Returns(InitBusWith(HC_SIZE, mmio, hcPa, spin, fuel).outcome)
    requires CapLength(mmio, hcPa) as int > HC_SIZE - 8
    ensures !Mapped(multiset{}, InitBusWith(HC_SIZE, mmio, hcPa, spin, fuel).io)
  {
    var m := Mapping(hcPa, HC_SIZE);
    var l1 := multiset{} + multiset{m};
    var hccp1 := Dword(mmio, hcPa + HCCPARAMS1_OFF);
    var head := [Map(m), Rd32(Mmio(hcPa + HCCPARAMS1_OFF), hccp1), Rd8(Mmio(hcPa), CapLength(mmio, hcPa))];
    var stop := StopWalk(mmio, hcPa, Xecp(hccp1), spin, fuel).io;
    var sts := hcPa + CapLength(mmio, hcPa) as int + USBSTS_OFF;
    var tail := [Rd32(Mmio(sts), Dword(mmio, sts)), Unmap(m)];
    InitBusParts(HC_SIZE, mmio, hcPa, spin, fuel, multiset{});
    assert !Covered(l1, Mmio(sts), 4) by {
      forall m' | m' in l1
        ensures !(m'.pa <= sts && sts + 4 <= m'.pa + m'.len)
      {
        assert m' == m;
      }
    }
    assert !Mapped(l1, tail);
    MappedAppend(multiset{}, head + stop, tail);
  }

  /** A controller with CAPLENGTH 0x20 and no extended capabilities shows it. */
  lemma InitBusAsWrittenExample()
    ensures !Mapped(multiset{}, InitBusWith(HC_SIZE, map[0x1000 := 0x0100_0020, 0x1010 := 0], 0x1000, [], 0).io)
  {
    var mmio := map[0x1000 := 0x0100_0020, 0x1010 := 0];
    assert CapLength(mmio, 0x1000) == 0x20;
    assert Xecp(Dword(mmio, 0x1010)) == 0;
    InitBusAsWrittenReadsUnmapped(mmio, 0x1000, [], 0);
  }
}
