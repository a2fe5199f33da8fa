/**
 * What the USB legacy-ownership handoff routines have in common
 * (stage2/usb-ehci.c, stage2/usb-xhci.c, stage2/usb.c): the bits of the
 * USB legacy support capability, the accesses they make and record, the
 * spin on the BIOS-owned bit, and the memory mappings they open and close.
 */
module UsbCommon {
  /** Capability id of the USB legacy support capability, for EHCI and xHCI alike. */
  const LEGACY_ID: bv8 := 0x01

  /** USBLEGSUP bits. */
  const BIOS_OWNED: bv32 := 0x0001_0000
  const OS_OWNED: bv32 := 0x0100_0000

  /** USBLEGCTLSTS bits: USB SMI enable and SMI on OS ownership change. */
  const SMI_USB: bv32 := 0x0000_0001
  const SMI_OS_ENA: bv32 := 0x0000_2000

  lemma LegacyBits()
    ensures BIOS_OWNED == 1 << 16 && OS_OWNED == 1 << 24
    ensures SMI_USB == 1 << 0 && SMI_OS_ENA == 1 << 13
  {
  }

  /** A register a routine reaches: a configuration-space offset of the controller, or a physical address. */
  datatype Loc = Cfg(off: bv8) | Mmio(pa: int)

  /** A region opened by pci_va_map or mem_va_map and closed by mem_va_unmap. */
  datatype Mapping = Mapping(pa: int, len: nat)

  /**
   * One access, in program order: a dword read or write (a configuration
   * dword through in_pci_d/out_pci_d, or a memory-mapped one), a byte read
   * of memory-mapped space, or the mapping of a region and its unmapping.
   */
  datatype Ev =
    | Rd32(at: Loc, v: bv32)
    | Wr32(at: Loc, v: bv32)
    | Rd8(at: Loc, b: bv8)
    | Map(m: Mapping)
    | Unmap(m: Mapping)

  /**
   * How a handoff routine ended: no legacy capability on the list; the
   * model stopped following the list with the routine still looping;
   * found, with nothing to write; found and written (and, where the
   * routine waits, released by the firmware); or still waiting when the
   * supplied reads ran out.
   */
  datatype Outcome = NotFound | Exhausted | Unchanged | Written | Spinning

  /** The routine returned to its caller. */
  predicate Returns(o: Outcome)
  {
    o == NotFound || o == Unchanged || o == Written
  }

  /** What a routine did: how it ended, and its accesses in order. */
  datatype Run = Run(outcome: Outcome, io: seq<Ev>)

  function Prepend(io: seq<Ev>, r: Run): (r': Run)
  {
    Run(r.outcome, io + r.io)
  }

  lemma AppendAssoc(a: seq<Ev>, b: seq<Ev>, c: seq<Ev>)
    ensures a + b + c == a + (b + c)
  {
  }

  /** The dword an MMIO read at pa returns; an address nothing answers for reads all ones. */
  function Dword(mmio: map<int, bv32>, pa: int): bv32
  {
    if pa in mmio then mmio[pa] else 0xffff_ffff
  }

  /** The writes among a sequence of accesses, in order. */
  function Writes(io: seq<Ev>): (w: seq<Ev>)
    ensures |w| <= |io|
  {
    if |io| == 0 then [] else (if io[0].Wr32? then [io[0]] else []) + Writes(io[1..])
  }

  lemma {:induction false} WritesAppend(a: seq<Ev>, b: seq<Ev>)
    ensures Writes(a + b) == Writes(a) + Writes(b)
    decreases |a|
  {
    if |a| > 0 {
      assert (a + b)[0] == a[0];
      assert (a + b)[1..] == a[1..] + b;
      WritesAppend(a[1..], b);
    } else {
      assert a + b == b;
    }
  }

  /** The ownership request of usb-ehci.c and usb-xhci.c: BIOS-owned cleared, OS-owned set. */
  function Request(cap1: bv32): (v: bv32)
  {
    (cap1 & !BIOS_OWNED) | OS_OWNED
  }

  /** The one write the handoff makes at a USBLEGSUP that read `cap1`: the request, unless it changes nothing. */
  function RequestWrite(at: Loc, cap1: bv32): (w: seq<Ev>)
  {
    if Request(cap1) == cap1 then [] else [Wr32(at, Request(cap1))]
  }

  /** The request taken alone: the two ownership bits as named, every other bit kept. */
  lemma RequestBits(cap1: bv32)
    ensures Request(cap1) & BIOS_OWNED == 0 && Request(cap1) & OS_OWNED == OS_OWNED
    ensures Request(cap1) & !(BIOS_OWNED | OS_OWNED) == cap1 & !(BIOS_OWNED | OS_OWNED)
  {
  }

  /** The request changes nothing exactly when the controller is already OS-owned and not BIOS-owned. */
  lemma RequestUnchanged(cap1: bv32)
    ensures Request(cap1) == cap1 <==> (cap1 & BIOS_OWNED == 0 && cap1 & OS_OWNED == OS_OWNED)
  {
  }

  /** The firmware still holds the controller. */
  predicate Held(v: bv32)
  {
    v & BIOS_OWNED != 0
  }

  /**
   * The `do ... while (BIOS-owned)` spin after the ownership request,
   * given the values the register shows on successive reads: the reads up
   * to and including the first with BIOS-owned clear, or all of them if
   * none is.
   */
  function SpinReads(at: Loc, spin: seq<bv32>): (io: seq<Ev>)
  {
    if |spin| == 0 then []
    else [Rd32(at, spin[0])] + (if Held(spin[0]) then SpinReads(at, spin[1..]) else [])
  }

  /** The spin only reads. */
  lemma {:induction false} SpinWrites(at: Loc, spin: seq<bv32>)
    ensures Writes(SpinReads(at, spin)) == []
    ensures CfgOnly(SpinReads(at, spin)) <== at.Cfg?
  {
    if |spin| > 0 && Held(spin[0]) {
      SpinWrites(at, spin[1..]);
      WritesAppend([Rd32(at, spin[0])], SpinReads(at, spin[1..]));
    }
  }

  /** Some supplied read shows the controller released, so the spin ends. */
  predicate Released(spin: seq<bv32>)
  {
    exists i :: 0 <= i < |spin| && !Held(spin[i])
  }

  /**
   * With the bit read set N times and then clear, the spin makes exactly
   * N + 1 reads, of those values in order, and ends.
   */
  lemma {:induction false} SpinCount(at: Loc, spin: seq<bv32>, n: nat)
    requires n < |spin| && !Held(spin[n])
    requires forall i :: 0 <= i < n ==> Held(spin[i])
    ensures SpinReads(at, spin) == seq(n + 1, i requires 0 <= i < n + 1 => Rd32(at, spin[i]))
    ensures Released(spin)
  {
    if n > 0 {
      SpinCount(at, spin[1..], n - 1);
      assert Held(spin[0]);
      ReadsCons(at, spin, n);
    }
  }

  lemma ReadsCons(at: Loc, spin: seq<bv32>, n: nat)
    requires 0 < n < |spin|
    ensures [Rd32(at, spin[0])] + seq(n, i requires 0 <= i < n => Rd32(at, spin[1..][i])) ==
            seq(n + 1, i requires 0 <= i < n + 1 => Rd32(at, spin[i]))
  {
    var t := seq(n, i requires 0 <= i < n => Rd32(at, spin[1..][i]));
    var u := seq(n + 1, i requires 0 <= i < n + 1 => Rd32(at, spin[i]));
    forall i | 0 <= i < n + 1 ensures ([Rd32(at, spin[0])] + t)[i] == u[i] {
      if i > 0 {
        assert t[i - 1] == Rd32(at, spin[i]);
      }
    }
  }

  /** Without a read showing the controller released, the spin reads every supplied value. */
  lemma {:induction false} SpinNeverReleased(at: Loc, spin: seq<bv32>)
    requires !Released(spin)
    ensures SpinReads(at, spin) == seq(|spin|, i requires 0 <= i < |spin| => Rd32(at, spin[i]))
  {
    if |spin| > 0 {
      assert !Held(spin[0]) ==> Released(spin);
      SpinNeverReleased(at, spin[1..]);
    }
  }

  /** The spin as a loop: the reads it makes, and whether one of them showed the controller released. */
  method Spin(at: Loc, spin: seq<bv32>) returns (io: seq<Ev>, released: bool)
    ensures io == SpinReads(at, spin) && released == Released(spin)
  {
    io := [];
    var k := 0;
    released := false;
    while k < |spin| && !released
      invariant 0 <= k <= |spin|
      invariant io + (if released then [] else SpinReads(at, spin[k..])) == SpinReads(at, spin)
      invariant released <==> k > 0 && !Held(spin[k - 1])
      invariant forall i :: 0 <= i < k - 1 ==> Held(spin[i])
      invariant !released ==> forall i :: 0 <= i < k ==> Held(spin[i])
      decreases |spin| - k, if released then 0 else 1
    {
      var v := spin[k];
      assert spin[k..][1..] == spin[k + 1..];
      AppendAssoc(io, [Rd32(at, v)], SpinReads(at, spin[k + 1..]));
      io := io + [Rd32(at, v)];
      k := k + 1;
      released := !Held(v);
    }
    if !released {
      assert spin[k..] == [];
      assert !Released(spin);
    }
  }

  /** The mappings open after a sequence of accesses. */
  function Apply(live: multiset<Mapping>, e: Ev): (live': multiset<Mapping>)
  {
    match e
    case Map(m) => live + multiset{m}
    case Unmap(m) => live - multiset{m}
    case _ => live
  }

  function LiveAfter(live: multiset<Mapping>, io: seq<Ev>): (live': multiset<Mapping>)
    decreases |io|
  {
    if |io| == 0 then live else LiveAfter(Apply(live, io[0]), io[1..])
  }

  /** The bytes [pa, pa + w) lie inside an open mapping; configuration accesses need none. */
  predicate Covered(live: multiset<Mapping>, at: Loc, w: nat)
  {
    at.Cfg? || exists m :: m in live && m.pa <= at.pa && at.pa + w <= m.pa + m.len
  }

  /** One access is sound: memory is touched only inside an open mapping, and only open mappings are closed. */
  predicate Sound(live: multiset<Mapping>, e: Ev)
  {
    match e
    case Rd32(at, _) => Covered(live, at, 4)
    case Wr32(at, _) => Covered(live, at, 4)
    case Rd8(at, _) => Covered(live, at, 1)
    case Map(_) => true
    case Unmap(m) => m in live
  }

  predicate Mapped(live: multiset<Mapping>, io: seq<Ev>)
    decreases |io|
  {
    |io| == 0 || (Sound(live, io[0]) && Mapped(Apply(live, io[0]), io[1..]))
  }

  /** Mapping discipline composes along a sequence of accesses. */
  lemma {:induction false} MappedAppend(live: multiset<Mapping>, a: seq<Ev>, b: seq<Ev>)
    ensures LiveAfter(live, a + b) == LiveAfter(LiveAfter(live, a), b)
    ensures Mapped(live, a + b) <==> Mapped(live, a) && Mapped(LiveAfter(live, a), b)
    decreases |a|
  {
    if |a| > 0 {
      assert (a + b)[0] == a[0];
      assert (a + b)[1..] == a[1..] + b;
      MappedAppend(Apply(live, a[0]), a[1..], b);
    } else {
      assert a + b == b;
    }
  }

  /** One access on its own. */
  lemma MappedOne(live: multiset<Mapping>, e: Ev)
    ensures Mapped(live, [e]) == Sound(live, e)
    ensures LiveAfter(live, [e]) == Apply(live, e)
  {
    assert [e][1..] == [];
  }

  /** Mapping a region, touching bytes inside it only, and unmapping it is sound and leaves nothing open. */
  lemma Bracket(live: multiset<Mapping>, m: Mapping, body: seq<Ev>)
    requires forall i :: 0 <= i < |body| ==> Inside(body[i], m)
    ensures Mapped(live, [Map(m)] + body + [Unmap(m)])
    ensures LiveAfter(live, [Map(m)] + body + [Unmap(m)]) == live
  {
    var l1 := live + multiset{m};
    InsideMapped(l1, m, body);
    assert [Map(m)][1..] == [];
    assert Apply(live, Map(m)) == l1;
    assert LiveAfter(l1, []) == l1;
    assert LiveAfter(live, [Map(m)]) == l1;
    assert Mapped(live, [Map(m)]);
    MappedAppend(live, [Map(m)], body);
    assert Mapped(LiveAfter(l1, body), [Unmap(m)]);
    assert LiveAfter(LiveAfter(l1, body), [Unmap(m)]) == live;
    MappedAppend(live, [Map(m)] + body, [Unmap(m)]);
  }

  /** A body that is sound with m open and leaves the open set as it found it, bracketed by mapping and unmapping m. */
  lemma BracketMapped(live: multiset<Mapping>, m: Mapping, body: seq<Ev>)
    requires Mapped(live + multiset{m}, body) && LiveAfter(live + multiset{m}, body) == live + multiset{m}
    ensures Mapped(live, [Map(m)] + body + [Unmap(m)])
    ensures LiveAfter(live, [Map(m)] + body + [Unmap(m)]) == live
  {
    var l1 := live + multiset{m};
    MappedOne(live, Map(m));
    MappedAppend(live, [Map(m)], body);
    MappedOne(l1, Unmap(m));
    assert l1 - multiset{m} == live;
    MappedAppend(live, [Map(m)] + body, [Unmap(m)]);
  }

  /** Configuration-space reads and writes only. */
  predicate CfgOnly(io: seq<Ev>)
  {
    forall i :: 0 <= i < |io| ==> (io[i].Rd32? || io[i].Wr32?) && io[i].at.Cfg?
  }

  lemma CfgOnlyAppend(a: seq<Ev>, b: seq<Ev>)
    requires CfgOnly(a) && CfgOnly(b)
    ensures CfgOnly(a + b)
  {
    assert forall i :: 0 <= i < |a + b| ==> (a + b)[i] == (if i < |a| then a[i] else b[i - |a|]);
  }

  /** Configuration accesses need no mapping. */
  lemma CfgOnlyInside(io: seq<Ev>, m: Mapping)
    requires CfgOnly(io)
    ensures forall i :: 0 <= i < |io| ==> Inside(io[i], m)
  {
    forall i | 0 <= i < |io|
      ensures Inside(io[i], m)
    {
      assert (io[i].Rd32? || io[i].Wr32?) && io[i].at.Cfg?;
    }
  }

  /** A memory access within the region m, or a configuration access. */
  predicate Inside(e: Ev, m: Mapping)
  {
    match e
    case Rd32(at, _) => at.Cfg? || (m.pa <= at.pa && at.pa + 4 <= m.pa + m.len)
    case Wr32(at, _) => at.Cfg? || (m.pa <= at.pa && at.pa + 4 <= m.pa + m.len)
    case Rd8(at, _) => at.Cfg? || (m.pa <= at.pa && at.pa + 1 <= m.pa + m.len)
    case _ => false
  }

  lemma {:induction false} InsideMapped(live: multiset<Mapping>, m: Mapping, body: seq<Ev>)
    requires m in live
    requires forall i :: 0 <= i < |body| ==> Inside(body[i], m)
    ensures Mapped(live, body) && LiveAfter(live, body) == live
    decreases |body|
  {
    if |body| > 0 {
      assert Inside(body[0], m);
      assert Sound(live, body[0]);
      assert Apply(live, body[0]) == live;
      InsideMapped(live, m, body[1..]);
    }
  }
}
