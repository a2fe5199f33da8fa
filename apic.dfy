/**
 * The I/O APIC's programming interface (apic.h; 82093AA I/O APIC datasheet,
 * section 3): a select register and a window register in one memory-mapped
 * block, through which the indirectly addressed registers are reached, and
 * the layout of the redirection table among those registers.
 *
 * The registers of every I/O APIC are a value here: which register each
 * one's select register names, and what each indirect register holds.
 */
module Apic {
  import opened Common

  /** Each register of the memory-mapped block sits on a 16-byte boundary. */
  const ALIGN_APIC: int := 0x10
  const REG_SIZE: int := 4

  /** ioapic_t: IOREGSEL first, then IOREGWIN; the block mapped for each I/O APIC. */
  const IOREGSEL_OFF: int := 0x00
  const IOREGWIN_OFF: int := 0x10
  const IOAPIC_SIZE: int := 0x20

  /**
   * Each register lies at the first 16-byte boundary at or after the end of
   * the one before, and the size is the end of the last one rounded up the
   * same way, as the alignment attribute lays the structure out.
   */
  lemma IoApicLayout()
    ensures IsAlignUp(IOREGSEL_OFF, 0) && IsAlignUp(IOREGWIN_OFF, IOREGSEL_OFF + REG_SIZE)
    ensures IsAlignUp(IOAPIC_SIZE, IOREGWIN_OFF + REG_SIZE)
  {
  }

  /** r is x rounded up to a multiple of ALIGN_APIC. */
  predicate IsAlignUp(r: int, x: int)
  {
    r % ALIGN_APIC == 0 && x <= r < x + ALIGN_APIC
  }

  /** The number of redirection table entries stage 2 masks on each I/O APIC. */
  const REDIR_ENTRIES: nat := 24

  /** IOREDTBLLO(i) and IOREDTBLHI(i): the two halves of redirection entry i. */
  function RedTblLo(i: nat): (r: int)
  {
    0x10 + 2 * i
  }

  function RedTblHi(i: nat): (r: int)
  {
    0x10 + 2 * i + 1
  }

  /**
   * The low halves of the 24 entries are even registers from 0x10 to 0x3e,
   * each high half is the register after its low half, and no two entries
   * share a register.
   */
  lemma RedTblLayout(i: nat, j: nat)
    requires i < REDIR_ENTRIES && j < REDIR_ENTRIES
    ensures RedTblLo(i) % 2 == 0 && 0x10 <= RedTblLo(i) <= 0x3e
    ensures RedTblHi(i) == RedTblLo(i) + 1
    ensures RedTblLo(i) == RedTblLo(j) <==> i == j
    ensures RedTblLo(i) != RedTblHi(j)
  {
  }

  /** Bit 16 of a redirection entry's low half masks the interrupt. */
  const RTLO_MASKED: bv32 := 0x0001_0000

  lemma MaskedBit()
    ensures RTLO_MASKED == 1 << 16
  {
  }

  /** One indirect register: an I/O APIC, by the physical address of its block, and a select value. */
  datatype Reg = Reg(base: int, index: int)

  /** The state of all I/O APICs: each one's select register, and the indirect registers. */
  datatype IoApics = IoApics(sel: map<int, int>, regs: map<Reg, bv32>)

  /** A select register never written holds zero, its reset value. */
  function SelOf(d: IoApics, base: int): int
  {
    if base in d.sel then d.sel[base] else 0
  }

  /** An indirect register nothing answers for reads as all ones. */
  function RegValue(d: IoApics, r: Reg): bv32
  {
    if r in d.regs then d.regs[r] else 0xffff_ffff
  }

  /** A store of v into IOREGSEL. */
  function Select(d: IoApics, base: int, v: int): (d': IoApics)
  {
    d.(sel := d.sel[base := v])
  }

  /** `IOREGWIN |= bits`: the selected register, read and written back with the bits set. */
  function OrWindow(d: IoApics, base: int, bits: bv32): (d': IoApics)
  {
    var r := Reg(base, SelOf(d, base));
    d.(regs := d.regs[r := RegValue(d, r) | bits])
  }

  /** The state after the first n iterations of the masking loop on the I/O APIC at `base`. */
  function MaskEntries(d: IoApics, base: int, n: nat): (d': IoApics)
    requires n <= REDIR_ENTRIES
  {
    if n == 0 then d
    else OrWindow(Select(MaskEntries(d, base, n - 1), base, RedTblLo(n - 1)), base, RTLO_MASKED)
  }

  /** Register `index` is the low half of one of the first n redirection entries. */
  predicate IsRedTblLo(index: int, n: nat)
    requires n <= REDIR_ENTRIES
  {
    0x10 <= index < RedTblLo(n) && index % 2 == 0
  }

  lemma IsRedTblLoMeans(index: int, n: nat)
    requires n <= REDIR_ENTRIES
    ensures IsRedTblLo(index, n) <==> exists j :: 0 <= j < n && index == RedTblLo(j)
  {
    if IsRedTblLo(index, n) {
      var j := (index - 0x10) / 2;
      assert index == RedTblLo(j);
    }
  }

  /** What register r holds once the first n entries at `base` are masked. */
  function MaskedValue(d: IoApics, base: int, n: nat, r: Reg): bv32
    requires n <= REDIR_ENTRIES
  {
    if r.base == base && IsRedTblLo(r.index, n) then RegValue(d, r) | RTLO_MASKED else RegValue(d, r)
  }

  /**
   * The masking loop sets the mask bit in the low half of each of the first
   * n redirection entries of that I/O APIC, leaves every other register of
   * every I/O APIC as it was, and leaves the select register on the last
   * entry it masked.
   */
  lemma {:induction false} MaskEntriesEffect(d: IoApics, base: int, n: nat)
    requires n <= REDIR_ENTRIES
    ensures forall r :: RegValue(MaskEntries(d, base, n), r) == MaskedValue(d, base, n, r)
    ensures n > 0 ==> SelOf(MaskEntries(d, base, n), base) == RedTblLo(n - 1)
    ensures n == 0 ==> SelOf(MaskEntries(d, base, n), base) == SelOf(d, base)
    ensures forall b :: b != base ==> SelOf(MaskEntries(d, base, n), b) == SelOf(d, b)
  {
    if n > 0 {
      MaskEntriesEffect(d, base, n - 1);
      var p := MaskEntries(d, base, n - 1);
      var q := Select(p, base, RedTblLo(n - 1));
      forall r
        ensures RegValue(MaskEntries(d, base, n), r) == MaskedValue(d, base, n, r)
      {
        MaskStep(d, base, n, r);
      }
    }
  }

  /** One more iteration of the masking loop, for one register. */
  lemma MaskStep(d: IoApics, base: int, n: nat, r: Reg)
    requires 0 < n <= REDIR_ENTRIES
    requires RegValue(MaskEntries(d, base, n - 1), r) == MaskedValue(d, base, n - 1, r)
    ensures RegValue(MaskEntries(d, base, n), r) == MaskedValue(d, base, n, r)
  {
    var q := Select(MaskEntries(d, base, n - 1), base, RedTblLo(n - 1));
    if r == Reg(base, RedTblLo(n - 1)) {
      OrWindowHit(q, base, RTLO_MASKED);
      MaskStepHit(d, base, n, r, RegValue(q, r));
    } else {
      OrWindowMiss(q, base, RTLO_MASKED, r);
      MaskStepMiss(d, base, n, r);
    }
  }

  /** `IOREGWIN |= bits` sets the bits in the selected register ... */
  lemma OrWindowHit(d: IoApics, base: int, bits: bv32)
    ensures RegValue(OrWindow(d, base, bits), Reg(base, SelOf(d, base))) == RegValue(d, Reg(base, SelOf(d, base))) | bits
    ensures OrWindow(d, base, bits).sel == d.sel
  {
  }

  /** ... and in no other. */
  lemma OrWindowMiss(d: IoApics, base: int, bits: bv32, r: Reg)
    requires r != Reg(base, SelOf(d, base))
    ensures RegValue(OrWindow(d, base, bits), r) == RegValue(d, r)
  {
  }

  lemma MaskStepHit(d: IoApics, base: int, n: nat, r: Reg, v: bv32)
    requires 0 < n <= REDIR_ENTRIES && r == Reg(base, RedTblLo(n - 1))
    requires v == MaskedValue(d, base, n - 1, r)
    ensures v | RTLO_MASKED == MaskedValue(d, base, n, r)
  {
    LastLo(n);
  }

  /** The entry the n-th iteration masks is new to it. */
  lemma LastLo(n: nat)
    requires 0 < n <= REDIR_ENTRIES
    ensures IsRedTblLo(RedTblLo(n - 1), n) && !IsRedTblLo(RedTblLo(n - 1), n - 1)
  {
    assert RedTblLo(n - 1) == 2 * (n + 7);
  }

  lemma MaskStepMiss(d: IoApics, base: int, n: nat, r: Reg)
    requires 0 < n <= REDIR_ENTRIES && r != Reg(base, RedTblLo(n - 1))
    ensures MaskedValue(d, base, n - 1, r) == MaskedValue(d, base, n, r)
  {
    assert r.base == base ==> (IsRedTblLo(r.index, n) <==> IsRedTblLo(r.index, n - 1));
  }

  /** Masking all 24 entries twice is the same as masking them once. */
  lemma MaskEntriesIdempotent(d: IoApics, base: int, r: Reg)
    ensures RegValue(MaskEntries(MaskEntries(d, base, REDIR_ENTRIES), base, REDIR_ENTRIES), r) ==
      RegValue(MaskEntries(d, base, REDIR_ENTRIES), r)
  {
    MaskEntriesEffect(d, base, REDIR_ENTRIES);
    MaskEntriesEffect(MaskEntries(d, base, REDIR_ENTRIES), base, REDIR_ENTRIES);
  }
}
