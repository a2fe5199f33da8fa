/**
 * Stage 2's INT 15h event-wait services (stage2/16/isr-15.c): AH = 83h
 * (AL = 00h starts a wait that sets bit 7 of a caller's flag byte, AL = 01h
 * cancels it) and AH = 86h (waits on bit 7 of the BDA's own wait_active
 * byte). A wait lives in the BDA: the flag's far pointer, a countdown of
 * microseconds, and wait_active; it runs off the RTC's periodic interrupt,
 * which the service enables in status register B.
 *
 * The machine is real-mode memory (holding the BDA at 0x400) and the
 * register block the service reads and writes; the CMOS is reached through
 * the port bus.
 */
module Isr15 {
  import opened Bda
  import opened Ports
  import Time

  const E15_WAIT_ACTIVE: bv8 := 0x83
  const E15_UNSUPP: bv8 := 0x86

  /** Status register B, selected with NMIs disabled. */
  const IDX_B_NMI: bv8 := 0x8b

  lemma IdxBNmi()
    ensures IDX_B_NMI == CMOS_RTC_STA_B | CMOS_NMI_DIS
  {
  }

  /** The linear addresses of the BDA members the service uses. */
  const WAIT_CNTDN_LOW_ADDR: int := BDA_BASE + WAIT_CNTDN_LOW_OFF
  const P_WAIT_FLAG_ADDR: int := BDA_BASE + P_WAIT_FLAG_OFF
  const WAIT_CNTDN_ADDR: int := BDA_BASE + WAIT_CNTDN_OFF
  const WAIT_ACTIVE_ADDR: int := BDA_BASE + WAIT_ACTIVE_OFF

  /** offsetof(bda_t, wait_active), as the 16-bit offset AH = 86h passes. */
  const WAIT_ACTIVE_OFF16: bv16 := 0xa0

  /** BDA_SEG:offsetof(bda_t, wait_active) is the wait_active byte itself. */
  lemma WaitActiveFlag()
    ensures Linear(BDA_SEG, WAIT_ACTIVE_OFF16) == WAIT_ACTIVE_ADDR
  {
  }

  /** The bytes of the BDA members a wait sets up. */
  predicate InWaitFields(j: int)
  {
    P_WAIT_FLAG_ADDR <= j < WAIT_CNTDN_ADDR + 4 || j == WAIT_CNTDN_LOW_ADDR || j == WAIT_ACTIVE_ADDR
  }

  predicate WaitActive(mem: seq<bv8>)
    requires |mem| == REAL_MEM_SIZE
  {
    mem[WAIT_ACTIVE_ADDR] & BDA_WAIT_ACTIVE != 0
  }

  /** The interval requested, in microseconds: CX:DX. */
  function Interval(r: Regs): bv32
  {
    ((Cx(r) as bv32) << 16) | (Dx(r) as bv32)
  }

  /** The BDA with a wait set up on the flag byte at `flag`, counting down from `cntdn`. */
  function ArmWait(mem: seq<bv8>, flag: bv32, cntdn: bv32): (m': seq<bv8>)
    requires |mem| == REAL_MEM_SIZE
    ensures |m'| == REAL_MEM_SIZE
  {
    var m1 := Store32(mem, P_WAIT_FLAG_ADDR, flag);
    var m2 := Store32(m1, WAIT_CNTDN_ADDR, cntdn);
    m2[WAIT_CNTDN_LOW_ADDR := 0xff][WAIT_ACTIVE_ADDR := BDA_WAIT_ACTIVE]
  }

  /** Memory after wait_us with the flag byte at seg:off. */
  function WaitUsMem(mem: seq<bv8>, r: Regs, seg: bv16, off: bv16): (m': seq<bv8>)
    requires |mem| == REAL_MEM_SIZE
    ensures |m'| == REAL_MEM_SIZE
  {
    if WaitActive(mem) then mem
    else if Interval(r) != 0 then ArmWait(mem, MkFp16(seg, off), Interval(r) - 1)
    else mem[Linear(seg, off) := mem[Linear(seg, off)] | BDA_WAIT_FIN]
  }

  /** The registers after wait_us. */
  function WaitUsRegs(mem: seq<bv8>, r: Regs): Regs
    requires |mem| == REAL_MEM_SIZE
  {
    if WaitActive(mem) then SetCarry(WithAh(r, E15_WAIT_ACTIVE)) else ClearCarry(r)
  }

  /** The CMOS helper calls of wait_us, when status B reads as `sta`. */
  function WaitUsOps(mem: seq<bv8>, r: Regs, sta: bv8): seq<CmosOp>
    requires |mem| == REAL_MEM_SIZE
  {
    if !WaitActive(mem) && Interval(r) != 0 then
      [CmosRd(IDX_B_NMI, sta), CmosWr(IDX_B_NMI, sta | Time.RTC_B_TICK_ENA), CmosHome]
    else []
  }

  /** Memory after cancel_wait. */
  function CancelMem(mem: seq<bv8>): (m': seq<bv8>)
    requires |mem| == REAL_MEM_SIZE
    ensures |m'| == REAL_MEM_SIZE
  {
    if WaitActive(mem) then mem[WAIT_ACTIVE_ADDR := BDA_WAIT_NONE] else mem
  }

  /** The CMOS helper calls of cancel_wait; the write selects status B without CMOS_NMI_DIS. */
  function CancelOps(mem: seq<bv8>, sta: bv8): seq<CmosOp>
    requires |mem| == REAL_MEM_SIZE
  {
    if WaitActive(mem) then
      [CmosRd(IDX_B_NMI, sta), CmosWr(CMOS_RTC_STA_B, sta & !Time.RTC_B_TICK_ENA), CmosHome]
    else []
  }

  /**
   * How a call ends: it returns to the caller, it is left waiting for the
   * interrupt that completes an AH = 86h wait, or it is handed to
   * isr16_unimpl with eax, edx and the interrupt number.
   */
  datatype Outcome = Returned | AwaitIrq | Unimplemented(eax: bv32, edx: bv32, intNo: bv8)

  /** Memory after a call, by the dispatch on AH and AL. */
  function Int15Mem(mem: seq<bv8>, r: Regs): (m': seq<bv8>)
    requires |mem| == REAL_MEM_SIZE
    ensures |m'| == REAL_MEM_SIZE
  {
    if Ah(r) == 0x83 && Al(r) == 0x00 then WaitUsMem(mem, r, r.es, Bx(r))
    else if Ah(r) == 0x83 && Al(r) == 0x01 then CancelMem(mem)
    else if Ah(r) == 0x86 then WaitUsMem(mem, r, BDA_SEG, WAIT_ACTIVE_OFF16)
    else mem
  }

  function Int15Regs(mem: seq<bv8>, r: Regs): Regs
    requires |mem| == REAL_MEM_SIZE
  {
    if Ah(r) == 0x83 && Al(r) == 0x00 then WaitUsRegs(mem, r)
    else if Ah(r) == 0x83 && Al(r) == 0x01 then ClearCarry(r)
    else if Ah(r) == 0x83 then SetCarry(WithAh(r, E15_UNSUPP))
    else if Ah(r) == 0x86 then WaitUsRegs(mem, r)
    else r
  }

  function Int15Ops(mem: seq<bv8>, r: Regs, sta: bv8): seq<CmosOp>
    requires |mem| == REAL_MEM_SIZE
  {
    if Ah(r) == 0x83 && Al(r) == 0x00 then WaitUsOps(mem, r, sta)
    else if Ah(r) == 0x83 && Al(r) == 0x01 then CancelOps(mem, sta)
    else if Ah(r) == 0x86 then WaitUsOps(mem, r, sta)
    else []
  }

  /** AH = 86h waits for bit 7 of wait_active only when wait_us left carry clear. */
  function Int15Outcome(mem: seq<bv8>, r: Regs): Outcome
    requires |mem| == REAL_MEM_SIZE
  {
    if Ah(r) == 0x83 then Returned
    else if Ah(r) == 0x86 then
      (if !Carry(WaitUsRegs(mem, r)) && Int15Mem(mem, r)[WAIT_ACTIVE_ADDR] & BDA_WAIT_FIN == 0 then AwaitIrq
       else Returned)
    else Unimplemented(r.eax, r.edx, 0x15)
  }

  /** Real-mode memory and the register block of the call being served. */
  class RealMode {
    var mem: seq<bv8>
    var regs: Regs

    constructor(mem: seq<bv8>, regs: Regs)
      requires |mem| == REAL_MEM_SIZE
      ensures this.mem == mem && this.regs == regs
    {
      this.mem := mem;
      this.regs := regs;
    }

    /** peekb: the byte at seg:off. */
    function PeekB(seg: bv16, off: bv16): bv8
      requires |mem| == REAL_MEM_SIZE
      reads this
    {
      mem[Linear(seg, off)]
    }

    /** pokeb: store a byte at seg:off. */
    method PokeB(seg: bv16, off: bv16, v: bv8)
      requires |mem| == REAL_MEM_SIZE
      modifies this
      ensures mem == old(mem)[Linear(seg, off) := v] && regs == old(regs)
    {
      mem := mem[Linear(seg, off) := v];
    }

    /** wait_us: start a wait on the flag byte at seg:off. */
    method WaitUs(bus: Bus, seg: bv16, off: bv16)
      requires |mem| == REAL_MEM_SIZE
      modifies this, bus
      ensures mem == WaitUsMem(old(mem), old(regs), seg, off) && regs == WaitUsRegs(old(mem), old(regs))
      ensures bus.trace == old(bus.trace) + OpsIo(WaitUsOps(old(mem), old(regs), Answer(bus.input, old(bus.served))))
      ensures bus.served == old(bus.served) + Reads(WaitUsOps(old(mem), old(regs), Answer(bus.input, old(bus.served))))
    {
      if mem[WAIT_ACTIVE_ADDR] & BDA_WAIT_ACTIVE != 0 {
        WaitUsBusyCase(mem, regs, seg, off, Answer(bus.input, bus.served));
        regs := SetCarry(WithAh(regs, E15_WAIT_ACTIVE));
        NoOpsIo(bus.trace);
        return;
      }
      var interval := ((Cx(regs) as bv32) << 16) | (Dx(regs) as bv32);
      ghost var m0, r0, t0, k0 := mem, regs, bus.trace, bus.served;
      if interval != 0 {
        StartWait(bus, seg, off, interval);
        WaitUsArmCase(m0, r0, seg, off, Answer(bus.input, k0));
      } else {
        PokeB(seg, off, PeekB(seg, off) | BDA_WAIT_FIN);
        WaitUsZeroCase(m0, r0, seg, off, Answer(bus.input, k0));
        NoOpsIo(t0);
      }
      regs := ClearCarry(regs);
    }

    /** The body of wait_us that sets a wait up: three BDA stores, status B, then wait_active. */
    method StartWait(bus: Bus, seg: bv16, off: bv16, interval: bv32)
      requires |mem| == REAL_MEM_SIZE && interval != 0
      modifies this, bus
      ensures mem == ArmWait(old(mem), MkFp16(seg, off), interval - 1) && regs == old(regs)
      ensures var sta := Answer(bus.input, old(bus.served));
        bus.trace == old(bus.trace) + OpsIo([CmosRd(IDX_B_NMI, sta), CmosWr(IDX_B_NMI, sta | Time.RTC_B_TICK_ENA), CmosHome])
      ensures bus.served == old(bus.served) + 1
    {
      ghost var t0 := bus.trace;
      mem := Store32(mem, P_WAIT_FLAG_ADDR, MkFp16(seg, off));
      mem := Store32(mem, WAIT_CNTDN_ADDR, interval - 1);
      mem := mem[WAIT_CNTDN_LOW_ADDR := 0xff];
      var sta := bus.CmosRead(IDX_B_NMI);
      bus.CmosWrite(IDX_B_NMI, sta | Time.RTC_B_TICK_ENA);
      bus.CmosHome();
      mem := mem[WAIT_ACTIVE_ADDR := BDA_WAIT_ACTIVE];
      ThreeOpsIo(t0, CmosRd(IDX_B_NMI, sta), CmosWr(IDX_B_NMI, sta | Time.RTC_B_TICK_ENA), CmosHome);
    }

    /** cancel_wait. */
    method CancelWait(bus: Bus)
      requires |mem| == REAL_MEM_SIZE
      modifies this, bus
      ensures mem == CancelMem(old(mem)) && regs == ClearCarry(old(regs))
      ensures bus.trace == old(bus.trace) + OpsIo(CancelOps(old(mem), Answer(bus.input, old(bus.served))))
      ensures bus.served == old(bus.served) + Reads(CancelOps(old(mem), Answer(bus.input, old(bus.served))))
    {
      ghost var t0 := bus.trace;
      if mem[WAIT_ACTIVE_ADDR] & BDA_WAIT_ACTIVE != 0 {
        var sta := bus.CmosRead(IDX_B_NMI);
        bus.CmosWrite(CMOS_RTC_STA_B, sta & !Time.RTC_B_TICK_ENA);
        bus.CmosHome();
        mem := mem[WAIT_ACTIVE_ADDR := BDA_WAIT_NONE];
        ThreeOpsIo(t0, CmosRd(IDX_B_NMI, sta), CmosWr(CMOS_RTC_STA_B, sta & !Time.RTC_B_TICK_ENA), CmosHome);
      } else {
        NoOpsIo(t0);
      }
      regs := ClearCarry(regs);
    }

    /** isr16_0x15_impl: the service, up to the wait loop of AH = 86h. */
    method Int15(bus: Bus) returns (outcome: Outcome)
      requires |mem| == REAL_MEM_SIZE
      modifies this, bus
      ensures mem == Int15Mem(old(mem), old(regs)) && regs == Int15Regs(old(mem), old(regs))
      ensures bus.trace == old(bus.trace) + OpsIo(Int15Ops(old(mem), old(regs), Answer(bus.input, old(bus.served))))
      ensures bus.served == old(bus.served) + Reads(Int15Ops(old(mem), old(regs), Answer(bus.input, old(bus.served))))
      ensures outcome == Int15Outcome(old(mem), old(regs))
    {
      var ah, al := Ah(regs), Al(regs);
      if ah == 0x83 {
        if al == 0x00 {
          WaitUs(bus, regs.es, Bx(regs));
        } else if al == 0x01 {
          CancelWait(bus);
        } else {
          regs := SetCarry(WithAh(regs, E15_UNSUPP));
        }
        outcome := Returned;
      } else if ah == 0x86 {
        WaitUs(bus, BDA_SEG, WAIT_ACTIVE_OFF16);
        if regs.flags & EFL_C == 0 && mem[WAIT_ACTIVE_ADDR] & BDA_WAIT_FIN == 0 {
          outcome := AwaitIrq;
        } else {
          outcome := Returned;
        }
      } else {
        outcome := Unimplemented(regs.eax, regs.edx, 0x15);
      }
    }
  }

  /** wait_us with no wait active and a nonzero interval. */
  lemma WaitUsArmCase(mem: seq<bv8>, r: Regs, seg: bv16, off: bv16, sta: bv8)
    requires |mem| == REAL_MEM_SIZE && !WaitActive(mem) && Interval(r) != 0
    ensures WaitUsMem(mem, r, seg, off) == ArmWait(mem, MkFp16(seg, off), Interval(r) - 1)
    ensures WaitUsOps(mem, r, sta) == [CmosRd(IDX_B_NMI, sta), CmosWr(IDX_B_NMI, sta | Time.RTC_B_TICK_ENA), CmosHome]
    ensures Reads(WaitUsOps(mem, r, sta)) == 1 && WaitUsRegs(mem, r) == ClearCarry(r)
  {
    ThreeOpsIo([], CmosRd(IDX_B_NMI, sta), CmosWr(IDX_B_NMI, sta | Time.RTC_B_TICK_ENA), CmosHome);
  }

  /** wait_us with a wait already active. */
  lemma WaitUsBusyCase(mem: seq<bv8>, r: Regs, seg: bv16, off: bv16, sta: bv8)
    requires |mem| == REAL_MEM_SIZE && WaitActive(mem)
    ensures WaitUsMem(mem, r, seg, off) == mem && WaitUsOps(mem, r, sta) == []
    ensures WaitUsRegs(mem, r) == SetCarry(WithAh(r, E15_WAIT_ACTIVE))
  {
  }

  /** wait_us with no wait active and a zero interval. */
  lemma WaitUsZeroCase(mem: seq<bv8>, r: Regs, seg: bv16, off: bv16, sta: bv8)
    requires |mem| == REAL_MEM_SIZE && !WaitActive(mem) && Interval(r) == 0
    ensures WaitUsMem(mem, r, seg, off) == mem[Linear(seg, off) := mem[Linear(seg, off)] | BDA_WAIT_FIN]
    ensures WaitUsOps(mem, r, sta) == [] && WaitUsRegs(mem, r) == ClearCarry(r)
  {
  }

  /** The trace of three helper calls in a row, and how many of them read. */
  lemma ThreeOpsIo(t: seq<Access>, a: CmosOp, b: CmosOp, c: CmosOp)
    ensures t + OpIo(a) + OpIo(b) + OpIo(c) == t + OpsIo([a, b, c])
    ensures Reads([a, b, c]) == (if a.CmosRd? then 1 else 0) + (if b.CmosRd? then 1 else 0) + (if c.CmosRd? then 1 else 0)
  {
    assert [a, b, c][1..] == [b, c] && [b, c][1..] == [c] && [c][1..] == [];
    assert OpsIo([c]) == OpIo(c) + OpsIo([]);
    assert OpsIo([b, c]) == OpIo(b) + OpsIo([c]);
    assert Reads([c]) == (if c.CmosRd? then 1 else 0) + Reads([]);
    assert Reads([b, c]) == (if b.CmosRd? then 1 else 0) + Reads([c]);
    AppendAssoc(t, OpIo(a), OpIo(b));
    AppendAssoc(t, OpIo(a) + OpIo(b), OpIo(c));
    AppendAssoc(OpIo(a), OpIo(b), OpIo(c));
  }

  /** No helper calls leave the trace as it was. */
  lemma NoOpsIo(t: seq<Access>)
    ensures t + OpsIo([]) == t && Reads([]) == 0
  {
    assert OpsIo([]) == [];
  }

  /**
   * A call while a wait is active fails with AH = 83h and carry set, and
   * changes neither memory nor the CMOS.
   */
  lemma WaitUsBusy(mem: seq<bv8>, r: Regs, seg: bv16, off: bv16, sta: bv8)
    requires |mem| == REAL_MEM_SIZE && WaitActive(mem)
    ensures Ah(WaitUsRegs(mem, r)) == E15_WAIT_ACTIVE && Carry(WaitUsRegs(mem, r))
    ensures Al(WaitUsRegs(mem, r)) == Al(r) && WaitUsRegs(mem, r).ecx == r.ecx && WaitUsRegs(mem, r).edx == r.edx
    ensures WaitUsMem(mem, r, seg, off) == mem && WaitUsOps(mem, r, sta) == []
  {
    WaitUsBusyCase(mem, r, seg, off, sta);
  }

  /**
   * With no wait active and a nonzero interval, the BDA records a wait on
   * the flag byte at seg:off counting down from interval - 1, with the low
   * count byte at 0xff and wait_active set; no other byte of memory
   * changes; status B is read and written back with the periodic interrupt
   * enabled and its other bits kept, all with NMIs disabled until the
   * closing cmos_home; and carry ends clear.
   */
  lemma WaitUsArms(mem: seq<bv8>, r: Regs, seg: bv16, off: bv16, sta: bv8)
    requires |mem| == REAL_MEM_SIZE && !WaitActive(mem) && Interval(r) != 0
    ensures var m' := WaitUsMem(mem, r, seg, off);
      Load32(m', P_WAIT_FLAG_ADDR) == MkFp16(seg, off) && Load32(m', WAIT_CNTDN_ADDR) == Interval(r) - 1 &&
      m'[WAIT_CNTDN_LOW_ADDR] == 0xff && m'[WAIT_ACTIVE_ADDR] == BDA_WAIT_ACTIVE && WaitActive(m')
    ensures forall j :: 0 <= j < REAL_MEM_SIZE && !InWaitFields(j) ==> WaitUsMem(mem, r, seg, off)[j] == mem[j]
    ensures var ops := WaitUsOps(mem, r, sta);
      |ops| == 3 && ops[0] == CmosRd(IDX_B_NMI, sta) && ops[1].CmosWr? && ops[1].idx == IDX_B_NMI && ops[2] == CmosHome &&
      ops[1].v & Time.RTC_B_TICK_ENA != 0 && ops[1].v & !Time.RTC_B_TICK_ENA == sta & !Time.RTC_B_TICK_ENA &&
      OpIndex(ops[0]) & CMOS_NMI_DIS != 0 && OpIndex(ops[1]) & CMOS_NMI_DIS != 0
    ensures !Carry(WaitUsRegs(mem, r)) && WaitUsRegs(mem, r) == r.(flags := WaitUsRegs(mem, r).flags)
  {
    WaitUsArmCase(mem, r, seg, off, sta);
    var flag, cnt := MkFp16(seg, off), Interval(r) - 1;
    var m1 := Store32(mem, P_WAIT_FLAG_ADDR, flag);
    var m2 := Store32(m1, WAIT_CNTDN_ADDR, cnt);
    var m' := ArmWait(mem, flag, cnt);
    assert m' == m2[WAIT_CNTDN_LOW_ADDR := 0xff][WAIT_ACTIVE_ADDR := BDA_WAIT_ACTIVE];
    LoadStore32(mem, P_WAIT_FLAG_ADDR, flag);
    Load32Same(m1, m2, P_WAIT_FLAG_ADDR);
    Load32Same(m2, m', P_WAIT_FLAG_ADDR);
    LoadStore32(m1, WAIT_CNTDN_ADDR, cnt);
    Load32Same(m2, m', WAIT_CNTDN_ADDR);
    IdxBNmi();
  }

  /**
   * With no wait active and a zero interval, bit 7 of the flag byte at
   * seg:off is set, no other byte of memory changes (a flag byte inside the
   * BDA is the only BDA change), the CMOS is not touched, and carry ends
   * clear.
   */
  lemma WaitUsZero(mem: seq<bv8>, r: Regs, seg: bv16, off: bv16, sta: bv8)
    requires |mem| == REAL_MEM_SIZE && !WaitActive(mem) && Interval(r) == 0
    ensures WaitUsMem(mem, r, seg, off)[Linear(seg, off)] & BDA_WAIT_FIN != 0
    ensures WaitUsMem(mem, r, seg, off)[Linear(seg, off)] & !BDA_WAIT_FIN == mem[Linear(seg, off)] & !BDA_WAIT_FIN
    ensures forall j :: 0 <= j < REAL_MEM_SIZE && j != Linear(seg, off) ==> WaitUsMem(mem, r, seg, off)[j] == mem[j]
    ensures WaitUsOps(mem, r, sta) == [] && !Carry(WaitUsRegs(mem, r)) && WaitUsRegs(mem, r) == r.(flags := WaitUsRegs(mem, r).flags)
  {
    WaitUsZeroCase(mem, r, seg, off, sta);
  }

  /**
   * cancel_wait: with a wait active, wait_active is cleared and status B is
   * read and written back with the periodic interrupt disabled and its other
   * bits kept; the read selects status B with NMIs disabled, the write
   * without. With no wait active nothing changes. Either way carry ends
   * clear and no other byte of memory changes.
   */
  lemma CancelWaitEffect(mem: seq<bv8>, sta: bv8)
    requires |mem| == REAL_MEM_SIZE
    ensures !WaitActive(CancelMem(mem))
    ensures forall j :: 0 <= j < REAL_MEM_SIZE && j != WAIT_ACTIVE_ADDR ==> CancelMem(mem)[j] == mem[j]
    ensures WaitActive(mem) ==> CancelMem(mem)[WAIT_ACTIVE_ADDR] == BDA_WAIT_NONE
    ensures !WaitActive(mem) ==> CancelMem(mem) == mem && CancelOps(mem, sta) == []
    ensures WaitActive(mem) ==> var ops := CancelOps(mem, sta);
      |ops| == 3 && ops[0] == CmosRd(IDX_B_NMI, sta) && ops[1].CmosWr? && ops[2] == CmosHome &&
      ops[1].v & Time.RTC_B_TICK_ENA == 0 && ops[1].v | Time.RTC_B_TICK_ENA == sta | Time.RTC_B_TICK_ENA &&
      OpIndex(ops[0]) & CMOS_NMI_DIS != 0 && OpIndex(ops[1]) == CMOS_RTC_STA_B && OpIndex(ops[1]) & CMOS_NMI_DIS == 0
  {
    IdxBNmi();
  }

  /** AH = 83h with AL other than 00h or 01h fails with AH = 86h and carry set, and changes nothing else. */
  lemma Int15Unsupported(mem: seq<bv8>, r: Regs, sta: bv8)
    requires |mem| == REAL_MEM_SIZE && Ah(r) == 0x83 && Al(r) != 0x00 && Al(r) != 0x01
    ensures Ah(Int15Regs(mem, r)) == E15_UNSUPP && Carry(Int15Regs(mem, r)) && Al(Int15Regs(mem, r)) == Al(r)
    ensures Int15Mem(mem, r) == mem && Int15Ops(mem, r, sta) == [] && Int15Outcome(mem, r) == Returned
  {
  }

  /** Any AH other than 83h and 86h goes to isr16_unimpl with eax, edx and 15h, untouched. */
  lemma Int15Unimplemented(mem: seq<bv8>, r: Regs, sta: bv8)
    requires |mem| == REAL_MEM_SIZE && Ah(r) != 0x83 && Ah(r) != 0x86
    ensures Int15Outcome(mem, r) == Unimplemented(r.eax, r.edx, 0x15)
    ensures Int15Mem(mem, r) == mem && Int15Regs(mem, r) == r && Int15Ops(mem, r, sta) == []
  {
  }

  /**
   * AH = 86h waits on wait_active itself, so it is left waiting for the
   * interrupt exactly when it set a wait up: no wait was active and the
   * interval is nonzero. A zero interval sets bit 7 of wait_active and
   * returns at once; an active wait returns AH = 83h with carry set.
   */
  lemma Int86Outcome(mem: seq<bv8>, r: Regs)
    requires |mem| == REAL_MEM_SIZE && Ah(r) == 0x86
    ensures Int15Outcome(mem, r) == AwaitIrq <==> !WaitActive(mem) && Interval(r) != 0
    ensures Int15Outcome(mem, r) != AwaitIrq ==> Int15Outcome(mem, r) == Returned
    ensures !WaitActive(mem) && Interval(r) == 0 ==> Int15Mem(mem, r)[WAIT_ACTIVE_ADDR] & BDA_WAIT_FIN != 0
    ensures WaitActive(mem) ==> Ah(Int15Regs(mem, r)) == E15_WAIT_ACTIVE && Carry(Int15Regs(mem, r))
  {
    WaitActiveFlag();
    if WaitActive(mem) {
      WaitUsBusyCase(mem, r, BDA_SEG, WAIT_ACTIVE_OFF16, 0);
    } else if Interval(r) != 0 {
      WaitUsArmCase(mem, r, BDA_SEG, WAIT_ACTIVE_OFF16, 0);
      assert Int15Mem(mem, r)[WAIT_ACTIVE_ADDR] == BDA_WAIT_ACTIVE;
    } else {
      WaitUsZeroCase(mem, r, BDA_SEG, WAIT_ACTIVE_OFF16, 0);
    }
  }
}
