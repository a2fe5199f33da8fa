/**
 * Timer bring-up in stage 2 (stage2/time.c, time_init): the 8253/8254
 * PIT's channel 0 is set to a square wave with the full divisor of 65536
 * (18.2 Hz on IRQ 0), and the RTC is switched to a 1024 Hz periodic rate
 * with the periodic interrupt off and the alarm interrupt on. Before status
 * register A is written, the update-in-progress bit is polled a bounded
 * number of times.
 */
module Time {
  import opened Ports

  const PIT_DATA0: int := 0x40
  const PIT_CMD: int := 0x43
  const PITC_SEL0: bv8 := 0x00
  const PITC_LOHI: bv8 := 0x30
  const PITC_MODE3: bv8 := 0x06

  const RTC_A_UIP: bv8 := 0x80
  const RTC_A_RATE_MASK: bv8 := 0x7f
  const RTC_A_RATE_1024HZ: bv8 := 0x26
  const RTC_B_UPDE_ENA: bv8 := 0x10
  const RTC_B_ALRM_ENA: bv8 := 0x20
  const RTC_B_TICK_ENA: bv8 := 0x40
  const RTC_B_FREEZE: bv8 := 0x80

  /** The `retries` counter starts at 0xffff. */
  const RETRIES: nat := 0xffff

  /** The status-register indices time_init selects, each with CMOS_NMI_DIS. */
  const IDX_A: bv8 := 0x8a
  const IDX_B: bv8 := 0x8b
  const IDX_C: bv8 := 0x8c

  lemma IndexValues()
    ensures IDX_A == CMOS_RTC_STA_A | CMOS_NMI_DIS
    ensures IDX_B == CMOS_RTC_STA_B | CMOS_NMI_DIS
    ensures IDX_C == CMOS_RTC_STA_C | CMOS_NMI_DIS
  {
  }

  /** The PIT programming: command 0x36, then the divisor's two zero bytes. */
  function PitIo(): (io: seq<Access>)
  {
    OutW(PIT_CMD, PITC_SEL0 | PITC_LOHI | PITC_MODE3) + OutW(PIT_DATA0, 0x00) + OutW(PIT_DATA0, 0x00)
  }

  lemma PitIoBytes()
    ensures PitIo() == [Out(0x43, 0x36), Wait, Out(0x40, 0x00), Wait, Out(0x40, 0x00), Wait]
  {
  }

  /** Status register A as written back: the rate field replaced by 1024 Hz. */
  function StatusA(sta: bv8): (r: bv8)
    ensures r == (sta & RTC_A_UIP) | RTC_A_RATE_1024HZ
  {
    (sta & !RTC_A_RATE_MASK) | RTC_A_RATE_1024HZ
  }

  /**
   * Status register B as written back: freeze, update-ended and periodic
   * cleared, alarm set, the low four bits kept.
   */
  function StatusB(sta: bv8): (r: bv8)
    ensures r & RTC_B_FREEZE == 0 && r & RTC_B_TICK_ENA == 0 && r & RTC_B_UPDE_ENA == 0
    ensures r & RTC_B_ALRM_ENA != 0
    ensures r & 0x0f == sta & 0x0f
    ensures r == (sta & 0x0f) | 0x20
  {
    (sta & !(RTC_B_FREEZE | RTC_B_UPDE_ENA | RTC_B_TICK_ENA)) | RTC_B_ALRM_ENA
  }

  /** Status register A shows an update in progress. */
  predicate Busy(sta: bv8)
  {
    sta & RTC_A_UIP != 0
  }

  /**
   * How many times status register A is read, the first read being number
   * `start` of the bus, when `left` retries remain.
   */
  function UipReads(input: seq<bv8>, start: nat, left: nat): (n: nat)
    ensures 1 <= n <= left + 1
    decreases left
  {
    if !Busy(Answer(input, start)) || left == 0 then 1
    else 1 + UipReads(input, start + 1, left - 1)
  }

  /** Read number k of the bus shows an update in progress. */
  predicate UipSet(input: seq<bv8>, k: nat)
  {
    Busy(Answer(input, k))
  }

  /**
   * The poll stops at the first read showing the bit clear, or after its
   * last retry; every earlier read showed it set.
   */
  lemma {:induction false} UipReadsStop(input: seq<bv8>, start: nat, left: nat)
    ensures !UipSet(input, start + UipReads(input, start, left) - 1) || UipReads(input, start, left) == left + 1
    ensures forall k :: start <= k < start + UipReads(input, start, left) - 1 ==> UipSet(input, k)
    decreases left
  {
    if !Busy(Answer(input, start)) || left == 0 {
    } else {
      UipReadsStop(input, start + 1, left - 1);
    }
  }

  lemma UipReadsStep(input: seq<bv8>, start: nat, left: nat)
    requires UipSet(input, start) && left != 0
    ensures UipReads(input, start, left) == 1 + UipReads(input, start + 1, left - 1)
  {
  }

  /** The reads of status register A in the poll, read number r0 first. */
  function PollOps(input: seq<bv8>, r0: nat, n: nat): (ops: seq<CmosOp>)
    ensures |ops| == n
  {
    if n == 0 then [] else PollOps(input, r0, n - 1) + [CmosRd(IDX_A, Answer(input, r0 + n - 1))]
  }

  /** Read j of the poll is read number r0 + j of status register A. */
  lemma {:induction false} PollOpsAt(input: seq<bv8>, r0: nat, n: nat, j: nat)
    requires j < n
    ensures PollOps(input, r0, n)[j] == CmosRd(IDX_A, Answer(input, r0 + j))
    decreases n
  {
    if j < n - 1 {
      PollOpsAt(input, r0, n - 1, j);
    }
  }

  /** What follows the poll whose last read, number k, gave status A. */
  function RtcOps(input: seq<bv8>, k: nat): (ops: seq<CmosOp>)
  {
    [CmosWr(IDX_A, StatusA(Answer(input, k))), CmosRd(IDX_B, Answer(input, k + 1)), CmosWr(IDX_B, StatusB(Answer(input, k + 1))),
     CmosRd(IDX_C, Answer(input, k + 2)), CmosHome]
  }

  /** The CMOS helper calls of time_init when its first read is number r0. */
  function TimeInitOps(input: seq<bv8>, r0: nat): (ops: seq<CmosOp>)
  {
    var n := UipReads(input, r0, RETRIES);
    PollOps(input, r0, n) + RtcOps(input, r0 + n - 1)
  }

  /** The whole of time_init's port traffic. */
  function TimeInitIo(input: seq<bv8>, r0: nat): (io: seq<Access>)
  {
    PitIo() + OpsIo(TimeInitOps(input, r0))
  }

  /** time_init. */
  method TimeInit(bus: Bus)
    modifies bus
    ensures bus.trace == old(bus.trace) + TimeInitIo(bus.input, old(bus.served))
    ensures bus.served == old(bus.served) + UipReads(bus.input, old(bus.served), RETRIES) + 2
  {
    ghost var t0, r0, input := bus.trace, bus.served, bus.input;
    ProgramPit(bus);
    var sta := PollStatusA(bus);
    ProgramRtc(bus, sta);
    ghost var n := UipReads(input, r0, RETRIES);
    ghost var p, r := OpsIo(PollOps(input, r0, n)), OpsIo(RtcOps(input, r0 + n - 1));
    assert bus.trace == t0 + PitIo() + p + r;
    TimeInitIoSplit(input, r0);
    AppendAssoc(t0, PitIo(), p);
    AppendAssoc(t0, PitIo() + p, r);
  }

  lemma TimeInitIoSplit(input: seq<bv8>, r0: nat)
    ensures var n := UipReads(input, r0, RETRIES);
      TimeInitIo(input, r0) == PitIo() + OpsIo(PollOps(input, r0, n)) + OpsIo(RtcOps(input, r0 + n - 1))
  {
    var n := UipReads(input, r0, RETRIES);
    var p, r := PollOps(input, r0, n), RtcOps(input, r0 + n - 1);
    assert TimeInitIo(input, r0) == PitIo() + OpsIo(p + r);
    OpsIoAppend(p, r);
    AppendAssoc(PitIo(), OpsIo(p), OpsIo(r));
  }

  /** Channel 0, low byte then high byte, mode 3, binary; divisor 0 stands for 65536. */
  method ProgramPit(bus: Bus)
    modifies bus
    ensures bus.trace == old(bus.trace) + PitIo() && bus.served == old(bus.served)
  {
    bus.OutpW(PIT_CMD, PITC_SEL0 | PITC_LOHI | PITC_MODE3);
    bus.OutpW(PIT_DATA0, 0x00);
    bus.OutpW(PIT_DATA0, 0x00);
  }

  /** The do-while loop reading status register A. */
  method PollStatusA(bus: Bus) returns (sta: bv8)
    modifies bus
    ensures Polls(bus.input, old(bus.served), old(bus.trace), bus.served, bus.trace, sta)
  {
    ghost var t0, r0, input := bus.trace, bus.served, bus.input;
    var retries: nat := RETRIES;
    sta := bus.CmosRead(IDX_A);
    ghost var n: nat := 1;
    PollOpsStep(input, r0, 0);
    // The C loop's `retries-- != 0` decrements only while the bit is set;
    // the wrapped value left by the last test is never used.
    while Busy(sta) && retries != 0
      invariant 1 <= n && retries + n == RETRIES + 1
      invariant bus.served == r0 + n && sta == Answer(input, r0 + n - 1)
      invariant Polled(input, r0, t0, n, retries, bus.trace)
      decreases retries
    {
      ghost var t := bus.trace;
      sta := bus.CmosRead(IDX_A);
      PollStep(input, r0, t0, t, bus.trace, n, retries);
      retries := retries - 1;
      n := n + 1;
    }
    PollDone(input, r0, t0, n, retries, bus.trace, bus.served, sta);
  }

  /** The poll stops with the bit clear or no retry left: all of its reads are done. */
  lemma PollDone(input: seq<bv8>, r0: nat, t0: seq<Access>, n: nat, retries: nat, t: seq<Access>, served: nat, sta: bv8)
    requires 1 <= n && Polled(input, r0, t0, n, retries, t)
    requires served == r0 + n && sta == Answer(input, r0 + n - 1)
    requires !Busy(sta) || retries == 0
    ensures Polls(input, r0, t0, served, t, sta)
  {
  }

  /**
   * What the poll of status register A does, from read number r0 on: it
   * reads the register UipReads times, each read recorded in the trace,
   * and the value it returns is the last of them.
   */
  predicate Polls(input: seq<bv8>, r0: nat, t0: seq<Access>, served: nat, t: seq<Access>, sta: bv8)
  {
    served == r0 + UipReads(input, r0, RETRIES) &&
    sta == Answer(input, served - 1) &&
    t == t0 + OpsIo(PollOps(input, r0, UipReads(input, r0, RETRIES)))
  }

  /**
   * After n reads the trace holds those n reads, and the reads still to
   * come with `retries` left complete the count of the whole poll.
   */
  ghost predicate Polled(input: seq<bv8>, r0: nat, t0: seq<Access>, n: nat, retries: nat, t: seq<Access>)
    requires 1 <= n
  {
    t == t0 + OpsIo(PollOps(input, r0, n)) &&
    UipReads(input, r0, RETRIES) == n - 1 + UipReads(input, r0 + n - 1, retries)
  }

  /** One more read keeps the loop's bookkeeping. */
  lemma PollStep(input: seq<bv8>, r0: nat, t0: seq<Access>, t: seq<Access>, t': seq<Access>, n: nat, retries: nat)
    requires 1 <= n && UipSet(input, r0 + n - 1) && retries != 0
    requires Polled(input, r0, t0, n, retries, t)
    requires t' == t + CmosReadIo(IDX_A, Answer(input, r0 + n))
    ensures Polled(input, r0, t0, n + 1, retries - 1, t')
  {
    UipReadsStep(input, r0 + n - 1, retries);
    PollOpsStep(input, r0, n);
    AppendAssoc(t0, OpsIo(PollOps(input, r0, n)), CmosReadIo(IDX_A, Answer(input, r0 + n)));
  }

  lemma PollOpsStep(input: seq<bv8>, r0: nat, n: nat)
    ensures OpsIo(PollOps(input, r0, n + 1)) == OpsIo(PollOps(input, r0, n)) + CmosReadIo(IDX_A, Answer(input, r0 + n))
  {
    var op := CmosRd(IDX_A, Answer(input, r0 + n));
    OpsIoAppend(PollOps(input, r0, n), [op]);
    assert OpsIo([op]) == OpIo(op) + OpsIo([]);
  }

  /** Status A, then status B, then a read of status C, then cmos_home. */
  method ProgramRtc(bus: Bus, sta: bv8)
    requires bus.served >= 1 && sta == Answer(bus.input, bus.served - 1)
    modifies bus
    ensures bus.trace == old(bus.trace) + OpsIo(RtcOps(bus.input, old(bus.served) - 1))
    ensures bus.served == old(bus.served) + 2
  {
    ghost var k := bus.served - 1;
    ghost var t1 := bus.trace;
    bus.CmosWrite(IDX_A, StatusA(sta));
    var b := bus.CmosRead(IDX_B);
    assert b == Answer(bus.input, k + 1);
    bus.CmosWrite(IDX_B, StatusB(b));
    var c := bus.CmosRead(IDX_C);
    assert c == Answer(bus.input, k + 2);
    bus.CmosHome();
    RtcOpsIo(bus.input, k);
    Append5(t1, CmosWriteIo(IDX_A, StatusA(sta)), CmosReadIo(IDX_B, b), CmosWriteIo(IDX_B, StatusB(b)), CmosReadIo(IDX_C, c), CmosHomeIo());
  }

  lemma Append5(t: seq<Access>, a: seq<Access>, b: seq<Access>, c: seq<Access>, d: seq<Access>, e: seq<Access>)
    ensures t + a + b + c + d + e == t + (a + b + c + d + e)
  {
    AppendAssoc(t, a, b);
    AppendAssoc(t, a + b, c);
    AppendAssoc(t, a + b + c, d);
    AppendAssoc(t, a + b + c + d, e);
  }

  lemma RtcOpsIo(input: seq<bv8>, k: nat)
    ensures OpsIo(RtcOps(input, k)) == CmosWriteIo(IDX_A, StatusA(Answer(input, k))) + CmosReadIo(IDX_B, Answer(input, k + 1)) +
      CmosWriteIo(IDX_B, StatusB(Answer(input, k + 1))) + CmosReadIo(IDX_C, Answer(input, k + 2)) + CmosHomeIo()
  {
    var ops := RtcOps(input, k);
    assert OpsIo(ops[4..]) == CmosHomeIo() by { assert ops[4..][1..] == []; }
    assert OpsIo(ops[3..]) == OpIo(ops[3]) + OpsIo(ops[4..]) by { assert ops[3..][1..] == ops[4..]; }
    assert OpsIo(ops[2..]) == OpIo(ops[2]) + OpsIo(ops[3..]) by { assert ops[2..][1..] == ops[3..]; }
    assert OpsIo(ops[1..]) == OpIo(ops[1]) + OpsIo(ops[2..]) by { assert ops[1..][1..] == ops[2..]; }
  }

  /**
   * The traffic opens with the PIT programming, and status register A is
   * read between once and 0x10000 times.
   */
  lemma TimeInitShape(input: seq<bv8>, r0: nat)
    ensures TimeInitIo(input, r0)[..6] == [Out(0x43, 0x36), Wait, Out(0x40, 0x00), Wait, Out(0x40, 0x00), Wait]
    ensures 1 <= UipReads(input, r0, RETRIES) <= 0x10000
  {
    PitIoBytes();
  }

  /**
   * Every CMOS index selected before the final cmos_home has the NMI-disable
   * bit set, and the last one selected is status register D with NMIs on.
   */
  lemma TimeInitIndices(input: seq<bv8>, r0: nat)
    ensures |CmosIndices(TimeInitIo(input, r0))| >= 1
    ensures Last(CmosIndices(TimeInitIo(input, r0))) == CMOS_RTC_STA_D && CMOS_RTC_STA_D & CMOS_NMI_DIS == 0
    ensures AllNmiDisabled(AllButLast(CmosIndices(TimeInitIo(input, r0))))
  {
    TimeInitOpsNmi(input, r0);
    PitThenOpsIndices(TimeInitOps(input, r0));
  }

  /** The helper calls: NMIs stay disabled until the closing cmos_home. */
  lemma TimeInitOpsNmi(input: seq<bv8>, r0: nat)
    ensures |TimeInitOps(input, r0)| >= 1 && Last'(TimeInitOps(input, r0)) == CmosHome
    ensures forall i :: 0 <= i < |TimeInitOps(input, r0)| - 1 ==> OpIndex(TimeInitOps(input, r0)[i]) & CMOS_NMI_DIS != 0
  {
    var n := UipReads(input, r0, RETRIES);
    var p, r := PollOps(input, r0, n), RtcOps(input, r0 + n - 1);
    var ops := p + r;
    assert ops == TimeInitOps(input, r0);
    assert ops[|ops| - 1] == r[4];
    forall i | 0 <= i < |ops| - 1
      ensures OpIndex(ops[i]) & CMOS_NMI_DIS != 0
    {
      if i < n {
        PollOpsAt(input, r0, n, i);
        assert ops[i] == p[i];
      } else {
        assert ops[i] == r[i - n];
        RtcIndex(input, r0 + n - 1, i - n);
      }
    }
  }

  /** The selections of the PIT programming followed by helper calls are those of the calls. */
  lemma PitThenOpsIndices(ops: seq<CmosOp>)
    requires |ops| >= 1 && Last'(ops) == CmosHome
    requires forall i :: 0 <= i < |ops| - 1 ==> OpIndex(ops[i]) & CMOS_NMI_DIS != 0
    ensures |CmosIndices(PitIo() + OpsIo(ops))| >= 1
    ensures Last(CmosIndices(PitIo() + OpsIo(ops))) == CMOS_RTC_STA_D
    ensures AllNmiDisabled(AllButLast(CmosIndices(PitIo() + OpsIo(ops))))
  {
    PitIndices();
    CmosIndicesAppend(PitIo(), OpsIo(ops));
    OpsIndices(ops);
    var ix := CmosIndices(PitIo() + OpsIo(ops));
    assert ix == CmosIndices(OpsIo(ops));
    forall i | 0 <= i < |ix| - 1
      ensures AllButLast(ix)[i] & CMOS_NMI_DIS != 0
    {
      assert AllButLast(ix)[i] == OpIndex(ops[i]);
    }
  }

  /** The PIT programming selects no CMOS register. */
  lemma PitIndices()
    ensures CmosIndices(PitIo()) == []
  {
    PitIoBytes();
    assert PitIo()[1..][1..][1..][1..][1..][1..] == [];
  }

  function Last'(ops: seq<CmosOp>): CmosOp
    requires |ops| >= 1
  {
    ops[|ops| - 1]
  }

  /** The four status-register selections after the poll all disable NMI. */
  lemma RtcIndex(input: seq<bv8>, k: nat, j: nat)
    requires j < 4
    ensures OpIndex(RtcOps(input, k)[j]) & CMOS_NMI_DIS != 0
  {
  }

  function Last(ix: seq<bv8>): bv8
    requires |ix| >= 1
  {
    ix[|ix| - 1]
  }

  function AllButLast(ix: seq<bv8>): seq<bv8>
    requires |ix| >= 1
  {
    ix[..|ix| - 1]
  }
}
