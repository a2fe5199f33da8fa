/**
 * Stage 2's byte-wide I/O ports (stage2/stage2.h): `outp_w` and `inp_w`
 * follow every access with a write to the dummy port 0x80 as a short
 * delay, and the CMOS helpers select a register at port 0x70 before
 * touching its data at port 0x71.
 *
 * The ports are a bus object holding the ordered trace of accesses; what
 * the hardware returns to the n-th read is `Answer(input, n)`.
 */
module Ports {
  const PORT_CMOS_IDX: int := 0x70
  const PORT_CMOS_DATA: int := 0x71
  const PORT_DUMMY: int := 0x80

  const CMOS_RTC_STA_A: bv8 := 0x0a
  const CMOS_RTC_STA_B: bv8 := 0x0b
  const CMOS_RTC_STA_C: bv8 := 0x0c
  const CMOS_RTC_STA_D: bv8 := 0x0d
  const CMOS_NMI_DIS: bv8 := 0x80

  /**
   * One access: a byte written to or read from a port, or the delay write
   * to the dummy port, whose value is whatever the accumulator holds.
   */
  datatype Access = Out(port: int, value: bv8) | In(port: int, value: bv8) | Wait

  /** outp_w: the write, then the delay. */
  function OutW(p: int, v: bv8): (io: seq<Access>)
  {
    [Out(p, v), Wait]
  }

  /** cmos_read: select the register, then read its value. */
  function CmosReadIo(idx: bv8, v: bv8): (io: seq<Access>)
  {
    [Out(PORT_CMOS_IDX, idx), Wait, In(PORT_CMOS_DATA, v), Wait]
  }

  /** cmos_write: select the register, then write the value. */
  function CmosWriteIo(idx: bv8, v: bv8): (io: seq<Access>)
  {
    [Out(PORT_CMOS_IDX, idx), Wait, Out(PORT_CMOS_DATA, v), Wait]
  }

  /** cmos_home: point the index at status register D, which also re-enables NMI. */
  function CmosHomeIo(): (io: seq<Access>)
  {
    [Out(PORT_CMOS_IDX, CMOS_RTC_STA_D), Wait]
  }

  /** The CMOS indices a trace selects at port 0x70, in order. */
  function CmosIndices(io: seq<Access>): (ix: seq<bv8>)
    ensures |ix| <= |io|
  {
    if |io| == 0 then [] else IndexOf(io[0]) + CmosIndices(io[1..])
  }

  function IndexOf(a: Access): seq<bv8>
  {
    if a.Out? && a.port == PORT_CMOS_IDX then [a.value] else []
  }

  lemma {:induction false} CmosIndicesAppend(a: seq<Access>, b: seq<Access>)
    ensures CmosIndices(a + b) == CmosIndices(a) + CmosIndices(b)
    decreases |a|
  {
    if |a| == 0 {
      assert a + b == b;
    } else {
      assert (a + b)[1..] == a[1..] + b;
      CmosIndicesAppend(a[1..], b);
    }
  }

  /** Every CMOS index in the list asks for NMIs to stay disabled. */
  predicate AllNmiDisabled(ix: seq<bv8>)
  {
    forall i :: 0 <= i < |ix| ==> ix[i] & CMOS_NMI_DIS != 0
  }

  /** The two CMOS helpers select exactly the index they are given. */
  lemma CmosHelperIndices(idx: bv8, v: bv8)
    ensures CmosIndices(CmosReadIo(idx, v)) == [idx]
    ensures CmosIndices(CmosWriteIo(idx, v)) == [idx]
    ensures CmosIndices(CmosHomeIo()) == [CMOS_RTC_STA_D]
  {
    var r := CmosReadIo(idx, v);
    assert CmosIndices(r[3..]) == [];
    assert CmosIndices(r[2..]) == [] by { assert r[2..][1..] == r[3..]; }
    assert CmosIndices(r[1..]) == [] by { assert r[1..][1..] == r[2..]; }
    var w := CmosWriteIo(idx, v);
    assert CmosIndices(w[3..]) == [];
    assert CmosIndices(w[2..]) == [] by { assert w[2..][1..] == w[3..]; }
    assert CmosIndices(w[1..]) == [] by { assert w[1..][1..] == w[2..]; }
    assert CmosIndices(CmosHomeIo()[1..]) == [];
  }

  /** One use of a CMOS helper, with the value read or written. */
  datatype CmosOp = CmosRd(idx: bv8, v: bv8) | CmosWr(idx: bv8, v: bv8) | CmosHome

  /** The index register value a helper selects. */
  function OpIndex(op: CmosOp): bv8
  {
    if op.CmosHome? then CMOS_RTC_STA_D else op.idx
  }

  function OpIo(op: CmosOp): seq<Access>
  {
    match op
    case CmosRd(i, v) => CmosReadIo(i, v)
    case CmosWr(i, v) => CmosWriteIo(i, v)
    case CmosHome => CmosHomeIo()
  }

  /** The port accesses of a series of CMOS helper calls. */
  function OpsIo(ops: seq<CmosOp>): (io: seq<Access>)
  {
    if |ops| == 0 then [] else OpIo(ops[0]) + OpsIo(ops[1..])
  }

  lemma {:induction false} OpsIoAppend(a: seq<CmosOp>, b: seq<CmosOp>)
    ensures OpsIo(a + b) == OpsIo(a) + OpsIo(b)
    decreases |a|
  {
    if |a| == 0 {
      assert a + b == b;
    } else {
      assert (a + b)[1..] == a[1..] + b;
      OpsIoAppend(a[1..], b);
    }
  }

  /** The indices selected at port 0x70 are those of the helper calls, in order. */
  lemma {:induction false} OpsIndices(ops: seq<CmosOp>)
    ensures |CmosIndices(OpsIo(ops))| == |ops|
    ensures forall i :: 0 <= i < |ops| ==> CmosIndices(OpsIo(ops))[i] == OpIndex(ops[i])
    decreases |ops|
  {
    if |ops| > 0 {
      OpsIndices(ops[1..]);
      CmosIndicesAppend(OpIo(ops[0]), OpsIo(ops[1..]));
      match ops[0]
      case CmosRd(i, v) => CmosHelperIndices(i, v);
      case CmosWr(i, v) => CmosHelperIndices(i, v);
      case CmosHome => CmosHelperIndices(0, 0);
    }
  }

  /** How many of the helper calls read a value back. */
  function Reads(ops: seq<CmosOp>): (n: nat)
    ensures n <= |ops|
  {
    if |ops| == 0 then 0 else (if ops[0].CmosRd? then 1 else 0) + Reads(ops[1..])
  }

  lemma AppendAssoc(a: seq<Access>, b: seq<Access>, c: seq<Access>)
    ensures a + b + c == a + (b + c)
  {
  }

  /**
   * The answer to read number k: the k-th recorded value, and past the end
   * of the recording the all-ones byte of an undriven bus.
   */
  function Answer(input: seq<bv8>, k: nat): (v: bv8)
    ensures k < |input| ==> v == input[k]
    ensures k >= |input| ==> v == 0xff
  {
    if k < |input| then input[k] else 0xff
  }

  /** The port bus: the accesses so far, and how many reads were answered. */
  class Bus {
    const input: seq<bv8>
    var served: nat
    var trace: seq<Access>

    constructor(input: seq<bv8>)
      ensures this.input == input && served == 0 && trace == []
    {
      this.input := input;
      served := 0;
      trace := [];
    }

    method OutpW(p: int, v: bv8)
      modifies this
      ensures trace == old(trace) + OutW(p, v) && served == old(served)
    {
      trace := trace + [Out(p, v), Wait];
    }

    method InpW(p: int) returns (v: bv8)
      modifies this
      ensures v == Answer(input, old(served)) && served == old(served) + 1
      ensures trace == old(trace) + [In(p, v), Wait]
    {
      v := Answer(input, served);
      served := served + 1;
      trace := trace + [In(p, v), Wait];
    }

    method CmosRead(idx: bv8) returns (v: bv8)
      modifies this
      ensures v == Answer(input, old(served)) && served == old(served) + 1
      ensures trace == old(trace) + CmosReadIo(idx, v)
    {
      OutpW(PORT_CMOS_IDX, idx);
      v := InpW(PORT_CMOS_DATA);
    }

    method CmosWrite(idx: bv8, v: bv8)
      modifies this
      ensures trace == old(trace) + CmosWriteIo(idx, v) && served == old(served)
    {
      OutpW(PORT_CMOS_IDX, idx);
      OutpW(PORT_CMOS_DATA, v);
    }

    method CmosHome()
      modifies this
      ensures trace == old(trace) + CmosHomeIo() && served == old(served)
    {
      OutpW(PORT_CMOS_IDX, CMOS_RTC_STA_D);
    }
  }
}
