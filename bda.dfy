/**
 * Stage 2's real-mode data (stage2/stage2.h): 16-bit far pointers, the
 * packed layout of the BIOS data area (BDA) at 0x40:0, and the packed
 * register block that the 16-bit interrupt service routines hand to their
 * C implementations.
 *
 * Real-mode memory is a sequence of bytes indexed by linear address; a
 * segment:offset pair names linear address segment * 16 + offset.
 */
module Bda {
  /** farptr16_t: a 32-bit word holding a segment in bits 31:16 and an offset in bits 15:0. */
  function MkFp16(seg: bv16, off: bv16): (p: bv32)
    ensures FpSeg(p) == seg && FpOff(p) == off
  {
    ((seg as bv32) << 16) | (off as bv32)
  }

  function FpSeg(p: bv32): bv16
  {
    (p >> 16) as bv16
  }

  function FpOff(p: bv32): bv16
  {
    (p & 0xffff) as bv16
  }

  /** Every far pointer is the packing of its own two halves. */
  lemma FpUnpackPack(p: bv32)
    ensures MkFp16(FpSeg(p), FpOff(p)) == p
  {
  }

  /**
   * rm16_cs_call: the far pointer it calls through names stage 2's 16-bit
   * code segment and the low 16 bits of the callee's address.
   */
  function CsCallTarget(rm16Cs: bv16, callee: bv32): (p: bv32)
    ensures FpSeg(p) == rm16Cs && FpOff(p) as bv32 == callee & 0xffff
  {
    MkFp16(rm16Cs, (callee & 0xffff) as bv16)
  }

  /** One byte beyond the highest address a segment:offset pair can name. */
  const REAL_MEM_SIZE: int := 0x10_fff0

  function Linear(seg: bv16, off: bv16): (a: int)
    ensures 0 <= a < REAL_MEM_SIZE
  {
    (seg as int) * 16 + (off as int)
  }

  const BDA_SEG: bv16 := 0x40
  const BDA_BASE: int := 0x400

  /** BDA_SEG:0 and the `bda' structure are the same address. */
  lemma BdaBase()
    ensures Linear(BDA_SEG, 0) == BDA_BASE
  {
  }

  /** One member of a packed structure: its name (empty for padding) and its size in bytes. */
  datatype Field = Field(name: string, size: nat)

  /** The offset of member i of a packed structure: the sizes of the members before it. */
  function Offset(fields: seq<Field>, i: nat): (off: nat)
    requires i <= |fields|
  {
    if i == 0 then 0 else Offset(fields, i - 1) + fields[i - 1].size
  }

  /**
   * bda_t, member by member (stage2/stage2.h), in runs of related members;
   * arrays and bit-field runs are one member each.
   */
  const BDA_PORTS: seq<Field> := [
    Field("com1", 2), Field("com2", 2), Field("com3", 2), Field("com4", 2),
    Field("lpt1", 2), Field("lpt2", 2), Field("lpt3", 2), Field("ebda", 2),
    Field("eqpt", 2), Field("wait_cntdn_low", 1), Field("base_kib", 2), Field("", 2)]
  const BDA_KB_FD: seq<Field> := [
    Field("kb_stat0", 1), Field("kb_stat1", 1), Field("kb_keypad", 1),
    Field("kb_buf_head", 2), Field("kb_buf_tail", 2), Field("kb_buf", 32),
    Field("fd_recalib", 1), Field("fd_motor", 1), Field("fd_cntdn", 1), Field("fd_error", 1),
    Field("dsk_status", 7)]
  const BDA_VIDEO: seq<Field> := [
    Field("vid_mode", 1), Field("vid_cols", 2), Field("vid_page_sz", 2), Field("vid_page_start", 2),
    Field("vid_xy", 16), Field("vid_curs_shape", 2), Field("vid_pg", 1), Field("crtc", 2),
    Field("vid_msr", 1), Field("vid_pal", 1)]
  const BDA_TIMER_HD: seq<Field> := [
    Field("restart", 4), Field("stray_irq", 1), Field("timer", 4), Field("timer_ovf", 1),
    Field("ctrlc", 1), Field("reset_flag", 2), Field("hd_error", 1), Field("hd_cnt", 1),
    Field("hd_ctl", 1), Field("hd_port_off", 1)]
  const BDA_CNTDN: seq<Field> := [
    Field("lpt1_cntdn", 1), Field("lpt2_cntdn", 1), Field("lpt3_cntdn", 1), Field("flags_0x4b", 1),
    Field("com1_cntdn", 1), Field("com2_cntdn", 1), Field("com3_cntdn", 1), Field("com4_cntdn", 1)]
  const BDA_KB_VIDEO: seq<Field> := [
    Field("kb_buf_start", 2), Field("kb_buf_end", 2), Field("vid_rows_m1", 1),
    Field("vid_chr_ht", 2), Field("vid_ctl", 1), Field("vid_sw", 1), Field("", 2)]
  const BDA_DISK: seq<Field> := [
    Field("fd_ctl", 1), Field("hd_ctlr_sta", 1), Field("hd_ctlr_err", 1), Field("hd_intr", 1),
    Field("fd_ctl_info", 1), Field("fd0_media", 1), Field("fd1_media", 1),
    Field("fd0_media_op", 1), Field("fd1_media_op", 1), Field("fd0_cyl", 1), Field("fd1_cyl", 1),
    Field("kb_stat3", 1), Field("kb_stat2", 1)]
  const BDA_WAIT: seq<Field> := [
    Field("p_wait_flag", 4), Field("wait_cntdn", 4), Field("wait_active", 1), Field("", 7),
    Field("p_vid_save", 4)]

  const BDA_FIELDS: seq<Field> :=
    BDA_PORTS + BDA_KB_FD + BDA_VIDEO + BDA_TIMER_HD + BDA_CNTDN + BDA_KB_VIDEO + BDA_DISK + BDA_WAIT

  /** The size of a packed structure: the offset just past its last member. */
  function Size(fields: seq<Field>): nat
  {
    Offset(fields, |fields|)
  }

  /** Members before the end of a prefix lie where they lie in the prefix alone ... */
  lemma {:induction false} OffsetPrefix(a: seq<Field>, b: seq<Field>, i: nat)
    requires i <= |a|
    ensures Offset(a + b, i) == Offset(a, i)
  {
    if i > 0 {
      OffsetPrefix(a, b, i - 1);
      assert (a + b)[i - 1] == a[i - 1];
    }
  }

  /** ... and members after it lie the prefix's size further on. */
  lemma {:induction false} OffsetAppend(a: seq<Field>, b: seq<Field>, i: nat)
    requires i <= |b|
    ensures Offset(a + b, |a| + i) == Size(a) + Offset(b, i)
  {
    if i == 0 {
      OffsetPrefix(a, b, |a|);
    } else {
      OffsetAppend(a, b, i - 1);
      assert (a + b)[|a| + i - 1] == b[i - 1];
    }
  }

  /** The offsets stage 2 uses, as constants. */
  const WAIT_CNTDN_LOW_OFF: int := 0x12
  const BASE_KIB_OFF: int := 0x13
  const TIMER_OFF: int := 0x6c
  const P_WAIT_FLAG_OFF: int := 0x98
  const WAIT_CNTDN_OFF: int := 0x9c
  const WAIT_ACTIVE_OFF: int := 0xa0
  const BDA_SIZE: int := 0xac

  /** The runs of members, each on its own. */
  lemma PortsLayout()
    ensures Size(BDA_PORTS) == 0x17 && Offset(BDA_PORTS, 9) == 0x12 && Offset(BDA_PORTS, 10) == 0x13
  {
    assert Offset(BDA_PORTS, 6) == 12;
    assert Offset(BDA_PORTS, 12) == 0x17;
  }

  lemma KbFdLayout()
    ensures Size(BDA_KB_FD) == 0x32
  {
    assert Offset(BDA_KB_FD, 6) == 0x27;
    assert Offset(BDA_KB_FD, 11) == 0x32;
  }

  lemma VideoLayout()
    ensures Size(BDA_VIDEO) == 0x1e
  {
    assert Offset(BDA_VIDEO, 5) == 0x17;
    assert Offset(BDA_VIDEO, 10) == 0x1e;
  }

  lemma TimerHdLayout()
    ensures Size(BDA_TIMER_HD) == 0x11 && Offset(BDA_TIMER_HD, 2) == 5
  {
    assert Offset(BDA_TIMER_HD, 5) == 0x0b;
    assert Offset(BDA_TIMER_HD, 10) == 0x11;
  }

  lemma CntdnLayout()
    ensures Size(BDA_CNTDN) == 8
  {
    assert Offset(BDA_CNTDN, 8) == 8;
  }

  lemma KbVideoLayout()
    ensures Size(BDA_KB_VIDEO) == 0x0b
  {
    assert Offset(BDA_KB_VIDEO, 7) == 0x0b;
  }

  lemma DiskLayout()
    ensures Size(BDA_DISK) == 0x0d
  {
    assert Offset(BDA_DISK, 6) == 6;
    assert Offset(BDA_DISK, 13) == 0x0d;
  }

  lemma WaitLayout()
    ensures Size(BDA_WAIT) == 0x14 && Offset(BDA_WAIT, 1) == 4 && Offset(BDA_WAIT, 2) == 8
  {
    assert Offset(BDA_WAIT, 5) == 0x14;
  }

  /** Appending a run to a prefix adds the run's size. */
  lemma SizeAppend(a: seq<Field>, b: seq<Field>)
    ensures Size(a + b) == Size(a) + Size(b)
  {
    OffsetAppend(a, b, |b|);
  }

  /** The BDA up to the timer-and-disk run, and up to the wait fields. */
  const BDA_HEAD: seq<Field> := BDA_PORTS + BDA_KB_FD + BDA_VIDEO + BDA_TIMER_HD
  const BDA_BODY: seq<Field> := BDA_HEAD + BDA_CNTDN + BDA_KB_VIDEO + BDA_DISK

  lemma HeadBodySizes()
    ensures BDA_FIELDS == BDA_BODY + BDA_WAIT
    ensures |BDA_HEAD| == 43 && Size(BDA_HEAD) == 0x78 && Offset(BDA_HEAD, 35) == TIMER_OFF
    ensures |BDA_BODY| == 71 && Size(BDA_BODY) == P_WAIT_FLAG_OFF
  {
    PortsLayout();
    KbFdLayout();
    VideoLayout();
    TimerHdLayout();
    CntdnLayout();
    KbVideoLayout();
    DiskLayout();
    var p2 := BDA_PORTS + BDA_KB_FD;
    var p3 := p2 + BDA_VIDEO;
    SizeAppend(BDA_PORTS, BDA_KB_FD);
    SizeAppend(p2, BDA_VIDEO);
    SizeAppend(p3, BDA_TIMER_HD);
    OffsetAppend(p3, BDA_TIMER_HD, 2);
    var p5 := BDA_HEAD + BDA_CNTDN;
    var p6 := p5 + BDA_KB_VIDEO;
    SizeAppend(BDA_HEAD, BDA_CNTDN);
    SizeAppend(p5, BDA_KB_VIDEO);
    SizeAppend(p6, BDA_DISK);
  }

  /** The members stage 2 uses, by position. */
  lemma BdaNames()
    ensures |BDA_FIELDS| == 76
    ensures BDA_FIELDS[9] == Field("wait_cntdn_low", 1) && BDA_FIELDS[10] == Field("base_kib", 2)
    ensures BDA_FIELDS[35] == Field("timer", 4) && BDA_FIELDS[71] == Field("p_wait_flag", 4)
    ensures BDA_FIELDS[72] == Field("wait_cntdn", 4) && BDA_FIELDS[73] == Field("wait_active", 1)
  {
    HeadBodySizes();
    assert BDA_FIELDS[9] == BDA_PORTS[9] && BDA_FIELDS[10] == BDA_PORTS[10];
    assert BDA_FIELDS[35] == BDA_TIMER_HD[2];
  }

  /**
   * The packed layout puts each member the BDA's users rely on at its
   * standard offset, wait_active at 0x40:0xa0 in particular, and the whole
   * structure ends at 0xac.
   */
  lemma BdaLayout()
    ensures Size(BDA_FIELDS) == BDA_SIZE
    ensures Offset(BDA_FIELDS, 9) == WAIT_CNTDN_LOW_OFF && Offset(BDA_FIELDS, 10) == BASE_KIB_OFF
    ensures Offset(BDA_FIELDS, 35) == TIMER_OFF && Offset(BDA_FIELDS, 71) == P_WAIT_FLAG_OFF
    ensures Offset(BDA_FIELDS, 72) == WAIT_CNTDN_OFF && Offset(BDA_FIELDS, 73) == WAIT_ACTIVE_OFF
  {
    HeadBodySizes();
    WaitLayout();
    PortsLayout();
    SizeAppend(BDA_BODY, BDA_WAIT);
    OffsetAppend(BDA_BODY, BDA_WAIT, 0);
    OffsetAppend(BDA_BODY, BDA_WAIT, 1);
    OffsetAppend(BDA_BODY, BDA_WAIT, 2);
    OffsetPrefix(BDA_BODY, BDA_WAIT, 35);
    OffsetPrefix(BDA_HEAD + BDA_CNTDN + BDA_KB_VIDEO, BDA_DISK, 35);
    OffsetPrefix(BDA_HEAD + BDA_CNTDN, BDA_KB_VIDEO, 35);
    OffsetPrefix(BDA_HEAD, BDA_CNTDN, 35);
    PortsOffsets(BDA_BODY + BDA_WAIT);
  }

  /** The offsets inside the first run hold in every structure that starts with it. */
  lemma PortsOffsets(fields: seq<Field>)
    requires fields == BDA_FIELDS
    ensures Offset(fields, 9) == WAIT_CNTDN_LOW_OFF && Offset(fields, 10) == BASE_KIB_OFF
  {
    PortsLayout();
    var rest := fields[12..];
    assert fields == BDA_PORTS + rest;
    OffsetPrefix(BDA_PORTS, rest, 9);
    OffsetPrefix(BDA_PORTS, rest, 10);
  }

  /** Values of wait_active, [0x40:0xa0]. */
  const BDA_WAIT_NONE: bv8 := 0x00
  const BDA_WAIT_ACTIVE: bv8 := 0x01
  const BDA_WAIT_FIN: bv8 := 0x80

  /** A 32-bit value as it is stored, low byte first. */
  function Le32Bv(v: bv32): (b: seq<bv8>)
    ensures |b| == 4
  {
    [(v & 0xff) as bv8, ((v >> 8) & 0xff) as bv8, ((v >> 16) & 0xff) as bv8, (v >> 24) as bv8]
  }

  function Le16Bv(v: bv16): (b: seq<bv8>)
    ensures |b| == 2
  {
    [(v & 0xff) as bv8, (v >> 8) as bv8]
  }

  /** The little-endian 32-bit word at linear address a. */
  function Load32(m: seq<bv8>, a: int): bv32
    requires 0 <= a && a + 4 <= |m|
  {
    (m[a] as bv32) | ((m[a + 1] as bv32) << 8) | ((m[a + 2] as bv32) << 16) | ((m[a + 3] as bv32) << 24)
  }

  function Load16(m: seq<bv8>, a: int): bv16
    requires 0 <= a && a + 2 <= |m|
  {
    (m[a] as bv16) | ((m[a + 1] as bv16) << 8)
  }

  /** A 32-bit store at linear address a. */
  function Store32(m: seq<bv8>, a: int, v: bv32): (m': seq<bv8>)
    requires 0 <= a && a + 4 <= |m|
    ensures |m'| == |m|
    ensures forall j :: 0 <= j < |m| && !(a <= j < a + 4) ==> m'[j] == m[j]
  {
    var b := Le32Bv(v);
    m[a := b[0]][a + 1 := b[1]][a + 2 := b[2]][a + 3 := b[3]]
  }

  /** A stored word reads back as itself. */
  lemma LoadStore32(m: seq<bv8>, a: int, v: bv32)
    requires 0 <= a && a + 4 <= |m|
    ensures Load32(Store32(m, a, v), a) == v
  {
  }

  /** A word reads the same from two memories that agree on its four bytes. */
  lemma Load32Same(m: seq<bv8>, m': seq<bv8>, a: int)
    requires 0 <= a && a + 4 <= |m| && |m'| == |m|
    requires m'[a] == m[a] && m'[a + 1] == m[a + 1] && m'[a + 2] == m[a + 2] && m'[a + 3] == m[a + 3]
    ensures Load32(m', a) == Load32(m, a)
  {
  }

  /**
   * isr16_regs_t. The unions make ax, al and ah (and their kin) views of the
   * low bytes of the 32-bit registers.
   */
  datatype Regs = Regs(eax: bv32, ecx: bv32, edx: bv32, ebx: bv32, ebp: bv32, esi: bv32, edi: bv32,
                       ds: bv16, es: bv16, fs: bv16, gs: bv16, ip: bv16, cs: bv16, flags: bv16)

  function Lo8(x: bv32): bv8
  {
    (x & 0xff) as bv8
  }

  function Hi8(x: bv32): bv8
  {
    ((x >> 8) & 0xff) as bv8
  }

  function Lo16(x: bv32): bv16
  {
    (x & 0xffff) as bv16
  }

  function Al(r: Regs): bv8 { Lo8(r.eax) }
  function Ah(r: Regs): bv8 { Hi8(r.eax) }
  function Cx(r: Regs): bv16 { Lo16(r.ecx) }
  function Dx(r: Regs): bv16 { Lo16(r.edx) }
  function Bx(r: Regs): bv16 { Lo16(r.ebx) }

  /** `regs->ah = v`: byte 1 of eax changes and nothing else. */
  function WithAh(r: Regs, v: bv8): (r': Regs)
    ensures Ah(r') == v && Al(r') == Al(r) && r'.eax >> 16 == r.eax >> 16
    ensures r' == r.(eax := r'.eax)
  {
    r.(eax := (r.eax & 0xffff_00ff) | ((v as bv32) << 8))
  }

  /** The packed register block as it lies in memory. */
  function RegsImage(r: Regs): (b: seq<bv8>)
    ensures |b| == 42
  {
    Le32Bv(r.eax) + Le32Bv(r.ecx) + Le32Bv(r.edx) + Le32Bv(r.ebx) + Le32Bv(r.ebp) + Le32Bv(r.esi) +
    Le32Bv(r.edi) + Le16Bv(r.ds) + Le16Bv(r.es) + Le16Bv(r.fs) + Le16Bv(r.gs) + Le16Bv(r.ip) +
    Le16Bv(r.cs) + Le16Bv(r.flags)
  }

  /**
   * In a register stored little-endian, the low byte view (al) is byte 0, the
   * high byte view (ah) is byte 1, and the word view (ax) is the first two
   * bytes.
   */
  lemma WordViews(x: bv32)
    ensures Le32Bv(x)[0] == Lo8(x) && Le32Bv(x)[1] == Hi8(x)
    ensures Load16(Le32Bv(x), 0) == Lo16(x) && Load32(Le32Bv(x), 0) == x
  {
    WordBytes(x);
    WordLoad16(x);
    WordLoad32(x);
  }

  lemma WordBytes(x: bv32)
    ensures Le32Bv(x)[0] == Lo8(x) && Le32Bv(x)[1] == Hi8(x)
  {
  }

  lemma WordLoad16(x: bv32)
    ensures Load16(Le32Bv(x), 0) == Lo16(x)
  {
  }

  lemma WordLoad32(x: bv32)
    ensures Load32(Le32Bv(x), 0) == x
  {
  }

  /**
   * The block holds eax, ecx, edx and ebx at offsets 0, 4, 8 and 12, so the
   * byte and word views of each are bytes of the block, and the flags word
   * is the last one, at offset 40.
   */
  lemma RegsImageLayout(r: Regs)
    ensures RegsImage(r)[0..4] == Le32Bv(r.eax) && RegsImage(r)[4..8] == Le32Bv(r.ecx)
    ensures RegsImage(r)[8..12] == Le32Bv(r.edx) && RegsImage(r)[12..16] == Le32Bv(r.ebx)
    ensures RegsImage(r)[40..42] == Le16Bv(r.flags)
  {
    var b := RegsImage(r);
    var p4 := Le32Bv(r.eax) + Le32Bv(r.ecx) + Le32Bv(r.edx) + Le32Bv(r.ebx);
    assert b[..16] == p4;
    assert p4[0..4] == Le32Bv(r.eax) && p4[4..8] == Le32Bv(r.ecx);
    assert p4[8..12] == Le32Bv(r.edx) && p4[12..16] == Le32Bv(r.ebx);
  }

  /** The carry flag, bit 0 of the flags word. */
  const EFL_C: bv16 := 1

  function Carry(r: Regs): bool
  {
    r.flags & EFL_C != 0
  }

  /** `regs->flags |= EFL_C`. */
  function SetCarry(r: Regs): (r': Regs)
    ensures Carry(r') && r' == r.(flags := r'.flags) && r'.flags | EFL_C == r.flags | EFL_C
  {
    r.(flags := r.flags | EFL_C)
  }

  /** `regs->flags &= ~EFL_C`. */
  function ClearCarry(r: Regs): (r': Regs)
    ensures !Carry(r') && r' == r.(flags := r'.flags) && r'.flags | EFL_C == r.flags | EFL_C
  {
    r.(flags := r.flags & !EFL_C)
  }
}
