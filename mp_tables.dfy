/**
 * The minimal Intel MultiProcessor configuration the legacy stage 1 loader
 * fashions in the last KiB of base memory (s1-main.c, fake_mp_table and
 * update_cksum), laid out as in the MultiProcessor Specification 1.4,
 * chapter 4: a 16-byte floating pointer structure, then a 44-byte
 * configuration table header followed by one processor entry and one
 * I/O APIC entry. Both structures carry a checksum byte that makes their
 * byte sum 0 modulo 256.
 *
 * Physical memory is an array of bytes; what the loader reads from the
 * hardware (the APIC base MSR, the local APIC and I/O APIC registers,
 * CPUID leaf 1) is a parameter.
 */
module MpTables {
  import opened Common
  import opened Bytes

  const FLT_SIZE: int := 16
  const CONF_SIZE: int := 44
  const CPU_SIZE: int := 20
  const IOAPIC_SIZE: int := 8
  /** Offsets of the four parts inside the bundle. */
  const CONF_OFF: int := FLT_SIZE
  const CPU_OFF: int := CONF_OFF + CONF_SIZE
  const IOAPIC_OFF: int := CPU_OFF + CPU_SIZE
  const BUNDLE_SIZE: int := IOAPIC_OFF + IOAPIC_SIZE
  /** base_tbl_len: the header and its two entries. */
  const BASE_TBL_LEN: int := CONF_SIZE + CPU_SIZE + IOAPIC_SIZE
  /** Offsets of the checksum bytes inside their structures. */
  const FLT_CKSUM: int := 10
  const CONF_CKSUM: int := 7
  /** Bytes written of the processor entry; its last 8 reserved bytes are not. */
  const CPU_WRITTEN: int := 12

  const SPEC_REV: u8 := 4
  const MP_CPU: u8 := 0
  const MP_IOAPIC: u8 := 2
  const MP_CPU_EN: u8 := 1
  const MP_CPU_BP: u8 := 2
  const MP_IOAPIC_EN: u8 := 1
  /** Feature byte 2: the IMCR is present (PIC mode). */
  const MP_FEAT1_IMCRP: u8 := 0x80
  /** The floating pointer's length in 16-byte paragraphs (section 4.1 of the MP Specification). */
  const PARAGRAPH: int := 16
  const FLT_LEN: u8 := FLT_SIZE / PARAGRAPH

  /** The values fake_mp_table reads from the hardware. */
  datatype MpHardware = MpHardware(
    apicBaseMsr: u64,     // rdmsr(0x1b)
    lapicIdReg: u32,      // local APIC register at offset 0x20
    lapicVerReg: u32,     // local APIC register at offset 0x30
    cpuSig: u32,          // CPUID leaf 1, EAX
    cpuFeatures: u32,     // CPUID leaf 1, EDX
    ioapicIdReg: u32,     // I/O APIC register IOAPICID
    ioapicVerReg: u32,    // I/O APIC register IOAPICVER
    ioapicAddr: u32)      // IOAPIC_ADDR

  /** A string of byte-sized characters as its bytes. */
  function Ascii(s: string): (b: seq<u8>)
    requires forall i :: 0 <= i < |s| ==> s[i] as int < 0x100
    ensures |b| == |s| && forall i :: 0 <= i < |s| ==> b[i] == s[i] as int
  {
    seq(|s|, i requires 0 <= i < |s| => s[i] as int)
  }

  /**
   * `(uint32_t)(rdmsr(0x1b) & 0x000ffffffffff000)`: the APIC base field of
   * IA32_APIC_BASE, cut to 32 bits.
   */
  function LapicAddr(msr: u64): (a: u32)
  {
    ((msr / 0x1000) % 0x100_0000_0000 * 0x1000) % U32_MOD
  }

  /** The 32-bit local APIC address is bits 12..31 of the MSR, 4 KiB aligned. */
  lemma LapicAddrBits(msr: u64)
    ensures LapicAddr(msr) % 0x1000 == 0
    ensures LapicAddr(msr) == msr % U32_MOD - msr % 0x1000
  {
    var q := msr / 0x1000;
    var lo := q % 0x10_0000;
    assert (q % 0x100_0000_0000) % 0x10_0000 == lo by {
      var a := q / 0x100_0000_0000;
      var b := q % 0x100_0000_0000;
      assert q == (a * 0x10_0000) * 0x10_0000 + (b / 0x10_0000) * 0x10_0000 + b % 0x10_0000;
      DivModUnique(q, 0x10_0000, a * 0x10_0000 + b / 0x10_0000, b % 0x10_0000);
    }
    var m := q % 0x100_0000_0000;
    assert m * 0x1000 == (m / 0x10_0000) * U32_MOD + lo * 0x1000;
    DivModUnique(m * 0x1000, U32_MOD, m / 0x10_0000, lo * 0x1000);
    assert msr == (q / 0x10_0000) * U32_MOD + (lo * 0x1000 + msr % 0x1000);
    DivModUnique(msr, U32_MOD, q / 0x10_0000, lo * 0x1000 + msr % 0x1000);
  }

  /**
   * cpu.lapic_id as written: `(uint8_t)lapic[0x20 / 4]`, the low byte of
   * the local APIC ID register.
   */
  function LapicIdAsWritten(reg: u32): (id: u8)
  {
    reg % 0x100
  }

  /**
   * The local APIC ID, which the ID register holds in bits 31..24 (Intel
   * SDM volume 3A, section "Local APIC ID"), as for the I/O APIC ID one
   * line further on.
   */
  function LapicId(reg: u32): (id: u8)
  {
    reg / 0x100_0000
  }

  /** The corrected field reads back the APIC ID whatever the low bits hold. */
  lemma LapicIdRecovers(id: u8, low: int)
    requires 0 <= low < 0x100_0000
    ensures LapicId(id * 0x100_0000 + low) == id
  {
    DivModUnique(id * 0x100_0000 + low, 0x100_0000, id, low);
  }

  /** As written, a processor with APIC ID 1 is described as APIC ID 0. */
  lemma LapicIdAsWrittenLosesId()
    ensures LapicIdAsWritten(1 * 0x100_0000) == 0 && LapicId(1 * 0x100_0000) == 1
  {
  }

  /** ic_id: `(uint8_t)(ioapic[IOREGWIN] >> 24)` after selecting IOAPICID. */
  function IoapicId(reg: u32): (id: u8)
  {
    reg / 0x100_0000
  }

  /** The checksum byte: minus the byte sum, modulo 256. */
  function Cksum(s: seq<u8>): (c: u8)
    ensures (Sum(s) + c) % 0x100 == 0
  {
    (-Sum(s)) % 0x100
  }

  /**
   * update_cksum(buf + lo, n, buf + ck) on a byte image: the checksum byte
   * is cleared, then set to the checksum of the n bytes from lo.
   */
  function Checksummed(s: seq<u8>, lo: int, n: int, ck: int): (r: seq<u8>)
    requires 0 <= lo && 0 <= n && lo + n <= |s| && 0 <= ck < |s|
    ensures |r| == |s| && forall i :: 0 <= i < |s| && i != ck ==> r[i] == s[i]
  {
    var t := s[ck := 0];
    t[ck := Cksum(t[lo..lo + n])]
  }

  /** With the checksum byte inside the summed area, the area then sums to zero. */
  lemma ChecksummedSumsToZero(s: seq<u8>, lo: int, n: int, ck: int)
    requires 0 <= lo <= ck < lo + n <= |s|
    ensures SumsToZero(Checksummed(s, lo, n, ck)[lo..lo + n])
  {
    var t := s[ck := 0];
    var c := Cksum(t[lo..lo + n]);
    var r := Checksummed(s, lo, n, ck);
    assert r[lo..lo + n] == t[lo..lo + n][ck - lo := c];
    SumUpdate(t[lo..lo + n], ck - lo, c);
  }

  /** Checksumming inside a part of a larger image touches only that part. */
  lemma ChecksummedShift(pre: seq<u8>, mid: seq<u8>, post: seq<u8>, lo: int, n: int, ck: int)
    requires 0 <= lo && 0 <= n && lo + n <= |mid| && 0 <= ck < |mid|
    ensures Checksummed(pre + mid + post, |pre| + lo, n, |pre| + ck) == pre + Checksummed(mid, lo, n, ck) + post
  {
    var s := pre + mid + post;
    var t := mid[ck := 0];
    assert s[|pre| + ck := 0] == pre + t + post;
    assert (pre + t + post)[|pre| + lo..|pre| + lo + n] == t[lo..lo + n];
    assert (pre + t + post)[|pre| + ck := Cksum(t[lo..lo + n])] == pre + t[ck := Cksum(t[lo..lo + n])] + post;
  }

  lemma CksumStep(s: int, x: int)
    ensures ((-s) % 0x100 - x) % 0x100 == (-(s + x)) % 0x100
  {
    var q, r := (-s) / 0x100, (-s) % 0x100;
    var q2, r2 := (-(s + x)) / 0x100, (-(s + x)) % 0x100;
    assert -s == q * 0x100 + r;
    assert -(s + x) == q2 * 0x100 + r2;
    assert r - x == (q2 - q) * 0x100 + r2;
    DivModUnique(r - x, 0x100, q2 - q, r2);
  }

  /** update_cksum. */
  method UpdateCksum(mem: array<u8>, lo: int, n: int, ck: int)
    requires 0 <= lo && 0 <= n && lo + n <= mem.Length && 0 <= ck < mem.Length
    modifies mem
    ensures mem[..] == Checksummed(old(mem[..]), lo, n, ck)
  {
    mem[ck] := 0;
    var c: u8 := 0;
    var p := lo;
    while p < lo + n
      invariant lo <= p <= lo + n
      invariant mem[..] == old(mem[..])[ck := 0]
      invariant c == (-Sum(mem[lo..p])) % 0x100
    {
      assert mem[lo..p + 1][..p - lo] == mem[lo..p];
      CksumStep(Sum(mem[lo..p]), mem[p]);
      c := (c as int - mem[p] as int) % 0x100;
      p := p + 1;
    }
    mem[ck] := c;
  }

  /** memcpy and field stores: bytes laid down from `at`, nothing else changed. */
  method WriteBytes(mem: array<u8>, at: int, b: seq<u8>)
    requires 0 <= at && at + |b| <= mem.Length
    modifies mem
    ensures mem[..] == old(mem[..])[..at] + b + old(mem[..])[at + |b|..]
  {
    var j := 0;
    while j < |b|
      invariant 0 <= j <= |b|
      invariant forall i :: 0 <= i < mem.Length ==> mem[i] == if at <= i < at + j then b[i - at] else old(mem[i])
    {
      mem[at + j] := b[j];
      j := j + 1;
    }
    assert mem[..] == old(mem[..])[..at] + b + old(mem[..])[at + |b|..];
  }

  /** The floating pointer, checksum byte still 0, naming the header 16 bytes further on. */
  function FltFields(u: int, len: u8): (b: seq<u8>)
    ensures |b| == FLT_SIZE
  {
    Ascii("_MP_") + Le32Bytes((u + CONF_OFF) % U32_MOD) +
    [len, SPEC_REV, 0, 0, MP_FEAT1_IMCRP, 0, 0, 0]
  }

  /** The configuration table header, checksum byte still 0. */
  function ConfFields(lapicAddr: u32): (b: seq<u8>)
    ensures |b| == CONF_SIZE
  {
    Ascii("PCMP") + Le16Bytes(BASE_TBL_LEN) + [SPEC_REV, 0] +
    Ascii("BOCHSCPU") + Ascii("0.1         ") +
    Le32Bytes(0) + Le16Bytes(0) + Le16Bytes(2) + Le32Bytes(lapicAddr) + Le16Bytes(0) + [0, 0]
  }

  /** The written part of the processor entry: this processor with APIC ID `id`, enabled, the bootstrap processor. */
  function CpuHead(hw: MpHardware, id: u8): (b: seq<u8>)
    ensures |b| == CPU_WRITTEN
  {
    [MP_CPU, id, hw.lapicVerReg % 0x100, MP_CPU_EN + MP_CPU_BP] +
    Le32Bytes(hw.cpuSig) + Le32Bytes(hw.cpuFeatures)
  }

  /** The I/O APIC entry: enabled, at IOAPIC_ADDR. */
  function IoapicFields(hw: MpHardware): (b: seq<u8>)
    ensures |b| == IOAPIC_SIZE
  {
    [MP_IOAPIC, IoapicId(hw.ioapicIdReg), hw.ioapicVerReg % 0x100, MP_IOAPIC_EN] + Le32Bytes(hw.ioapicAddr)
  }

  /**
   * The 88 bytes of the tables at address u, with `len` in the floating
   * pointer and `id` as the processor's APIC ID: both structures
   * checksummed; the processor entry's reserved bytes keep what memory
   * held.
   */
  function MakeBundle(u: int, hw: MpHardware, reserved: seq<u8>, len: u8, id: u8): (b: seq<u8>)
    requires |reserved| == CPU_SIZE - CPU_WRITTEN
    ensures |b| == BUNDLE_SIZE
  {
    Checksummed(FltFields(u, len), 0, FLT_SIZE, FLT_CKSUM) + ConfTable(hw, reserved, id)
  }

  /**
   * What fake_mp_table leaves at u as written: `len` is sizeof the floating
   * pointer, 16, and the APIC ID is the low byte of the ID register.
   */
  function Bundle(u: int, hw: MpHardware, reserved: seq<u8>): (b: seq<u8>)
    requires |reserved| == CPU_SIZE - CPU_WRITTEN
    ensures |b| == BUNDLE_SIZE
  {
    MakeBundle(u, hw, reserved, FLT_SIZE, LapicIdAsWritten(hw.lapicIdReg))
  }

  /** The evidently intended tables: `len` in paragraphs, 1, and the APIC ID from bits 31..24. */
  function BundleFixed(u: int, hw: MpHardware, reserved: seq<u8>): (b: seq<u8>)
    requires |reserved| == CPU_SIZE - CPU_WRITTEN
    ensures |b| == BUNDLE_SIZE
  {
    MakeBundle(u, hw, reserved, FLT_LEN, LapicId(hw.lapicIdReg))
  }

  /** The configuration table header and its two entries, checksummed, over `reserved` for the unwritten bytes. */
  function ConfTable(hw: MpHardware, reserved: seq<u8>, id: u8): (b: seq<u8>)
    requires |reserved| == CPU_SIZE - CPU_WRITTEN
    ensures |b| == BASE_TBL_LEN
  {
    Checksummed(ConfFields(LapicAddr(hw.apicBaseMsr)) + CpuHead(hw, id) + reserved + IoapicFields(hw),
                0, BASE_TBL_LEN, CONF_CKSUM)
  }

  /** The first part of fake_mp_table: the floating pointer, `len` set to its size in bytes, then its checksum. */
  method WriteFloatingPointer(mem: array<u8>, u: int)
    requires 0 <= u && u + FLT_SIZE <= mem.Length
    modifies mem
    ensures mem[..] == old(mem[..])[..u] + Checksummed(FltFields(u, FLT_SIZE), 0, FLT_SIZE, FLT_CKSUM) +
                       old(mem[..])[u + FLT_SIZE..]
  {
    ghost var s := mem[..];
    var flt := FltFields(u, FLT_SIZE);
    WriteBytes(mem, u, flt);
    ChecksummedShift(s[..u], flt, s[u + FLT_SIZE..], 0, FLT_SIZE, FLT_CKSUM);
    UpdateCksum(mem, u, FLT_SIZE, u + FLT_CKSUM);
  }

  /**
   * The second part: header, processor entry with the low byte of the ID
   * register as its APIC ID, I/O APIC entry, then the table checksum.
   */
  method WriteConfTable(mem: array<u8>, c: int, hw: MpHardware)
    requires 0 <= c && c + BASE_TBL_LEN <= mem.Length
    modifies mem
    ensures mem[..] == old(mem[..])[..c] +
                       ConfTable(hw, old(mem[c + CONF_SIZE + CPU_WRITTEN..c + CONF_SIZE + CPU_SIZE]), LapicIdAsWritten(hw.lapicIdReg)) +
                       old(mem[..])[c + BASE_TBL_LEN..]
  {
    ghost var s := mem[..];
    ghost var reserved := s[c + CONF_SIZE + CPU_WRITTEN..c + CONF_SIZE + CPU_SIZE];
    var head := ConfFields(LapicAddr(hw.apicBaseMsr)) + CpuHead(hw, LapicIdAsWritten(hw.lapicIdReg));
    var io := IoapicFields(hw);
    WriteBytes(mem, c, head);
    WriteBytes(mem, c + CONF_SIZE + CPU_SIZE, io);
    ghost var body := head + reserved + io;
    WriteAround(s, c, head, CONF_SIZE + CPU_SIZE, io, BASE_TBL_LEN);
    assert mem[..] == s[..c] + body + s[c + BASE_TBL_LEN..];
    ChecksummedShift(s[..c], body, s[c + BASE_TBL_LEN..], 0, BASE_TBL_LEN, CONF_CKSUM);
    UpdateCksum(mem, c, BASE_TBL_LEN, c + CONF_CKSUM);
  }

  /** Two writes at c and c + gap leave the bytes between them and around them as they were. */
  lemma WriteAround(s: seq<u8>, c: int, head: seq<u8>, gap: int, io: seq<u8>, total: int)
    requires 0 <= c && |head| <= gap && gap + |io| == total && c + total <= |s|
    ensures var m1 := s[..c] + head + s[c + |head|..];
      |m1| == |s| &&
      m1[..c + gap] + io + m1[c + gap + |io|..] == s[..c] + (head + s[c + |head|..c + gap] + io) + s[c + total..]
  {
    var m1 := s[..c] + head + s[c + |head|..];
    assert m1[..c + gap] == s[..c] + head + s[c + |head|..c + gap];
    assert m1[c + gap + |io|..] == s[c + total..];
  }

  /**
   * fake_mp_table(base_kib): the tables go in the last KiB of base memory,
   * and memory outside their 88 bytes is left as it was.
   */
  method FakeMpTable(mem: array<u8>, baseKib: int, hw: MpHardware)
    requires 1 <= baseKib && (baseKib - 1) * KIBYTE + BUNDLE_SIZE <= mem.Length
    modifies mem
    ensures var u := (baseKib - 1) * KIBYTE;
      mem[..] == old(mem[..])[..u] + Bundle(u, hw, old(mem[u + CPU_OFF + CPU_WRITTEN..u + IOAPIC_OFF])) +
                 old(mem[..])[u + BUNDLE_SIZE..]
  {
    var u := (baseKib - 1) * KIBYTE;
    ghost var s := mem[..];
    ghost var reserved := s[u + CPU_OFF + CPU_WRITTEN..u + IOAPIC_OFF];
    WriteFloatingPointer(mem, u);
    ghost var fltDone := Checksummed(FltFields(u, FLT_SIZE), 0, FLT_SIZE, FLT_CKSUM);
    Compose(s, u, fltDone, ConfTable(hw, reserved, LapicIdAsWritten(hw.lapicIdReg)));
    WriteConfTable(mem, u + CONF_OFF, hw);
  }

  /** The floating pointer's write leaves the configuration table's place as it was. */
  lemma Compose(s: seq<u8>, u: int, f: seq<u8>, c: seq<u8>)
    requires 0 <= u && u + BUNDLE_SIZE <= |s| && |f| == FLT_SIZE && |c| == BASE_TBL_LEN
    ensures var m := s[..u] + f + s[u + FLT_SIZE..];
      |m| == |s| && m[u + CPU_OFF + CPU_WRITTEN..u + IOAPIC_OFF] == s[u + CPU_OFF + CPU_WRITTEN..u + IOAPIC_OFF] &&
      m[..u + CONF_OFF] + c + m[u + BUNDLE_SIZE..] == s[..u] + (f + c) + s[u + BUNDLE_SIZE..]
  {
    var m := s[..u] + f + s[u + FLT_SIZE..];
    assert m[..u + CONF_OFF] == s[..u] + f;
    assert m[u + BUNDLE_SIZE..] == s[u + BUNDLE_SIZE..];
  }

  /**
   * As written, both structures sum to zero over their full length: the
   * floating pointer over its 16 bytes, which its `len` field gives in
   * bytes, the header and entries over base_tbl_len bytes.
   */
  lemma BundleChecksums(u: int, hw: MpHardware, reserved: seq<u8>)
    requires |reserved| == CPU_SIZE - CPU_WRITTEN
    ensures var b := Bundle(u, hw, reserved);
      b[8] == FLT_SIZE && SumsToZero(b[..FLT_SIZE]) &&
      Le16(b, CONF_OFF + 4) == BASE_TBL_LEN && SumsToZero(b[CONF_OFF..CONF_OFF + BASE_TBL_LEN])
  {
    MakeBundleChecksums(u, hw, reserved, FLT_SIZE, LapicIdAsWritten(hw.lapicIdReg));
  }

  /** Checksums and lengths of the tables, whatever `len` and APIC ID they carry. */
  lemma MakeBundleChecksums(u: int, hw: MpHardware, reserved: seq<u8>, len: u8, id: u8)
    requires |reserved| == CPU_SIZE - CPU_WRITTEN
    ensures var b := MakeBundle(u, hw, reserved, len, id);
      b[8] == len && SumsToZero(b[..FLT_SIZE]) &&
      Le16(b, CONF_OFF + 4) == BASE_TBL_LEN && SumsToZero(b[CONF_OFF..CONF_OFF + BASE_TBL_LEN])
  {
    var flt := FltFields(u, len);
    var body := ConfFields(LapicAddr(hw.apicBaseMsr)) + CpuHead(hw, id) + reserved + IoapicFields(hw);
    var b := MakeBundle(u, hw, reserved, len, id);
    ChecksummedSumsToZero(flt, 0, FLT_SIZE, FLT_CKSUM);
    ChecksummedSumsToZero(body, 0, BASE_TBL_LEN, CONF_CKSUM);
    assert b[..FLT_SIZE] == Checksummed(flt, 0, FLT_SIZE, FLT_CKSUM)[0..FLT_SIZE];
    assert b[CONF_OFF..CONF_OFF + BASE_TBL_LEN] == Checksummed(body, 0, BASE_TBL_LEN, CONF_CKSUM)[0..BASE_TBL_LEN];
    Le16At([], BASE_TBL_LEN, body[6..]);
    assert body[..6] == Ascii("PCMP") + Le16Bytes(BASE_TBL_LEN);
    assert b[CONF_OFF + 4] == body[4] && b[CONF_OFF + 5] == body[5];
  }

  /**
   * As written, the floating pointer carries the "_MP_" signature and
   * points at the "PCMP" header, which announces two entries: this
   * processor as the enabled bootstrap processor, under the low byte of
   * its ID register, then one enabled I/O APIC.
   */
  lemma BundleLayout(u: int, hw: MpHardware, reserved: seq<u8>)
    requires |reserved| == CPU_SIZE - CPU_WRITTEN
    ensures var b := Bundle(u, hw, reserved);
      b[..4] == Ascii("_MP_") && Le32(b, 4) == (u + CONF_OFF) % U32_MOD && b[8] == FLT_SIZE && b[9] == SPEC_REV &&
      b[12] == MP_FEAT1_IMCRP &&
      b[CONF_OFF..CONF_OFF + 4] == Ascii("PCMP") && Le16(b, CONF_OFF + 34) == 2 &&
      Le32(b, CONF_OFF + 36) == LapicAddr(hw.apicBaseMsr) &&
      b[CPU_OFF] == MP_CPU && b[CPU_OFF + 1] == hw.lapicIdReg % 0x100 &&
      b[CPU_OFF + 3] == MP_CPU_EN + MP_CPU_BP &&
      b[CPU_OFF + CPU_WRITTEN..IOAPIC_OFF] == reserved &&
      b[IOAPIC_OFF] == MP_IOAPIC && b[IOAPIC_OFF + 1] == IoapicId(hw.ioapicIdReg) &&
      b[IOAPIC_OFF + 3] == MP_IOAPIC_EN && Le32(b, IOAPIC_OFF + 4) == hw.ioapicAddr
  {
    MakeBundleLayout(u, hw, reserved, FLT_SIZE, LapicIdAsWritten(hw.lapicIdReg));
  }

  /** The layout of the tables, whatever `len` and APIC ID they carry. */
  lemma MakeBundleLayout(u: int, hw: MpHardware, reserved: seq<u8>, len: u8, id: u8)
    requires |reserved| == CPU_SIZE - CPU_WRITTEN
    ensures var b := MakeBundle(u, hw, reserved, len, id);
      b[..4] == Ascii("_MP_") && Le32(b, 4) == (u + CONF_OFF) % U32_MOD && b[8] == len && b[9] == SPEC_REV &&
      b[12] == MP_FEAT1_IMCRP &&
      b[CONF_OFF..CONF_OFF + 4] == Ascii("PCMP") && Le16(b, CONF_OFF + 34) == 2 &&
      Le32(b, CONF_OFF + 36) == LapicAddr(hw.apicBaseMsr) &&
      b[CPU_OFF] == MP_CPU && b[CPU_OFF + 1] == id &&
      b[CPU_OFF + 3] == MP_CPU_EN + MP_CPU_BP &&
      b[CPU_OFF + CPU_WRITTEN..IOAPIC_OFF] == reserved &&
      b[IOAPIC_OFF] == MP_IOAPIC && b[IOAPIC_OFF + 1] == IoapicId(hw.ioapicIdReg) &&
      b[IOAPIC_OFF + 3] == MP_IOAPIC_EN && Le32(b, IOAPIC_OFF + 4) == hw.ioapicAddr
  {
    var flt := FltFields(u, len);
    var conf := ConfFields(LapicAddr(hw.apicBaseMsr));
    var body := conf + CpuHead(hw, id) + reserved + IoapicFields(hw);
    var b := MakeBundle(u, hw, reserved, len, id);
    assert b[..FLT_SIZE] == Checksummed(flt, 0, FLT_SIZE, FLT_CKSUM);
    assert b[FLT_SIZE..] == Checksummed(body, 0, BASE_TBL_LEN, CONF_CKSUM);
    Le32At(Ascii("_MP_"), (u + CONF_OFF) % U32_MOD, flt[8..]);
    assert b[4..8] == flt[4..8];
    var pre := Ascii("PCMP") + Le16Bytes(BASE_TBL_LEN) + [SPEC_REV, 0] +
               Ascii("BOCHSCPU") + Ascii("0.1         ") + Le32Bytes(0) + Le16Bytes(0);
    assert |pre| == 34;
    assert conf == pre + Le16Bytes(2) + (Le32Bytes(LapicAddr(hw.apicBaseMsr)) + Le16Bytes(0) + [0, 0]);
    Le16At(pre, 2, Le32Bytes(LapicAddr(hw.apicBaseMsr)) + Le16Bytes(0) + [0, 0]);
    Le32At(pre + Le16Bytes(2), LapicAddr(hw.apicBaseMsr), Le16Bytes(0) + [0, 0]);
    assert b[CONF_OFF + 34..CONF_OFF + 40] == conf[34..40];
    var io := IoapicFields(hw);
    Le32At(io[..4], hw.ioapicAddr, []);
    assert io == io[..4] + Le32Bytes(hw.ioapicAddr) + [];
    var cb := Checksummed(body, 0, BASE_TBL_LEN, CONF_CKSUM);
    forall i | 0 <= i < IOAPIC_SIZE
      ensures b[IOAPIC_OFF + i] == io[i]
    {
      assert b[IOAPIC_OFF + i] == cb[CONF_SIZE + CPU_SIZE + i] == body[CONF_SIZE + CPU_SIZE + i];
    }
    assert b[IOAPIC_OFF..] == io;
  }

  /** The floating pointer's LENGTH is the structure's size in paragraphs. */
  predicate LengthInParagraphs(flt: seq<u8>)
  {
    |flt| == FLT_SIZE && flt[8] * PARAGRAPH == |flt|
  }

  /**
   * As written the floating pointer's `len` claims 16 paragraphs, 256
   * bytes; the evidently intended tables claim its one paragraph, and
   * name the processor by bits 31..24 of its ID register.
   */
  lemma FltLengthFinding(u: int, hw: MpHardware, reserved: seq<u8>)
    requires |reserved| == CPU_SIZE - CPU_WRITTEN
    ensures !LengthInParagraphs(Bundle(u, hw, reserved)[..FLT_SIZE])
    ensures LengthInParagraphs(BundleFixed(u, hw, reserved)[..FLT_SIZE])
    ensures BundleFixed(u, hw, reserved)[CPU_OFF + 1] == LapicId(hw.lapicIdReg)
  {
    MakeBundleLayout(u, hw, reserved, FLT_SIZE, LapicIdAsWritten(hw.lapicIdReg));
    MakeBundleLayout(u, hw, reserved, FLT_LEN, LapicId(hw.lapicIdReg));
  }
}
