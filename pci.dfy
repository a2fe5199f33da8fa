/**
 * Stage 2's access to PCI configuration space through configuration
 * mechanism #1 (PCI Local Bus Specification 3.0, section 3.2.2.3.2):
 * a 32-bit address word to port 0xcf8 selects a dword, which is then
 * read or written at port 0xcfc (stage2/pci.h). A dword at an offset
 * that is not a multiple of 4 is synthesised from the two aligned dwords
 * it straddles (stage2/pci.c).
 *
 * The configuration space is a map from address word to dword with RAM
 * semantics: a dword reads back what was last written at the same address
 * word, and an address that was never written reads as all ones.
 */
module Pci {
  const PCI_ADDR: int := 0x0cf8
  const PCI_DATA: int := 0x0cfc

  /** One 32-bit port access. */
  datatype PortIo = OutD(port: int, value: bv32) | InD(port: int, value: bv32)

  /** The address word in_pci_d_aligned writes: only the low 16 bits of locn are used. */
  function ReadAddr(locn: bv32, off: bv8): (a: bv32)
  {
    (1 << 31) | ((locn & 0xffff) << 8) | (off as bv32)
  }

  /** The address word out_pci_d_aligned writes: locn is shifted without masking. */
  function WriteAddr(locn: bv32, off: bv8): (a: bv32)
  {
    (1 << 31) | (locn << 8) | (off as bv32)
  }

  /**
   * The two address words agree exactly when bits 16..22 of locn are 0;
   * bit 23 lands on bit 31, which is set anyway, and higher bits are
   * shifted out.
   */
  lemma AddressesAgree(locn: bv32, off: bv8)
    ensures WriteAddr(locn, off) == ReadAddr(locn, off) <==> (locn >> 16) & 0x7f == 0
  {
  }

  /** Both address words carry the enable bit and the offset in their low byte. */
  lemma AddressFields(locn: bv32, off: bv8)
    ensures ReadAddr(locn, off) & (1 << 31) != 0 && ReadAddr(locn, off) & 0xff == off as bv32
    ensures (ReadAddr(locn, off) >> 8) & 0xffff == locn & 0xffff
    ensures WriteAddr(locn, off) & (1 << 31) != 0 && WriteAddr(locn, off) & 0xff == off as bv32
  {
  }

  /** A configuration-space key: the address word latched in CONFIG_ADDRESS. */
  datatype Addr = Addr(word: bv32)

  /** The dword a read returns; an absent function reads as all ones. */
  function Dword(space: map<Addr, bv32>, a: bv32): bv32
  {
    if Addr(a) in space then space[Addr(a)] else 0xffff_ffff
  }

  /** Byte i (0 = lowest) of a dword. */
  function ByteOf(x: bv32, i: nat): (b: bv32)
    requires i < 4
    ensures b < 0x100
  {
    if i == 0 then x & 0xff
    else if i == 1 then (x >> 8) & 0xff
    else if i == 2 then (x >> 16) & 0xff
    else x >> 24
  }

  /** Byte j of the eight bytes of a dword pair, lo first. */
  function PairByte(lo: bv32, hi: bv32, j: nat): bv32
    requires j < 8
  {
    if j < 4 then ByteOf(lo, j) else ByteOf(hi, j - 4)
  }

  /** The dword k bytes into the pair (lo, hi), for k = off & 3 in 1..3. */
  function Combine(lo: bv32, hi: bv32, k: bv8): bv32
    requires 1 <= k <= 3
  {
    if k == 1 then (lo >> 8) | (hi << 24)
    else if k == 2 then (lo >> 16) | (hi << 16)
    else (lo >> 24) | (hi << 8)
  }

  /** The first dword after writing v k bytes into it: its low k bytes kept. */
  function MergeLo(lo: bv32, v: bv32, k: bv8): bv32
    requires 1 <= k <= 3
  {
    if k == 1 then (lo & 0x0000_00ff) | (v << 8)
    else if k == 2 then (lo & 0x0000_ffff) | (v << 16)
    else (lo & 0x00ff_ffff) | (v << 24)
  }

  /** The second dword after the same write: its high 4 - k bytes kept. */
  function MergeHi(hi: bv32, v: bv32, k: bv8): bv32
    requires 1 <= k <= 3
  {
    if k == 1 then (hi & 0xffff_ff00) | (v >> 24)
    else if k == 2 then (hi & 0xffff_0000) | (v >> 16)
    else (hi & 0xff00_0000) | (v >> 8)
  }

  /** Bytes off..off+3 as read: bytes k..k+3 of the aligned dword pair, little-endian. */
  lemma CombineBytes(lo: bv32, hi: bv32, k: bv8, i: nat)
    requires 1 <= k <= 3 && i < 4
    ensures ByteOf(Combine(lo, hi, k), i) == PairByte(lo, hi, k as nat + i)
  {
    if k == 1 { CombineBytes1(lo, hi); }
    else if k == 2 { CombineBytes2(lo, hi); }
    else { CombineBytes3(lo, hi); }
  }

  lemma CombineBytes1(lo: bv32, hi: bv32)
    ensures ByteOf(Combine(lo, hi, 1), 0) == ByteOf(lo, 1) && ByteOf(Combine(lo, hi, 1), 1) == ByteOf(lo, 2)
    ensures ByteOf(Combine(lo, hi, 1), 2) == ByteOf(lo, 3) && ByteOf(Combine(lo, hi, 1), 3) == ByteOf(hi, 0)
  {
  }

  lemma CombineBytes2(lo: bv32, hi: bv32)
    ensures ByteOf(Combine(lo, hi, 2), 0) == ByteOf(lo, 2) && ByteOf(Combine(lo, hi, 2), 1) == ByteOf(lo, 3)
    ensures ByteOf(Combine(lo, hi, 2), 2) == ByteOf(hi, 0) && ByteOf(Combine(lo, hi, 2), 3) == ByteOf(hi, 1)
  {
  }

  lemma CombineBytes3(lo: bv32, hi: bv32)
    ensures ByteOf(Combine(lo, hi, 3), 0) == ByteOf(lo, 3) && ByteOf(Combine(lo, hi, 3), 1) == ByteOf(hi, 0)
    ensures ByteOf(Combine(lo, hi, 3), 2) == ByteOf(hi, 1) && ByteOf(Combine(lo, hi, 3), 3) == ByteOf(hi, 2)
  {
  }

  /**
   * The write keeps the low k bytes of the first dword and the high 4 - k
   * bytes of the second, and lays v's bytes over the four between.
   */
  lemma MergeBytes(lo: bv32, hi: bv32, v: bv32, k: bv8, j: nat)
    requires 1 <= k <= 3 && j < 8
    ensures PairByte(MergeLo(lo, v, k), MergeHi(hi, v, k), j) ==
      if j < k as nat || j >= k as nat + 4 then PairByte(lo, hi, j) else ByteOf(v, j - k as nat)
  {
    if k == 1 { MergeBytes1(lo, hi, v); }
    else if k == 2 { MergeBytes2(lo, hi, v); }
    else { MergeBytes3(lo, hi, v); }
  }

  lemma MergeBytes1(lo: bv32, hi: bv32, v: bv32)
    ensures ByteOf(MergeLo(lo, v, 1), 0) == ByteOf(lo, 0)
    ensures ByteOf(MergeLo(lo, v, 1), 1) == ByteOf(v, 0) && ByteOf(MergeLo(lo, v, 1), 2) == ByteOf(v, 1)
    ensures ByteOf(MergeLo(lo, v, 1), 3) == ByteOf(v, 2) && ByteOf(MergeHi(hi, v, 1), 0) == ByteOf(v, 3)
    ensures ByteOf(MergeHi(hi, v, 1), 1) == ByteOf(hi, 1) && ByteOf(MergeHi(hi, v, 1), 2) == ByteOf(hi, 2)
    ensures ByteOf(MergeHi(hi, v, 1), 3) == ByteOf(hi, 3)
  {
  }

  lemma MergeBytes2(lo: bv32, hi: bv32, v: bv32)
    ensures ByteOf(MergeLo(lo, v, 2), 0) == ByteOf(lo, 0) && ByteOf(MergeLo(lo, v, 2), 1) == ByteOf(lo, 1)
    ensures ByteOf(MergeLo(lo, v, 2), 2) == ByteOf(v, 0) && ByteOf(MergeLo(lo, v, 2), 3) == ByteOf(v, 1)
    ensures ByteOf(MergeHi(hi, v, 2), 0) == ByteOf(v, 2) && ByteOf(MergeHi(hi, v, 2), 1) == ByteOf(v, 3)
    ensures ByteOf(MergeHi(hi, v, 2), 2) == ByteOf(hi, 2) && ByteOf(MergeHi(hi, v, 2), 3) == ByteOf(hi, 3)
  {
  }

  lemma MergeBytes3(lo: bv32, hi: bv32, v: bv32)
    ensures ByteOf(MergeLo(lo, v, 3), 0) == ByteOf(lo, 0) && ByteOf(MergeLo(lo, v, 3), 1) == ByteOf(lo, 1)
    ensures ByteOf(MergeLo(lo, v, 3), 2) == ByteOf(lo, 2) && ByteOf(MergeLo(lo, v, 3), 3) == ByteOf(v, 0)
    ensures ByteOf(MergeHi(hi, v, 3), 0) == ByteOf(v, 1) && ByteOf(MergeHi(hi, v, 3), 1) == ByteOf(v, 2)
    ensures ByteOf(MergeHi(hi, v, 3), 2) == ByteOf(v, 3) && ByteOf(MergeHi(hi, v, 3), 3) == ByteOf(hi, 3)
  {
  }

  /** Reading back the merged pair at the same k gives the written dword. */
  lemma CombineMerge(lo: bv32, hi: bv32, v: bv32, k: bv8)
    requires 1 <= k <= 3
    ensures Combine(MergeLo(lo, v, k), MergeHi(hi, v, k), k) == v
  {
  }

  /** The port accesses of in_pci_d_aligned. */
  function AlignedReadIo(space: map<Addr, bv32>, locn: bv32, off: bv8): seq<PortIo>
  {
    [OutD(PCI_ADDR, ReadAddr(locn, off)), InD(PCI_DATA, Dword(space, ReadAddr(locn, off)))]
  }

  /** The port accesses of out_pci_d_aligned. */
  function AlignedWriteIo(locn: bv32, off: bv8, v: bv32): seq<PortIo>
  {
    [OutD(PCI_ADDR, WriteAddr(locn, off)), OutD(PCI_DATA, v)]
  }

  /** What in_pci_d_maybe_unaligned returns. */
  function ReadValue(space: map<Addr, bv32>, locn: bv32, off: bv8): bv32
  {
    var k := off & 3;
    var aoff := off & 0xfc;
    if k == 0 then Dword(space, ReadAddr(locn, off))
    else Combine(Dword(space, ReadAddr(locn, aoff)), Dword(space, ReadAddr(locn, aoff + 4)), k)
  }

  /** The port accesses of in_pci_d_maybe_unaligned. */
  function ReadIo(space: map<Addr, bv32>, locn: bv32, off: bv8): seq<PortIo>
  {
    var aoff := off & 0xfc;
    if off & 3 == 0 then AlignedReadIo(space, locn, off)
    else AlignedReadIo(space, locn, aoff) + AlignedReadIo(space, locn, aoff + 4)
  }

  /** Configuration space and port accesses after a write. */
  datatype WriteEffect = WriteEffect(space: map<Addr, bv32>, io: seq<PortIo>)

  /** The read-modify-write of the two dwords at aoff and aoff + 4, in order. */
  function Rmw(space: map<Addr, bv32>, locn: bv32, aoff: bv8, v: bv32, k: bv8): WriteEffect
    requires 1 <= k <= 3
  {
    var lo := Dword(space, ReadAddr(locn, aoff));
    var s1 := space[Addr(WriteAddr(locn, aoff)) := MergeLo(lo, v, k)];
    var hi := Dword(s1, ReadAddr(locn, aoff + 4));
    var s2 := s1[Addr(WriteAddr(locn, aoff + 4)) := MergeHi(hi, v, k)];
    WriteEffect(s2, AlignedReadIo(space, locn, aoff) + AlignedWriteIo(locn, aoff, MergeLo(lo, v, k)) +
                    AlignedReadIo(s1, locn, aoff + 4) + AlignedWriteIo(locn, aoff + 4, MergeHi(hi, v, k)))
  }

  /** out_pci_d_maybe_unaligned with a `break` after the aligned case. */
  function WriteSpec(space: map<Addr, bv32>, locn: bv32, off: bv8, v: bv32): WriteEffect
  {
    if off & 3 == 0 then WriteEffect(space[Addr(WriteAddr(locn, off)) := v], AlignedWriteIo(locn, off, v))
    else Rmw(space, locn, off & 0xfc, v, off & 3)
  }

  /**
   * out_pci_d_maybe_unaligned as written: the aligned case has no `break`
   * and falls into the k = 1 read-modify-write at the same offset.
   */
  function WriteSpecAsWritten(space: map<Addr, bv32>, locn: bv32, off: bv8, v: bv32): WriteEffect
  {
    if off & 3 == 0 then
      var r := Rmw(space[Addr(WriteAddr(locn, off)) := v], locn, off, v, 1);
      WriteEffect(r.space, AlignedWriteIo(locn, off, v) + r.io)
    else Rmw(space, locn, off & 0xfc, v, off & 3)
  }

  /** Whether a write at off stores at address word a. */
  predicate Touches(locn: bv32, off: bv8, a: bv32)
  {
    if off & 3 == 0 then a == WriteAddr(locn, off)
    else a == WriteAddr(locn, off & 0xfc) || a == WriteAddr(locn, (off & 0xfc) + 4)
  }

  /**
   * With RAM semantics and a locn whose two address words agree, a write
   * followed by a read at the same offset returns the written dword, and
   * no other dword changes.
   */
  lemma WriteThenRead(space: map<Addr, bv32>, locn: bv32, off: bv8, v: bv32)
    requires (locn >> 16) & 0x7f == 0
    ensures ReadValue(WriteSpec(space, locn, off, v).space, locn, off) == v
    ensures forall a: bv32 :: !Touches(locn, off, a) ==> Dword(WriteSpec(space, locn, off, v).space, a) == Dword(space, a)
  {
    if off & 3 == 0 {
      AddressesAgree(locn, off);
    } else {
      WriteThenReadPair(space, locn, off, v);
      WriteFramePair(space, locn, off, v);
    }
  }

  lemma WriteThenReadPair(space: map<Addr, bv32>, locn: bv32, off: bv8, v: bv32)
    requires (locn >> 16) & 0x7f == 0 && off & 3 != 0
    ensures ReadValue(WriteSpec(space, locn, off, v).space, locn, off) == v
  {
    var aoff := off & 0xfc;
    var k := off & 3;
    assert WriteSpec(space, locn, off, v) == Rmw(space, locn, aoff, v, k);
    RmwDwords(space, locn, aoff, v, k);
    CombineMerge(Dword(space, ReadAddr(locn, aoff)), Dword(space, ReadAddr(locn, aoff + 4)), v, k);
  }

  lemma WriteFramePair(space: map<Addr, bv32>, locn: bv32, off: bv8, v: bv32)
    requires (locn >> 16) & 0x7f == 0 && off & 3 != 0
    ensures forall a: bv32 :: !Touches(locn, off, a) ==> Dword(WriteSpec(space, locn, off, v).space, a) == Dword(space, a)
  {
    var aoff := off & 0xfc;
    var k := off & 3;
    assert WriteSpec(space, locn, off, v) == Rmw(space, locn, aoff, v, k);
    RmwDwords(space, locn, aoff, v, k);
    var r := Rmw(space, locn, aoff, v, k).space;
    forall a: bv32 | !Touches(locn, off, a)
      ensures Dword(r, a) == Dword(space, a)
    {
      assert a != WriteAddr(locn, aoff) && a != WriteAddr(locn, aoff + 4);
    }
  }

  /**
   * The read-modify-write stores the merged low dword at aoff, the merged
   * high dword at aoff + 4, and leaves every other dword alone.
   */
  lemma RmwDwords(space: map<Addr, bv32>, locn: bv32, aoff: bv8, v: bv32, k: bv8)
    requires (locn >> 16) & 0x7f == 0 && aoff & 3 == 0 && 1 <= k <= 3
    ensures Dword(Rmw(space, locn, aoff, v, k).space, ReadAddr(locn, aoff)) == MergeLo(Dword(space, ReadAddr(locn, aoff)), v, k)
    ensures Dword(Rmw(space, locn, aoff, v, k).space, ReadAddr(locn, aoff + 4)) == MergeHi(Dword(space, ReadAddr(locn, aoff + 4)), v, k)
    ensures forall a: bv32 :: a != WriteAddr(locn, aoff) && a != WriteAddr(locn, aoff + 4) ==>
      Dword(Rmw(space, locn, aoff, v, k).space, a) == Dword(space, a)
  {
    var w0, w4 := WriteAddr(locn, aoff), WriteAddr(locn, aoff + 4);
    AddressesAgree(locn, aoff);
    AddressesAgree(locn, aoff + 4);
    assert w0 != w4 by {
      AddressFields(locn, aoff);
      AddressFields(locn, aoff + 4);
      assert aoff != aoff + 4;
    }
    var lo := Dword(space, w0);
    var s1 := space[Addr(w0) := MergeLo(lo, v, k)];
    assert Dword(s1, w4) == Dword(space, w4);
    var hi := Dword(s1, w4);
    var s2 := s1[Addr(w4) := MergeHi(hi, v, k)];
    assert Rmw(space, locn, aoff, v, k).space == s2;
    assert Dword(s2, w0) == MergeLo(lo, v, k);
  }

  /**
   * As written, an aligned write through the unaligned routine does not
   * read back: writing 0x12345678 at offset 0 leaves 0x34567878 there and
   * puts 0x12 in the low byte of the next dword.
   */
  lemma AlignedWriteAsWrittenBreaks()
    ensures ReadValue(WriteSpecAsWritten(map[], 0, 0, 0x1234_5678).space, 0, 0) == 0x3456_7878
    ensures Dword(WriteSpecAsWritten(map[], 0, 0, 0x1234_5678).space, ReadAddr(0, 4)) == 0xffff_ff12
    ensures ReadValue(WriteSpec(map[], 0, 0, 0x1234_5678).space, 0, 0) == 0x1234_5678
  {
    var v: bv32 := 0x1234_5678;
    var a0, a4 := ReadAddr(0, 0), ReadAddr(0, 4);
    assert a0 == WriteAddr(0, 0) == 0x8000_0000;
    assert a4 == WriteAddr(0, 4) == 0x8000_0004;
    var s: map<Addr, bv32> := map[Addr(a0) := v];
    assert Dword(s, a0) == v;
    var s1 := s[Addr(a0) := MergeLo(v, v, 1)];
    assert Dword(s1, a4) == 0xffff_ffff;
    var s2 := s1[Addr(a4) := MergeHi(0xffff_ffff, v, 1)];
    assert Rmw(s, 0, 0, v, 1).space == s2;
    assert WriteSpecAsWritten(map[], 0, 0, v).space == s2;
    assert MergeLo(v, v, 1) == 0x3456_7878;
    assert MergeHi(0xffff_ffff, v, 1) == 0xffff_ff12;
    assert Dword(s2, a0) == 0x3456_7878;
    assert WriteSpec(map[], 0, 0, v).space == s;
  }

  /**
   * What an aligned write through the routine as written stores, with RAM
   * semantics and agreeing address words: the dword ends as its own low
   * byte under v shifted up a byte, and the next dword's low byte takes
   * v's top byte.
   */
  lemma AlignedWriteAsWritten(space: map<Addr, bv32>, locn: bv32, off: bv8, v: bv32)
    requires (locn >> 16) & 0x7f == 0 && off & 3 == 0
    ensures var after := WriteSpecAsWritten(space, locn, off, v).space;
      ReadValue(after, locn, off) == (v & 0xff) | (v << 8) &&
      ReadValue(after, locn, off + 4) == (ReadValue(space, locn, off + 4) & 0xffff_ff00) | (v >> 24)
  {
    var off4: bv8 := off + 4;
    assert off4 & 3 == 0;
    var w0, r4 := WriteAddr(locn, off), ReadAddr(locn, off4);
    AddressesAgree(locn, off);
    assert w0 != r4 by {
      AddressFields(locn, off);
      AddressFields(locn, off4);
    }
    var s0 := space[Addr(w0) := v];
    assert Dword(s0, ReadAddr(locn, off)) == v;
    assert Dword(s0, r4) == Dword(space, r4);
    RmwDwords(s0, locn, off, v, 1);
    var after := WriteSpecAsWritten(space, locn, off, v).space;
    assert after == Rmw(s0, locn, off, v, 1).space;
    assert ReadValue(after, locn, off) == MergeLo(v, v, 1);
    assert ReadValue(after, locn, off4) == MergeHi(Dword(space, r4), v, 1);
  }

  lemma AlignedWords(locn: bv32, x: bv8)
    requires x & 3 == 0
    ensures ReadAddr(locn, x) & 3 == 0 && WriteAddr(locn, x) & 3 == 0
  {
  }

  /** Every address word sent to port 0xcf8 names an aligned dword. */
  predicate AddrWordsAligned(io: seq<PortIo>)
  {
    forall i :: 0 <= i < |io| && io[i].port == PCI_ADDR ==> io[i].value & 3 == 0
  }

  /** So it is for in_pci_d_maybe_unaligned, whatever the offset. */
  lemma ReadAddressWordsAligned(space: map<Addr, bv32>, locn: bv32, off: bv8)
    ensures AddrWordsAligned(ReadIo(space, locn, off))
  {
    var aoff := off & 0xfc;
    if off & 3 == 0 {
      AlignedWords(locn, off);
    } else {
      AlignedWords(locn, aoff);
      AlignedWords(locn, aoff + 4);
    }
  }

  /** So it is for every read-modify-write. */
  lemma RmwAddressWordsAligned(space: map<Addr, bv32>, locn: bv32, aoff: bv8, v: bv32, k: bv8)
    requires 1 <= k <= 3 && aoff & 3 == 0
    ensures AddrWordsAligned(Rmw(space, locn, aoff, v, k).io)
  {
    AlignedWords(locn, aoff);
    AlignedWords(locn, aoff + 4);
  }

  /** And so it is for every write, as written or corrected, whatever the offset. */
  lemma WriteAddressWordsAligned(space: map<Addr, bv32>, locn: bv32, off: bv8, v: bv32)
    ensures AddrWordsAligned(WriteSpec(space, locn, off, v).io)
    ensures AddrWordsAligned(WriteSpecAsWritten(space, locn, off, v).io)
  {
    if off & 3 == 0 {
      AlignedWords(locn, off);
      RmwAddressWordsAligned(space[Addr(WriteAddr(locn, off)) := v], locn, off, v, 1);
    } else {
      RmwAddressWordsAligned(space, locn, off & 0xfc, v, off & 3);
    }
  }

  /** Offsets are bytes: at offsets 0xfd..0xff the second dword is the one at offset 0. */
  lemma SecondDwordWraps(space: map<Addr, bv32>, locn: bv32, off: bv8)
    requires off & 0xfc == 0xfc && off & 3 != 0
    ensures ReadValue(space, locn, off) ==
      Combine(Dword(space, ReadAddr(locn, 0xfc)), Dword(space, ReadAddr(locn, 0)), off & 3)
  {
    assert (off & 0xfc) + 4 == 0;
  }

  /** The configuration-space ports and what lies behind them. */
  class PciHost {
    /** The last address word written to PCI_ADDR. */
    var latch: bv32
    var space: map<Addr, bv32>
    var trace: seq<PortIo>

    constructor(space0: map<Addr, bv32>)
      ensures space == space0 && trace == []
    {
      latch := 0;
      space := space0;
      trace := [];
    }

    /** outpd_w. */
    method OutpdW(port: int, v: bv32)
      modifies this
      ensures latch == (if port == PCI_ADDR then v else old(latch))
      ensures space == (if port == PCI_DATA then old(space)[Addr(old(latch)) := v] else old(space))
      ensures trace == old(trace) + [OutD(port, v)]
    {
      if port == PCI_ADDR {
        latch := v;
      } else if port == PCI_DATA {
        space := space[Addr(latch) := v];
      }
      trace := trace + [OutD(port, v)];
    }

    /** inpd_w at PCI_DATA: the selected dword. */
    method InpdW(port: int) returns (v: bv32)
      requires port == PCI_DATA
      modifies this
      ensures v == Dword(space, latch) && latch == old(latch) && space == old(space)
      ensures trace == old(trace) + [InD(port, v)]
    {
      v := Dword(space, latch);
      trace := trace + [InD(port, v)];
    }

    /** in_pci_d_aligned. */
    method InPciDAligned(locn: bv32, off: bv8) returns (v: bv32)
      modifies this
      ensures v == Dword(space, ReadAddr(locn, off)) && space == old(space)
      ensures trace == old(trace) + AlignedReadIo(old(space), locn, off)
    {
      OutpdW(PCI_ADDR, ReadAddr(locn, off));
      v := InpdW(PCI_DATA);
    }

    /** out_pci_d_aligned. */
    method OutPciDAligned(locn: bv32, off: bv8, v: bv32)
      modifies this
      ensures space == old(space)[Addr(WriteAddr(locn, off)) := v]
      ensures trace == old(trace) + AlignedWriteIo(locn, off, v)
    {
      OutpdW(PCI_ADDR, WriteAddr(locn, off));
      OutpdW(PCI_DATA, v);
    }

    /** in_pci_d_maybe_unaligned. */
    method InPciDMaybeUnaligned(locn: bv32, off: bv8) returns (v: bv32)
      modifies this
      ensures v == ReadValue(old(space), locn, off) && space == old(space)
      ensures trace == old(trace) + ReadIo(old(space), locn, off)
    {
      var aoff := off & 0xfc;
      var k := off & 3;
      if k == 0 {
        v := InPciDAligned(locn, off);
      } else {
        var lo := InPciDAligned(locn, aoff);
        var hi := InPciDAligned(locn, aoff + 4);
        v := Combine(lo, hi, k);
        ghost var a, b := AlignedReadIo(old(space), locn, aoff), AlignedReadIo(old(space), locn, aoff + 4);
        assert trace == old(trace) + a + b;
        assert old(trace) + a + b == old(trace) + (a + b);
      }
    }

    /** The read-modify-write arm of out_pci_d_maybe_unaligned for k = 1, 2, 3. */
    method RmwPair(locn: bv32, aoff: bv8, v: bv32, k: bv8)
      requires 1 <= k <= 3
      modifies this
      ensures space == Rmw(old(space), locn, aoff, v, k).space
      ensures trace == old(trace) + Rmw(old(space), locn, aoff, v, k).io
    {
      var lo := InPciDAligned(locn, aoff);
      OutPciDAligned(locn, aoff, MergeLo(lo, v, k));
      var hi := InPciDAligned(locn, aoff + 4);
      OutPciDAligned(locn, aoff + 4, MergeHi(hi, v, k));
    }

    /** out_pci_d_maybe_unaligned, with the aligned case ending in a `break`. */
    method OutPciDMaybeUnaligned(locn: bv32, off: bv8, v: bv32)
      modifies this
      ensures space == WriteSpec(old(space), locn, off, v).space
      ensures trace == old(trace) + WriteSpec(old(space), locn, off, v).io
    {
      var aoff := off & 0xfc;
      var k := off & 3;
      if k == 0 {
        OutPciDAligned(locn, off, v);
      } else {
        RmwPair(locn, aoff, v, k);
      }
    }

    /** out_pci_d_maybe_unaligned as written, falling through from the aligned case. */
    method OutPciDMaybeUnalignedAsWritten(locn: bv32, off: bv8, v: bv32)
      modifies this
      ensures space == WriteSpecAsWritten(old(space), locn, off, v).space
      ensures trace == old(trace) + WriteSpecAsWritten(old(space), locn, off, v).io
    {
      var aoff := off & 0xfc;
      var k := off & 3;
      if k == 0 {
        ghost var s1 := old(space)[Addr(WriteAddr(locn, off)) := v];
        ghost var r := Rmw(s1, locn, off, v, 1);
        assert WriteSpecAsWritten(old(space), locn, off, v) == WriteEffect(r.space, AlignedWriteIo(locn, off, v) + r.io);
        OutPciDAligned(locn, off, v);
        RmwPair(locn, off, v, 1);
        assert trace == old(trace) + AlignedWriteIo(locn, off, v) + r.io;
      } else {
        RmwPair(locn, aoff, v, k);
      }
    }

    /**
     * in_pci_d: the aligned accessor when the compiler knows the offset is
     * aligned (`constAligned`), the general routine otherwise; both read
     * the same dword with the same port accesses.
     */
    method InPciD(locn: bv32, off: bv8, constAligned: bool) returns (v: bv32)
      modifies this
      ensures v == ReadValue(old(space), locn, off) && space == old(space)
      ensures trace == old(trace) + ReadIo(old(space), locn, off)
    {
      if constAligned && off & 3 == 0 {
        v := InPciDAligned(locn, off);
      } else {
        v := InPciDMaybeUnaligned(locn, off);
      }
    }

    /**
     * out_pci_d: the aligned accessor when the compiler knows the offset is
     * aligned (`constAligned`), otherwise out_pci_d_maybe_unaligned as
     * written, whose aligned case falls through.
     */
    method OutPciD(locn: bv32, off: bv8, v: bv32, constAligned: bool)
      modifies this
      ensures constAligned && off & 3 == 0 ==>
        space == WriteSpec(old(space), locn, off, v).space && trace == old(trace) + WriteSpec(old(space), locn, off, v).io
      ensures !(constAligned && off & 3 == 0) ==>
        space == WriteSpecAsWritten(old(space), locn, off, v).space && trace == old(trace) + WriteSpecAsWritten(old(space), locn, off, v).io
    {
      if constAligned && off & 3 == 0 {
        OutPciDAligned(locn, off, v);
      } else {
        OutPciDMaybeUnalignedAsWritten(locn, off, v);
      }
    }
  }
}
