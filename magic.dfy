/**
 * Four-character tags that label boot-parameter records (common.h).
 * MAGIC32 packs four characters little-endian, each first truncated to
 * an unsigned byte, so the tag reads as the four characters in memory.
 */
module Magic {
  import opened Common

  /** `(unsigned char)c`: conversion to unsigned is reduction modulo 2^8. */
  function Truncate8(c: int): (b: u8)
    ensures 0 <= c < 0x100 ==> b == c
  {
    c % 0x100
  }

  /** MAGIC32(a, b, c, d). */
  function Magic32(a: int, b: int, c: int, d: int): (m: u32)
  {
    Pack4(Truncate8(a), Truncate8(b), Truncate8(c), Truncate8(d))
  }

  /** Four bytes as a little-endian 32-bit word. */
  function Pack4(b0: u8, b1: u8, b2: u8, b3: u8): (m: u32)
  {
    b0 + b1 * 0x100 + b2 * 0x1_0000 + b3 * 0x100_0000
  }

  /** Byte k (0 = lowest) of a 32-bit word. */
  function ByteOf(m: u32, k: nat): (b: u8)
    requires k < 4
  {
    if k == 0 then m % 0x100
    else if k == 1 then (m / 0x100) % 0x100
    else if k == 2 then (m / 0x1_0000) % 0x100
    else m / 0x100_0000
  }

  /** Every byte of a packed word is the corresponding packed byte. */
  lemma Pack4Bytes(b0: u8, b1: u8, b2: u8, b3: u8)
    ensures ByteOf(Pack4(b0, b1, b2, b3), 0) == b0
    ensures ByteOf(Pack4(b0, b1, b2, b3), 1) == b1
    ensures ByteOf(Pack4(b0, b1, b2, b3), 2) == b2
    ensures ByteOf(Pack4(b0, b1, b2, b3), 3) == b3
  {
    var m := Pack4(b0, b1, b2, b3);
    var hi3 := b1 + b2 * 0x100 + b3 * 0x1_0000;
    assert m == b0 + hi3 * 0x100;
    DivModUnique(m, 0x100, hi3, b0);
    var hi2 := b2 + b3 * 0x100;
    assert hi3 == b1 + hi2 * 0x100;
    DivModUnique(hi3, 0x100, hi2, b1);
    DivModUnique(hi2, 0x100, b3, b2);
    DivDiv(m, 0x100, 0x100);
    DivDiv(m, 0x1_0000, 0x100);
  }

  /** Byte k of MAGIC32 is the k-th argument truncated to unsigned char. */
  lemma Magic32Bytes(a: int, b: int, c: int, d: int)
    ensures ByteOf(Magic32(a, b, c, d), 0) == Truncate8(a)
    ensures ByteOf(Magic32(a, b, c, d), 1) == Truncate8(b)
    ensures ByteOf(Magic32(a, b, c, d), 2) == Truncate8(c)
    ensures ByteOf(Magic32(a, b, c, d), 3) == Truncate8(d)
  {
    Pack4Bytes(Truncate8(a), Truncate8(b), Truncate8(c), Truncate8(d));
  }

  /** On byte-sized characters MAGIC32 is injective. */
  lemma Magic32Injective(a: u8, b: u8, c: u8, d: u8, a': u8, b': u8, c': u8, d': u8)
    requires Magic32(a, b, c, d) == Magic32(a', b', c', d')
    ensures a == a' && b == b' && c == c' && d == d'
  {
    Magic32Bytes(a, b, c, d);
    Magic32Bytes(a', b', c', d');
  }

  /** Record holding a PCI device's location and option ROM. */
  const BP_PCID: u32 := Magic32('P' as int, 'C' as int, 'I' as int, 'D' as int)
  /** Record holding the base-memory bounds handed to stage 2. */
  const BP_BMEM: u32 := Magic32('b' as int, 'M' as int, 'E' as int, 'M' as int)

  lemma TagValues()
    ensures BP_PCID == 0x4449_4350
    ensures BP_BMEM == 0x4d45_4d62
  {
  }

  /** The two tags differ, so a record's kind is never ambiguous. */
  lemma TagsDistinct()
    ensures BP_PCID != BP_BMEM
  {
    Magic32Bytes('P' as int, 'C' as int, 'I' as int, 'D' as int);
    Magic32Bytes('b' as int, 'M' as int, 'E' as int, 'M' as int);
  }
}
