/**
 * Little-endian fields in byte buffers, and the byte sums that the MP
 * and ACPI tables are checksummed with.
 */
module Bytes {
  import opened Common

  /** The 16-bit little-endian field at offset i. */
  function Le16(b: seq<u8>, i: int): (v: u16)
    requires 0 <= i && i + 2 <= |b|
  {
    (b[i] as int) + (b[i + 1] as int) * 0x100
  }

  /** The 32-bit little-endian field at offset i. */
  function Le32(b: seq<u8>, i: int): (v: u32)
    requires 0 <= i && i + 4 <= |b|
  {
    Le16(b, i) + Le16(b, i + 2) * 0x1_0000
  }

  /** A 16-bit value as it is stored, low byte first. */
  function Le16Bytes(v: u16): (b: seq<u8>)
    ensures |b| == 2 && Le16(b, 0) == v
  {
    [v % 0x100, v / 0x100]
  }

  /** A 32-bit value as it is stored, low byte first. */
  function Le32Bytes(v: u32): (b: seq<u8>)
    ensures |b| == 4 && Le32(b, 0) == v
  {
    var b := Le16Bytes(v % 0x1_0000) + Le16Bytes(v / 0x1_0000);
    assert Le16(b, 0) == v % 0x1_0000 && Le16(b, 2) == v / 0x1_0000;
    b
  }

  /** A field read back from anywhere inside a larger buffer. */
  lemma Le16At(pre: seq<u8>, v: u16, post: seq<u8>)
    ensures Le16(pre + Le16Bytes(v) + post, |pre|) == v
  {
    var b := pre + Le16Bytes(v) + post;
    assert b[|pre|] == Le16Bytes(v)[0] && b[|pre| + 1] == Le16Bytes(v)[1];
  }

  lemma Le32At(pre: seq<u8>, v: u32, post: seq<u8>)
    ensures Le32(pre + Le32Bytes(v) + post, |pre|) == v
  {
    var w := Le32Bytes(v);
    var b := pre + w + post;
    assert b[|pre|..|pre| + 4] == w;
    assert b[|pre|] == w[0] && b[|pre| + 1] == w[1] && b[|pre| + 2] == w[2] && b[|pre| + 3] == w[3];
  }

  /** The sum of the bytes, as an unbounded integer. */
  function Sum(s: seq<u8>): (n: int)
    ensures n >= 0
  {
    if |s| == 0 then 0 else Sum(s[..|s| - 1]) + s[|s| - 1]
  }

  lemma {:induction false} SumAppend(a: seq<u8>, b: seq<u8>)
    ensures Sum(a + b) == Sum(a) + Sum(b)
    decreases |b|
  {
    if |b| == 0 {
      assert a + b == a;
    } else {
      assert (a + b)[..|a + b| - 1] == a + b[..|b| - 1];
      SumAppend(a, b[..|b| - 1]);
    }
  }

  /** Replacing one byte changes the sum by the difference. */
  lemma SumUpdate(s: seq<u8>, i: int, v: u8)
    requires 0 <= i < |s|
    ensures Sum(s[i := v]) == Sum(s) - s[i] + v
  {
    assert s == s[..i] + [s[i]] + s[i + 1..];
    assert s[i := v] == s[..i] + [v] + s[i + 1..];
    SumAppend(s[..i] + [s[i]], s[i + 1..]);
    SumAppend(s[..i], [s[i]]);
    SumAppend(s[..i] + [v], s[i + 1..]);
    SumAppend(s[..i], [v]);
    assert Sum([s[i]]) == s[i] by { assert [s[i]][..0] == []; }
    assert Sum([v]) == v by { assert [v][..0] == []; }
  }

  /** A buffer checksums to zero: its byte sum is a multiple of 256. */
  predicate SumsToZero(s: seq<u8>)
  {
    Sum(s) % 0x100 == 0
  }
}
