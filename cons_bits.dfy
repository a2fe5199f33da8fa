/**
 * Shared console definitions (macron2/cons.h): the teletype states, the
 * replacement character, the assumed glyph size, and the MSB-first bit
 * reader the glyph renderer uses on the font bitmaps (its portable
 * branch).
 */
module ConsBits {
  /** enum cons_tty_state, in declaration order. */
  datatype TtyState = Norm | Utf81 | Utf82 | Utf83 | Esc | Csi

  /** The enumerator's value. */
  function Ord(s: TtyState): (n: nat)
    ensures n < 6
  {
    match s
    case Norm => 0
    case Utf81 => 1
    case Utf82 => 2
    case Utf83 => 3
    case Esc => 4
    case Csi => 5
  }

  /** The state with a given value. */
  function FromOrd(n: nat): (s: TtyState)
    requires n < 6
    ensures Ord(s) == n
  {
    if n == 0 then Norm else if n == 1 then Utf81 else if n == 2 then Utf82
    else if n == 3 then Utf83 else if n == 4 then Esc else Csi
  }

  /** The three UTF-8 continuation states are consecutive, so decrementing goes 3, 2, 1. */
  lemma Utf8StatesConsecutive()
    ensures Ord(Utf82) == Ord(Utf81) + 1 && Ord(Utf83) == Ord(Utf82) + 1
    ensures FromOrd(Ord(Utf83) - 1) == Utf82 && FromOrd(Ord(Utf82) - 1) == Utf81
  {
    assert Ord(FromOrd(2)) == 2;
  }

  /** UNICODE_BAD: U+FFFD REPLACEMENT CHARACTER. */
  const UNICODE_BAD: int := 0xfffd

  /** The default font has 95 glyphs of 13 rows of one byte each. */
  const FONT_GLYPHS: nat := 95
  const FONT_ROWS: nat := 13
  const FONT_ROW_BYTES: nat := 1

  /** CONS_ASSUME_CHAR_HEIGHT_PX is the number of rows of a glyph ... */
  const CHAR_HEIGHT_PX: nat := FONT_ROWS

  /** ... and CONS_ASSUME_CHAR_WIDTH_PX the number of bits in one of its rows. */
  const CHAR_WIDTH_PX: nat := FONT_ROW_BYTES * 8

  lemma GlyphSize()
    ensures CHAR_HEIGHT_PX == 13 && CHAR_WIDTH_PX == 8
  {
  }

  // The bit reader

  /** Bit k (0 the least significant) of a byte. */
  predicate BitOf(b: bv8, k: nat)
    requires k < 8
  {
    (b >> k) & 1 == 1
  }

  /**
   * The accumulator after j bits of byte b have been handed out: the bits
   * still to come at the top, then the sentinel 1 just below them.  With
   * all eight gone only the sentinel remains, at the top: 0x80.
   */
  function Accum(b: bv8, j: nat): (a: bv8)
    requires 1 <= j <= 8
  {
    if j == 8 then 0x80 else (b << j) | (1 << (j - 1))
  }

  /** __get1b: one bit, fetching the next byte when only the sentinel is left. */
  function Get1b(accum: bv8, stream: nat, data: seq<bv8>): (r: (bool, bv8, nat))
    requires accum == 0x80 ==> stream < |data|
  {
    if accum == 0x80 then
      var a := data[stream];
      ((a & 0x80) != 0, (a << 1) | 1, stream + 1)
    else
      ((accum & 0x80) != 0, accum << 1, stream)
  }

  lemma AccumFetch(b: bv8)
    ensures (b << 1) | 1 == Accum(b, 1) && Accum(b, 1) != 0x80
    ensures ((b & 0x80) != 0) == BitOf(b, 7)
  {
  }

  lemma AccumStep(b: bv8, j: nat)
    requires 1 <= j < 8
    ensures Accum(b, j) != 0x80
    ensures Accum(b, j) << 1 == Accum(b, j + 1)
    ensures ((Accum(b, j) & 0x80) != 0) == BitOf(b, 7 - j)
  {
    if j == 1 {
    } else if j == 2 {
    } else if j == 3 {
    } else if j == 4 {
    } else if j == 5 {
    } else if j == 6 {
    } else {
    }
  }

  /** Call n - 1 and call n read the same byte. */
  lemma SameByte(n: nat)
    requires n >= 2 && (n - 1) % 8 != 0
    ensures (n - 2) / 8 == (n - 1) / 8 && (n - 2) % 8 + 1 == (n - 1) % 8 && (n + 6) / 8 == (n + 7) / 8
  {
  }

  /** Call n starts a new byte. */
  lemma NextByte(n: nat)
    requires n >= 1 && (n == 1 || (n - 1) % 8 == 0)
    ensures (n - 1) % 8 == 0 && (n + 6) / 8 == (n - 1) / 8 && (n + 7) / 8 == (n - 1) / 8 + 1
    ensures n >= 2 ==> (n - 2) % 8 + 1 == 8
  {
  }

  /** The bits, accumulator and stream position after n calls from __init1b. */
  function ReadN(data: seq<bv8>, n: nat): (r: (seq<bool>, bv8, nat))
    requires n <= 8 * |data|
    ensures |r.0| == n && r.2 == (n + 7) / 8
    ensures r.1 == if n == 0 then 0x80 else Accum(data[(n - 1) / 8], (n - 1) % 8 + 1)
  {
    if n == 0 then ([], 0x80, 0)
    else
      var prev := ReadN(data, n - 1);
      if n - 1 > 0 && (n - 1) % 8 != 0 then
        SameByte(n);
        AccumStep(data[(n - 2) / 8], (n - 2) % 8 + 1);
        var step := Get1b(prev.1, prev.2, data);
        (prev.0 + [step.0], step.1, step.2)
      else
        NextByte(n);
        AccumFetch(data[(n - 1) / 8]);
        var step := Get1b(prev.1, prev.2, data);
        (prev.0 + [step.0], step.1, step.2)
  }

  /**
   * From __init1b, the n-th call of __get1b hands out bit 7 - n mod 8 of
   * byte n / 8: the bits of the stream MSB first; so 8k calls read exactly
   * the first k bytes.
   */
  lemma ReadMsbFirst(data: seq<bv8>, n: nat)
    requires n <= 8 * |data|
    ensures forall i :: 0 <= i < n ==> ReadN(data, n).0[i] == BitOf(data[i / 8], 7 - i % 8)
  {
    forall i | 0 <= i < n
      ensures ReadN(data, n).0[i] == BitOf(data[i / 8], 7 - i % 8)
    {
      BitAt(data, n, i);
    }
  }

  /** Bit i, once handed out, stays in place in every longer read. */
  lemma {:induction false} BitAt(data: seq<bv8>, n: nat, i: nat)
    requires i < n <= 8 * |data|
    ensures ReadN(data, n).0[i] == BitOf(data[i / 8], 7 - i % 8)
    decreases n
  {
    if i == n - 1 {
      LastBit(data, n);
    } else {
      BitAt(data, n - 1, i);
      PrefixKept(data, n, i);
    }
  }

  lemma PrefixKept(data: seq<bv8>, n: nat, i: nat)
    requires i < n - 1 && n <= 8 * |data|
    ensures ReadN(data, n).0[i] == ReadN(data, n - 1).0[i]
  {
  }

  /** After 8k calls the accumulator holds the sentinel alone and exactly k bytes have been fetched. */
  lemma ReadWholeBytes(data: seq<bv8>, k: nat)
    requires k <= |data|
    ensures ReadN(data, 8 * k).1 == 0x80 && ReadN(data, 8 * k).2 == k
  {
    if k > 0 {
      assert (8 * k - 1) % 8 + 1 == 8;
      assert (8 * k + 7) / 8 == k;
    }
  }

  /** The n-th call hands out bit 7 - (n - 1) mod 8 of byte (n - 1) / 8. */
  lemma LastBit(data: seq<bv8>, n: nat)
    requires 0 < n <= 8 * |data|
    ensures ReadN(data, n).0[n - 1] == BitOf(data[(n - 1) / 8], 7 - (n - 1) % 8)
  {
    var k := n - 1;
    var prev := ReadN(data, k);
    assert ReadN(data, n).0[k] == Get1b(prev.1, prev.2, data).0;
    if k % 8 != 0 {
      LastBitMid(data, k);
    } else {
      LastBitFetch(data, k);
    }
  }

  lemma LastBitMid(data: seq<bv8>, k: nat)
    requires k < 8 * |data| && k % 8 != 0
    ensures Get1b(ReadN(data, k).1, ReadN(data, k).2, data).0 == BitOf(data[k / 8], 7 - k % 8)
  {
    assert (k - 1) / 8 == k / 8 && (k - 1) % 8 + 1 == k % 8;
    AccumStep(data[k / 8], k % 8);
  }

  lemma LastBitFetch(data: seq<bv8>, k: nat)
    requires k < 8 * |data| && k % 8 == 0
    ensures Get1b(ReadN(data, k).1, ReadN(data, k).2, data).0 == BitOf(data[k / 8], 7 - k % 8)
  {
    assert ReadN(data, k).2 == k / 8;
    AccumFetch(data[k / 8]);
  }

  /** The sentinel 0x80 is in the accumulator exactly at byte boundaries, so a byte is fetched only then. */
  lemma SentinelAtBoundaries(data: seq<bv8>, n: nat)
    requires n <= 8 * |data|
    ensures (ReadN(data, n).1 == 0x80) <==> n % 8 == 0
  {
    if n > 0 && (n - 1) % 8 + 1 < 8 {
      AccumStep(data[(n - 1) / 8], (n - 1) % 8 + 1);
    }
  }

  /** The two variables __get1b works on through its pointers. */
  class BitReader {
    var accum: bv8
    var stream: nat
    const data: seq<bv8>

    constructor (data: seq<bv8>)
      ensures this.data == data && stream == 0
    {
      this.data := data;
      stream := 0;
    }

    /** __init1b */
    method Init1b()
      modifies this
      ensures accum == 0x80 && stream == old(stream)
    {
      accum := 0x80;
    }

    /** __get1b, portable branch. */
    method Get1bStep() returns (c: bool)
      requires accum == 0x80 ==> stream < |data|
      modifies this
      ensures (c, accum, stream) == Get1b(old(accum), old(stream), data)
    {
      var a := accum;
      if a == 0x80 {
        a := data[stream];
        stream := stream + 1;
        c := (a & 0x80) != 0;
        a := (a << 1) | 1;
      } else {
        c := (a & 0x80) != 0;
        a := a << 1;
      }
      accum := a;
    }
  }
}
