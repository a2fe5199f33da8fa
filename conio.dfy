/**
 * Stage 2's console output (stage2/conio.c): the formatter's characters
 * go through a 256-byte buffer, with a carriage return put before every
 * line feed, and each full buffer (and, if formatting succeeds, the last
 * partial one) is handed to the 16-bit outmem routine in one call, through
 * the transfer buffer tb16.
 *
 * The formatter itself is not part of this model: its output is an
 * arbitrary character sequence and its result an arbitrary integer.
 */
module Conio {
  /** TB_SZ: the size of the transfer buffer and of the local buffer. */
  const TB_SZ: nat := 0x100

  /** The character sequence the 16-bit side receives for a formatter output: CR before every LF. */
  function Crlf(s: string): (t: string)
    ensures |t| >= |s|
  {
    if |s| == 0 then [] else (if s[0] == '\n' then "\r\n" else [s[0]]) + Crlf(s[1..])
  }

  lemma {:induction false} CrlfAppend(a: string, b: string)
    ensures Crlf(a + b) == Crlf(a) + Crlf(b)
    decreases |a|
  {
    if |a| == 0 {
      assert a + b == b;
    } else {
      assert (a + b)[0] == a[0];
      assert (a + b)[1..] == a[1..] + b;
      CrlfAppend(a[1..], b);
    }
  }

  /** Every line feed that arrives is preceded immediately by a carriage return ... */
  lemma {:induction false} CrlfPairs(s: string)
    ensures forall i :: 0 <= i < |Crlf(s)| && Crlf(s)[i] == '\n' ==> 0 < i && Crlf(s)[i - 1] == '\r'
    decreases |s|
  {
    if |s| > 0 {
      CrlfPairs(s[1..]);
      var head := if s[0] == '\n' then "\r\n" else [s[0]];
      assert Crlf(s) == head + Crlf(s[1..]);
      forall i | 0 <= i < |Crlf(s)| && Crlf(s)[i] == '\n'
        ensures 0 < i && Crlf(s)[i - 1] == '\r'
      {
        if i >= |head| {
          assert Crlf(s)[i] == Crlf(s[1..])[i - |head|];
          if i - |head| > 0 {
            assert Crlf(s)[i - 1] == Crlf(s[1..])[i - 1 - |head|];
          }
        }
      }
    }
  }

  /** ... and dropping the inserted carriage returns gives back what the formatter wrote. */
  function DropCr(t: string): (s: string)
  {
    if |t| == 0 then []
    else if |t| >= 2 && t[0] == '\r' && t[1] == '\n' then "\n" + DropCr(t[2..])
    else [t[0]] + DropCr(t[1..])
  }

  lemma {:induction false} CrlfDropCr(s: string)
    ensures DropCr(Crlf(s)) == s
    decreases |s|
  {
    if |s| > 0 {
      CrlfDropCr(s[1..]);
      var head := if s[0] == '\n' then "\r\n" else [s[0]];
      var t := Crlf(s);
      assert t == head + Crlf(s[1..]);
      if s[0] == '\n' {
        assert t[2..] == Crlf(s[1..]);
      } else {
        assert t[1..] == Crlf(s[1..]);
        if s[0] == '\r' && |t| >= 2 && t[1] == '\n' {
          CrlfNoLoneLf(s[1..]);
        }
      }
      assert s == [s[0]] + s[1..];
    }
  }

  /** The translation never starts with a line feed, because one always has a CR in front. */
  lemma CrlfNoLoneLf(s: string)
    ensures |Crlf(s)| > 0 ==> Crlf(s)[0] != '\n'
  {
  }

  /** The chunks handed over, joined in order. */
  function Flatten(chunks: seq<string>): (s: string)
  {
    if |chunks| == 0 then [] else Flatten(chunks[..|chunks| - 1]) + chunks[|chunks| - 1]
  }

  lemma FlattenSnoc(chunks: seq<string>, c: string)
    ensures Flatten(chunks + [c]) == Flatten(chunks) + c
  {
    assert (chunks + [c])[..|chunks|] == chunks;
  }

  /** Every chunk is a full buffer. */
  predicate Full(chunks: seq<string>)
  {
    forall k :: 0 <= k < |chunks| ==> |chunks[k]| == TB_SZ
  }

  lemma {:induction false} FullLength(chunks: seq<string>)
    requires Full(chunks)
    ensures |Flatten(chunks)| == TB_SZ * |chunks|
    decreases |chunks|
  {
    if |chunks| > 0 {
      FullLength(chunks[..|chunks| - 1]);
    }
  }

  /** struct our_pf_ctx: the fill position, the buffer, and the chunks handed to outmem_1 so far. */
  class PfCtx {
    var pos: nat
    const buf: array<char>
    var flushed: seq<string>

    predicate Valid()
      reads this
    {
      buf.Length == TB_SZ && pos <= TB_SZ && Full(flushed)
    }

    /** Everything put so far: what was handed over, then what waits in the buffer. */
    function Written(): (s: string)
      reads this, buf
      requires Valid()
    {
      Flatten(flushed) + buf[..pos]
    }

    constructor ()
      ensures Valid() && pos == 0 && flushed == [] && fresh(buf)
    {
      pos := 0;
      buf := new char[TB_SZ];
      flushed := [];
    }

    /** our_putc_1: hand over a full buffer first, then store the character. */
    method PutC1(c: char)
      requires Valid()
      modifies this, buf
      ensures Valid() && Written() == old(Written()) + [c] && pos >= 1
      ensures old(pos) >= TB_SZ ==> flushed == old(flushed) + [old(buf[..])] && pos == 1
      ensures old(pos) < TB_SZ ==> flushed == old(flushed) && pos == old(pos) + 1
    {
      if pos >= TB_SZ {
        assert buf[..] == buf[..pos];
        FlattenSnoc(flushed, buf[..]);
        flushed := flushed + [buf[..]];
        pos := 0;
      }
      buf[pos] := c;
      pos := pos + 1;
      assert buf[..pos] == old(buf[..pos]) + [c] || old(pos) >= TB_SZ;
    }

    /** our_putc: a line feed is preceded by a carriage return. */
    method PutC(c: char)
      requires Valid()
      modifies this, buf
      ensures Valid() && Written() == old(Written()) + Crlf([c]) && pos >= 1
    {
      if c == '\n' {
        PutC1('\r');
      }
      PutC1(c);
    }
  }

  /**
   * vcprintf, with `out` the formatter's characters and `res` its result:
   * returns the chunks handed to the 16-bit side, in order.  When
   * formatting succeeds they make up the whole translated output; when it
   * fails, the last 1 to 256 characters are never handed over.
   */
  method Vcprintf(out: string, res: int) returns (chunks: seq<string>)
    ensures forall k :: 0 <= k < |chunks| ==> 1 <= |chunks[k]| <= TB_SZ
    ensures res >= 0 ==> Flatten(chunks) == Crlf(out)
    ensures |chunks| > 0 ==> Full(chunks[..|chunks| - 1])
    ensures res < 0 ==> Full(chunks) && |Flatten(chunks)| <= |Crlf(out)| && Flatten(chunks) == Crlf(out)[..|Flatten(chunks)|]
    ensures res < 0 && |out| > 0 ==> |Crlf(out)| - TB_SZ <= |Flatten(chunks)| < |Crlf(out)|
    ensures res < 0 && |out| == 0 ==> chunks == []
  {
    var ctx := new PfCtx();
    var i := 0;
    while i < |out|
      invariant 0 <= i <= |out|
      invariant ctx.Valid() && fresh(ctx.buf)
      invariant ctx.Written() == Crlf(out[..i])
      invariant i > 0 ==> ctx.pos >= 1
      invariant i == 0 ==> ctx.pos == 0 && ctx.flushed == []
    {
      CrlfAppend(out[..i], [out[i]]);
      assert out[..i + 1] == out[..i] + [out[i]];
      ctx.PutC(out[i]);
      i := i + 1;
    }
    assert out[..i] == out;
    chunks := ctx.flushed;
    if res >= 0 && ctx.pos != 0 {
      FlattenSnoc(chunks, ctx.buf[..ctx.pos]);
      chunks := chunks + [ctx.buf[..ctx.pos]];
    }
    FullLength(ctx.flushed);
  }

  /** cputs: cprintf("%s", str); the %s conversion writes the string itself. */
  method Cputs(str: string) returns (chunks: seq<string>)
    ensures Flatten(chunks) == Crlf(str)
    ensures forall k :: 0 <= k < |chunks| ==> 1 <= |chunks[k]| <= TB_SZ
  {
    chunks := Vcprintf(str, |str|);
  }

  /** putch: cprintf("%c", ch). */
  method Putch(ch: char) returns (chunks: seq<string>)
    ensures Flatten(chunks) == Crlf([ch])
    ensures |chunks| == 1 && chunks[0] == if ch == '\n' then "\r\n" else [ch]
  {
    chunks := Vcprintf([ch], 1);
    assert [ch][1..] == [];
    assert |Crlf([ch])| <= 2;
    ChunkCount(chunks);
    assert |chunks| == 1;
    assert chunks[..0] == [];
    assert Flatten(chunks) == Flatten(chunks[..0]) + chunks[0];
    assert Crlf([ch]) == (if ch == '\n' then "\r\n" else [ch]) + Crlf([ch][1..]);
    assert Crlf([ch][1..]) == [];
    assert Flatten(chunks[..0]) == [];
    assert chunks[0] == Flatten(chunks);
    assert Crlf([ch]) == (if ch == '\n' then "\r\n" else [ch]);
  }

  /** Chunks that are all full but the last, which is not empty, hold more than a full buffer per extra chunk. */
  lemma ChunkCount(chunks: seq<string>)
    requires forall k :: 0 <= k < |chunks| ==> 1 <= |chunks[k]|
    requires |chunks| > 0 ==> Full(chunks[..|chunks| - 1])
    ensures |chunks| > 0 ==> |Flatten(chunks)| >= TB_SZ * (|chunks| - 1) + 1
  {
    if |chunks| > 0 {
      FullLength(chunks[..|chunks| - 1]);
    }
  }
}
