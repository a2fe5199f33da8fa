/**
 * What the early console's teletype engine (stage2/cons.early.c)
 * promises: the cursor stays on the screen, the red zone defers the line
 * break, UTF-8 sequences are decoded as section 3 of RFC 3629 lays them
 * out, malformed input becomes U+FFFD, and ESC c resets the terminal.
 */
module ConsProps {
  import opened ConsBits
  import opened ConsGeom
  import opened ConsText

  // The cursor

  lemma WriteGlyphOnScreen(g: Geom, o: Out, wc: int)
    requires HasCells(g) && OnScreen(g, o)
    ensures OnScreen(g, WriteGlyph(g, o, wc))
  {
  }

  lemma PutchNormOnScreen(g: Geom, t: Tty, c: byte)
    requires HasCells(g) && OnScreen(g, t.out)
    ensures OnScreen(g, PutchNorm(g, t, c).out)
  {
    WriteGlyphOnScreen(g, t.out, UNICODE_BAD);
    WriteGlyphOnScreen(g, t.out, c);
  }

  lemma ReparseOnScreen(g: Geom, t: Tty, c: byte)
    requires HasCells(g) && OnScreen(g, t.out)
    ensures OnScreen(g, Reparse(g, t, c).out)
  {
    WriteGlyphOnScreen(g, t.out, UNICODE_BAD);
    PutchNormOnScreen(g, Glyph(g, t, UNICODE_BAD).(state := Norm), c);
  }

  lemma PutchOnScreen(g: Geom, t: Tty, c: byte)
    requires HasCells(g) && OnScreen(g, t.out)
    ensures OnScreen(g, Putch(g, t, c).out)
  {
    match t.state
    case Utf81 =>
      ReparseOnScreen(g, t, c);
      WriteGlyphOnScreen(g, t.out, Checked(Completed(t.u8, c), t.e8));
    case Utf82 =>
      ReparseOnScreen(g, t, c);
    case Utf83 =>
      ReparseOnScreen(g, t, c);
    case Esc =>
    case _ =>
      PutchNormOnScreen(g, t, c);
  }

  /** If the screen has a cell, every write leaves the cursor on the screen. */
  lemma {:induction false} WriteOnScreen(g: Geom, t: Tty, data: seq<byte>)
    requires HasCells(g) && OnScreen(g, t.out)
    ensures OnScreen(g, Write(g, t, data).out)
    decreases |data|
  {
    if |data| > 0 {
      PutchOnScreen(g, t, data[0]);
      WriteOnScreen(g, Putch(g, t, data[0]), data[1..]);
    }
  }

  /** A glyph before the last column is drawn at the cursor, which moves one cell right. */
  lemma GlyphMidLine(g: Geom, o: Out, wc: int)
    requires HasCells(g) && OnScreen(g, o) && !o.redZone && o.x + 1 < g.xn
    ensures WriteGlyph(g, o, wc) == o.(x := o.x + 1, ops := o.ops + [DrawChar(o.y, o.x, wc)])
  {
  }

  /** A glyph in the last column is drawn there; the cursor stays, in the red zone. */
  lemma GlyphEntersRedZone(g: Geom, o: Out, wc: int)
    requires HasCells(g) && OnScreen(g, o) && !o.redZone && o.x == g.xn - 1
    ensures WriteGlyph(g, o, wc) == o.(redZone := true, ops := o.ops + [DrawChar(o.y, o.x, wc)])
  {
  }

  /** In the red zone the next glyph first starts a new line (scrolling on the bottom line), then lands in column 0. */
  lemma GlyphLeavesRedZone(g: Geom, o: Out, wc: int)
    requires HasCells(g) && OnScreen(g, o) && o.redZone
    ensures var y := if o.y < g.yn - 1 then o.y + 1 else o.y;
            var scrolled := if o.y < g.yn - 1 then [] else ScrollOpsAsWritten(g, 1);
            WriteGlyph(g, o, wc) ==
              Out(y, if g.xn == 1 then 0 else 1, g.xn == 1, o.ops + scrolled + [DrawChar(y, 0, wc)])
  {
  }

  /** A line feed: column 0, out of the red zone, and down a line or, on the bottom line, a one-line scroll. */
  lemma NewLine(g: Geom, t: Tty)
    requires HasCells(g) && (t.state == Norm || t.state == Csi)
    ensures var scrolled := if t.out.y < g.yn - 1 then [] else ScrollOpsAsWritten(g, 1);
            Putch(g, t, LF) ==
              t.(out := Out(if t.out.y < g.yn - 1 then t.out.y + 1 else t.out.y, 0, false, t.out.ops + scrolled))
  {
  }

  // Stray bytes

  /** Outside a sequence: C1 controls and C0 controls other than LF and ESC do nothing; printable ASCII is drawn; other non-lead bytes draw U+FFFD. */
  lemma StrayBytes(g: Geom, t: Tty, c: byte)
    requires HasCells(g) && t.state == Norm
    ensures 0x80 <= c <= 0x9f ==> Putch(g, t, c) == t
    ensures c <= 0x1f && c != LF && c != ESC ==> Putch(g, t, c) == t
    ensures c == ESC ==> Putch(g, t, c) == t.(state := Esc)
    ensures 0x20 <= c <= 0x7f ==> Putch(g, t, c) == Glyph(g, t, c)
    ensures (0xa0 <= c <= 0xc1 || 0xf8 <= c) ==> Putch(g, t, c) == Glyph(g, t, UNICODE_BAD)
  {
  }

  /** A lead byte only records the sequence: its payload bits and the smallest code its length may carry. */
  lemma LeadBytes(g: Geom, t: Tty, c: byte)
    requires HasCells(g) && t.state == Norm
    ensures 0xc2 <= c <= 0xdf ==> Putch(g, t, c) == t.(state := Utf81, u8 := c - 0xc0, e8 := 0x80)
    ensures 0xe0 <= c <= 0xef ==> Putch(g, t, c) == t.(state := Utf82, u8 := c - 0xe0, e8 := 0x800)
    ensures 0xf0 <= c <= 0xf7 ==> Putch(g, t, c) == t.(state := Utf83, u8 := c - 0xf0, e8 := 0x1_0000)
  {
  }

  /** Inside a sequence, a byte that does not continue it yields U+FFFD and is then taken afresh. */
  lemma BrokenSequence(g: Geom, t: Tty, c: byte)
    requires HasCells(g) && (t.state == Utf81 || t.state == Utf82 || t.state == Utf83) && !IsContinuation(c)
    ensures Putch(g, t, c) == PutchNorm(g, Glyph(g, t, UNICODE_BAD).(state := Norm), c)
  {
  }

  // Escape sequences

  /** ESC c: normal state, default colours, cursor home and the frame buffer cleared; the red zone is left as it was. */
  lemma EscapeReset(g: Geom, t: Tty)
    requires HasCells(g) && t.state == Norm
    ensures Write(g, t, [ESC, 'c' as int]) ==
            t.(state := Norm, fg := DEFAULT_FG, bg := DEFAULT_BG,
               out := t.out.(y := 0, x := 0, ops := t.out.ops + [ZeroFb(g.yp * g.xs)]))
  {
    WriteTwo(g, t, ESC, 'c' as int);
  }

  /** ESC and any other byte: back to normal and nothing else. */
  lemma EscapeOther(g: Geom, t: Tty, c: byte)
    requires HasCells(g) && t.state == Norm && c != 'c' as int
    ensures Write(g, t, [ESC, c]) == t
  {
    WriteTwo(g, t, ESC, c);
  }

  // Decoding

  /** The state after a sequence, forgetting the decoder's scratch values. */
  function Forget(r: Tty, t: Tty): Tty
  {
    r.(u8 := t.u8, e8 := t.e8)
  }

  lemma WriteTwo(g: Geom, t: Tty, a: byte, b: byte)
    requires HasCells(g)
    ensures Write(g, t, [a, b]) == Putch(g, Putch(g, t, a), b)
  {
    assert [a, b][1..] == [b];
    assert Write(g, t, [a, b]) == Write(g, Putch(g, t, a), [b]);
    assert [b][1..] == [];
    assert Write(g, Putch(g, t, a), [b]) == Write(g, Putch(g, Putch(g, t, a), b), []);
  }

  lemma WriteThree(g: Geom, t: Tty, a: byte, b: byte, c: byte)
    requires HasCells(g)
    ensures Write(g, t, [a, b, c]) == Putch(g, Putch(g, Putch(g, t, a), b), c)
  {
    assert [a, b, c][1..] == [b, c];
    assert Write(g, t, [a, b, c]) == Write(g, Putch(g, t, a), [b, c]);
    WriteTwo(g, Putch(g, t, a), b, c);
  }

  lemma WriteFour(g: Geom, t: Tty, a: byte, b: byte, c: byte, d: byte)
    requires HasCells(g)
    ensures Write(g, t, [a, b, c, d]) == Putch(g, Putch(g, Putch(g, Putch(g, t, a), b), c), d)
  {
    assert [a, b, c, d][1..] == [b, c, d];
    assert Write(g, t, [a, b, c, d]) == Write(g, Putch(g, t, a), [b, c, d]);
    WriteThree(g, Putch(g, t, a), b, c, d);
  }

  /** Two bytes: five payload bits then six; the lead bytes C2 to DF cannot make an overlong form. */
  lemma TwoByteSequence(g: Geom, t: Tty, l: byte, a: byte)
    requires HasCells(g) && t.state == Norm && 0xc2 <= l <= 0xdf && IsContinuation(a)
    ensures Write(g, t, [l, a]).state == Norm
    ensures Forget(Write(g, t, [l, a]), t) == Glyph(g, t, (l - 0xc0) * 0x40 + (a - 0x80))
  {
    WriteTwo(g, t, l, a);
    var t1 := Putch(g, t, l);
    assert t1 == t.(state := Utf81, u8 := l - 0xc0, e8 := 0x80);
    assert t1.u8 == l - 0xc0 && t1.e8 == 0x80;
    assert Completed(t1.u8, a) == (l - 0xc0) * 0x40 + (a - 0x80);
  }

  /** Three bytes: four payload bits then six and six, checked against U+0800 and the surrogates. */
  lemma ThreeByteSequence(g: Geom, t: Tty, l: byte, a: byte, b: byte)
    requires HasCells(g) && t.state == Norm && 0xe0 <= l <= 0xef && IsContinuation(a) && IsContinuation(b)
    ensures Write(g, t, [l, a, b]).state == Norm
    ensures Forget(Write(g, t, [l, a, b]), t) ==
            Glyph(g, t, Checked((l - 0xe0) * 0x1000 + (a - 0x80) * 0x40 + (b - 0x80), 0x800))
  {
    WriteThree(g, t, l, a, b);
    var t1 := Putch(g, t, l);
    assert t1 == t.(state := Utf82, u8 := l - 0xe0, e8 := 0x800);
    var t2 := Putch(g, t1, a);
    assert t2 == t1.(u8 := (l - 0xe0) * 0x40 + (a - 0x80), state := Utf81);
    var u := (l - 0xe0) * 0x1000 + (a - 0x80) * 0x40 + (b - 0x80);
    assert Completed(t2.u8, b) == u;
  }

  /** Four bytes: three payload bits then three times six, checked against U+10000 only. */
  lemma FourByteSequence(g: Geom, t: Tty, l: byte, a: byte, b: byte, c: byte)
    requires HasCells(g) && t.state == Norm && 0xf0 <= l <= 0xf7
    requires IsContinuation(a) && IsContinuation(b) && IsContinuation(c)
    ensures Write(g, t, [l, a, b, c]).state == Norm
    ensures Forget(Write(g, t, [l, a, b, c]), t) ==
            Glyph(g, t, Checked((l - 0xf0) * 0x4_0000 + (a - 0x80) * 0x1000 + (b - 0x80) * 0x40 + (c - 0x80), 0x1_0000))
  {
    WriteFour(g, t, l, a, b, c);
    var t1 := Putch(g, t, l);
    assert t1 == t.(state := Utf83, u8 := l - 0xf0, e8 := 0x1_0000);
    var t2 := Putch(g, t1, a);
    assert t2 == t1.(u8 := (l - 0xf0) * 0x40 + (a - 0x80), state := Utf82);
    var t3 := Putch(g, t2, b);
    assert t3 == t2.(u8 := (l - 0xf0) * 0x1000 + (a - 0x80) * 0x40 + (b - 0x80), state := Utf81);
    var u := (l - 0xf0) * 0x4_0000 + (a - 0x80) * 0x1000 + (b - 0x80) * 0x40 + (c - 0x80);
    assert Completed(t3.u8, c) == u;
  }

  /** The UTF-8 encoding of a code below 2^21 (section 3 of RFC 3629, extended to the four-byte lead bytes F5 to F7). */
  function Encode(cp: int): (s: seq<byte>)
    requires 0 <= cp < 0x20_0000
    ensures 1 <= |s| <= 4
  {
    if cp < 0x80 then [cp]
    else if cp < 0x800 then [0xc0 + cp / 0x40, 0x80 + cp % 0x40]
    else if cp < 0x1_0000 then [0xe0 + cp / 0x1000, 0x80 + cp / 0x40 % 0x40, 0x80 + cp % 0x40]
    else [0xf0 + cp / 0x4_0000, 0x80 + cp / 0x1000 % 0x40, 0x80 + cp / 0x40 % 0x40, 0x80 + cp % 0x40]
  }

  /**
   * Every printable code but a surrogate, written in UTF-8, draws exactly
   * that glyph and leaves the decoder in the normal state; codes above
   * U+10FFFF are not rejected.
   */
  lemma EncodedGlyph(g: Geom, t: Tty, cp: int)
    requires HasCells(g) && t.state == Norm
    requires 0x20 <= cp < 0x20_0000 && !(0xd800 <= cp <= 0xdfff)
    ensures Write(g, t, Encode(cp)).state == Norm
    ensures Forget(Write(g, t, Encode(cp)), t) == Glyph(g, t, cp)
  {
    if cp < 0x80 {
      assert Encode(cp)[1..] == [];
    } else if cp < 0x800 {
      EncodedTwo(g, t, cp);
    } else if cp < 0x1_0000 {
      EncodedThree(g, t, cp);
    } else {
      EncodedFour(g, t, cp);
    }
  }

  lemma EncodedTwo(g: Geom, t: Tty, cp: int)
    requires HasCells(g) && t.state == Norm && 0x80 <= cp < 0x800
    ensures Write(g, t, Encode(cp)).state == Norm
    ensures Forget(Write(g, t, Encode(cp)), t) == Glyph(g, t, cp)
  {
    var s := Encode(cp);
    assert s == [s[0], s[1]];
    assert (s[0] as int - 0xc0) * 0x40 + (s[1] as int - 0x80) == cp;
    TwoByteSequence(g, t, s[0], s[1]);
  }

  lemma EncodedThree(g: Geom, t: Tty, cp: int)
    requires HasCells(g) && t.state == Norm && 0x800 <= cp < 0x1_0000 && !(0xd800 <= cp <= 0xdfff)
    ensures Write(g, t, Encode(cp)).state == Norm
    ensures Forget(Write(g, t, Encode(cp)), t) == Glyph(g, t, cp)
  {
    var s := Encode(cp);
    assert s == [s[0], s[1], s[2]];
    Digits3(cp);
    ThreeByteSequence(g, t, s[0], s[1], s[2]);
  }

  lemma EncodedFour(g: Geom, t: Tty, cp: int)
    requires HasCells(g) && t.state == Norm && 0x1_0000 <= cp < 0x20_0000
    ensures Write(g, t, Encode(cp)).state == Norm
    ensures Forget(Write(g, t, Encode(cp)), t) == Glyph(g, t, cp)
  {
    var s := Encode(cp);
    assert s == [s[0], s[1], s[2], s[3]];
    Digits4(cp);
    FourByteSequence(g, t, s[0], s[1], s[2], s[3]);
  }

  lemma Digits3(cp: int)
    requires 0 <= cp < 0x1_0000
    ensures (cp / 0x1000) * 0x1000 + (cp / 0x40 % 0x40) * 0x40 + cp % 0x40 == cp
  {
    assert cp / 0x40 == (cp / 0x1000) * 0x40 + cp / 0x40 % 0x40;
  }

  lemma Digits4(cp: int)
    requires 0 <= cp < 0x20_0000
    ensures (cp / 0x4_0000) * 0x4_0000 + (cp / 0x1000 % 0x40) * 0x1000 + (cp / 0x40 % 0x40) * 0x40 + cp % 0x40 == cp
  {
    assert cp / 0x40 == (cp / 0x1000) * 0x40 + cp / 0x40 % 0x40;
    assert cp / 0x1000 == (cp / 0x4_0000) * 0x40 + cp / 0x1000 % 0x40;
    assert cp / 0x1000 == cp / 0x40 / 0x40;
    assert cp / 0x4_0000 == cp / 0x1000 / 0x40;
  }

  /** Overlong forms and encoded surrogates draw U+FFFD. */
  lemma MalformedSequences(g: Geom, t: Tty)
    requires HasCells(g) && t.state == Norm
    ensures Forget(Write(g, t, [0xe0, 0x9f, 0xbf]), t) == Glyph(g, t, UNICODE_BAD)
    ensures Forget(Write(g, t, [0xf0, 0x8f, 0xbf, 0xbf]), t) == Glyph(g, t, UNICODE_BAD)
    ensures Forget(Write(g, t, [0xed, 0xa0, 0x80]), t) == Glyph(g, t, UNICODE_BAD)
    ensures Forget(Write(g, t, [0xed, 0xbf, 0xbf]), t) == Glyph(g, t, UNICODE_BAD)
  {
    ThreeByteSequence(g, t, 0xe0, 0x9f, 0xbf);
    FourByteSequence(g, t, 0xf0, 0x8f, 0xbf, 0xbf);
    ThreeByteSequence(g, t, 0xed, 0xa0, 0x80);
    ThreeByteSequence(g, t, 0xed, 0xbf, 0xbf);
  }

  /** F4 90 80 80, one past U+10FFFF, is drawn as the code 0x110000. */
  lemma BeyondUnicode(g: Geom, t: Tty)
    requires HasCells(g) && t.state == Norm
    ensures Encode(0x11_0000) == [0xf4, 0x90, 0x80, 0x80]
    ensures Forget(Write(g, t, [0xf4, 0x90, 0x80, 0x80]), t) == Glyph(g, t, 0x11_0000)
  {
    FourByteSequence(g, t, 0xf4, 0x90, 0x80, 0x80);
  }
}
