/**
 * The teletype engine of the early console (stage2/cons.early.c) as
 * functions on its state: the UTF-8 decoder (section 3 of RFC 3629), the
 * cursor with its red zone, and the drawing requests it makes of the
 * frame-buffer routines.  Class ConsEarly.Cons carries out the same steps
 * on the fields of struct cons.
 */
module ConsText {
  import opened ConsBits
  import opened ConsGeom

  /** A byte of output. */
  type byte = c: int | 0 <= c < 0x100

  /** A request made of the draw_char, erase_line_cells and move_line_cells hooks, or the frame-buffer clear. */
  datatype Op =
    | DrawChar(y: int, x: int, wc: int)
    | EraseCells(y: int, x: int, n: int)
    | MoveCells(dy: int, dx: int, sy: int, sx: int, n: int)
    | ZeroFb(len: int)

  /** The cursor, the red-zone flag and the requests made so far. */
  datatype Out = Out(y: int, x: int, redZone: bool, ops: seq<Op>)

  /** The fields of struct cons that writing changes: the output side, the decoder and the colours. */
  datatype Tty = Tty(out: Out, state: TtyState, u8: int, e8: int, fg: bv32, bg: bv32)

  /** CONS_DEFAULT_FG, grey on ... */
  const DEFAULT_FG: bv32 := 0xffaa_aaaa
  /** ... CONS_DEFAULT_BG, black. */
  const DEFAULT_BG: bv32 := 0xff00_0000

  /** Byte values of the characters the engine acts on. */
  const LF: byte := 0x0a
  const ESC: byte := 0x1b

  /** __cons_iscntrl: C0 and C1 controls. */
  predicate IsCntrl(c: byte)
  {
    c <= 0x1f || (0x80 <= c <= 0x9f)
  }

  /** __cons_isascii */
  predicate IsAscii(c: byte)
  {
    c <= 0x7f
  }

  predicate IsContinuation(c: byte)
  {
    0x80 <= c <= 0xbf
  }

  /** The cursor is on the screen. */
  predicate OnScreen(g: Geom, o: Out)
  {
    0 <= o.y < g.yn && 0 <= o.x < g.xn
  }

  /** The screen holds at least one cell. */
  predicate HasCells(g: Geom)
  {
    g.yn >= 1 && g.xn >= 1
  }

  // The line operations

  /** __cons_erase_lines: one whole-line erase per line, top down. */
  function EraseLinesOps(y: int, n: nat, xn: int): (ops: seq<Op>)
    ensures |ops| == n
  {
    seq(n, k => EraseCells(y + k, 0, xn))
  }

  /**
   * __cons_move_lines: one whole-line move per line; top down when the
   * lines move up, bottom up when they move down, nothing when they stay.
   */
  function MoveLinesOps(dst: int, src: int, n: nat, xn: int): (ops: seq<Op>)
    ensures dst != src ==> |ops| == n
    ensures dst == src ==> ops == []
  {
    if dst < src then MoveUpOps(dst, src, n, xn)
    else if dst > src then MoveDownOps(dst, src, n, xn)
    else []
  }

  function MoveUpOps(dst: int, src: int, n: nat, xn: int): (ops: seq<Op>)
    ensures |ops| == n
  {
    seq(n, k => MoveCells(dst + k, 0, src + k, 0, xn))
  }

  function MoveDownOps(dst: int, src: int, n: nat, xn: int): (ops: seq<Op>)
    ensures |ops| == n
  {
    seq(n, k => MoveCells(dst + n - 1 - k, 0, src + n - 1 - k, 0, xn))
  }

  /** __cons_scroll as written: lines 0 .. yn-n-1 are moved to line n on, then the last n lines are erased. */
  function ScrollOpsAsWritten(g: Geom, n: nat): (ops: seq<Op>)
    requires n <= g.yn
  {
    MoveLinesOps(n, 0, g.yn - n, g.xn) + EraseLinesOps(g.yn - n, n, g.xn)
  }

  /** The evidently intended scroll, up by n lines: lines n .. yn-1 are moved to the top, then the last n lines are erased. */
  function ScrollOps(g: Geom, n: nat): (ops: seq<Op>)
    requires n <= g.yn
  {
    MoveLinesOps(0, n, g.yn - n, g.xn) + EraseLinesOps(g.yn - n, n, g.xn)
  }

  // The cursor

  /** __cons_index: down a line, or, on the bottom line, __cons_scroll by one as written. */
  function Index(g: Geom, o: Out): (r: Out)
    requires HasCells(g)
  {
    if o.y < g.yn - 1 then o.(y := o.y + 1)
    else o.(ops := o.ops + ScrollOpsAsWritten(g, 1))
  }

  /** __cons_advance, and __cons_newline which is the same. */
  function Advance(g: Geom, o: Out): (r: Out)
    requires HasCells(g)
  {
    Index(g, o.(redZone := false, x := 0))
  }

  /**
   * __cons_write_glyph for a glyph one cell wide: start a new line when
   * the last glyph filled the line, draw at the cursor and step right,
   * stopping in the red zone of the last column.
   */
  function WriteGlyph(g: Geom, o: Out, wc: int): (r: Out)
    requires HasCells(g)
  {
    var o1 := if o.redZone || o.x + 1 > g.xn then Advance(g, o) else o;
    var o2 := o1.(ops := o1.ops + [DrawChar(o1.y, o1.x, wc)]);
    if o1.x + 1 >= g.xn then o2.(x := g.xn - 1, redZone := true) else o2.(x := o1.x + 1)
  }

  /** The same on the whole state. */
  function Glyph(g: Geom, t: Tty, wc: int): (r: Tty)
    requires HasCells(g)
  {
    t.(out := WriteGlyph(g, t.out, wc))
  }

  /** __cons_reset_output_mode */
  function ResetOutputMode(t: Tty): (r: Tty)
  {
    t.(state := Norm, fg := DEFAULT_FG, bg := DEFAULT_BG)
  }

  /** __cons_full_reset: default output mode, cursor home, and yp * xs bytes of frame buffer cleared. */
  function FullReset(g: Geom, t: Tty): (r: Tty)
  {
    var m := ResetOutputMode(t);
    m.(out := m.out.(y := 0, x := 0, ops := m.out.ops + [ZeroFb(g.yp * g.xs)]))
  }

  // The decoder

  /** __cons_cntrl: only line feed and escape do anything. */
  function Cntrl(g: Geom, t: Tty, c: byte): (r: Tty)
    requires HasCells(g)
  {
    if c == LF then t.(out := Advance(g, t.out))
    else if c == ESC then t.(state := Esc)
    else t
  }

  /**
   * __cons_putch_norm.  A lead byte keeps its payload bits (c & 0x1f,
   * c & 0x0f, c & 0x07, written here as the equal remainders) and the
   * smallest code its length may carry.
   */
  function PutchNorm(g: Geom, t: Tty, c: byte): (r: Tty)
    requires HasCells(g)
  {
    if 0xc2 <= c <= 0xdf then t.(state := Utf81, u8 := c % 0x20, e8 := 0x80)
    else if 0xe0 <= c <= 0xef then t.(state := Utf82, u8 := c % 0x10, e8 := 0x800)
    else if 0xf0 <= c <= 0xf7 then t.(state := Utf83, u8 := c % 0x08, e8 := 0x1_0000)
    else if IsCntrl(c) then Cntrl(g, t, c)
    else if IsAscii(c) then Glyph(g, t, c)
    else Glyph(g, t, UNICODE_BAD)
  }

  /** __cons_putch_reparse: a replacement glyph for the broken sequence, then the byte afresh. */
  function Reparse(g: Geom, t: Tty, c: byte): (r: Tty)
    requires HasCells(g)
  {
    PutchNorm(g, Glyph(g, t, UNICODE_BAD).(state := Norm), c)
  }

  /** The code a last continuation byte completes ((u8 << 6) | (c & 0x3f)). */
  function Completed(u8: int, c: byte): int
  {
    u8 * 0x40 + c % 0x40
  }

  /** An overlong form or a UTF-16 surrogate is replaced by U+FFFD; the code is not checked against U+10FFFF. */
  function Checked(u: int, e8: int): (wc: int)
  {
    if u < e8 then UNICODE_BAD
    else if 0xd800 <= u <= 0xdfff then UNICODE_BAD
    else u
  }

  /** __cons_putch_utf8_1: the last continuation byte. */
  function Utf8One(g: Geom, t: Tty, c: byte): (r: Tty)
    requires HasCells(g)
  {
    if IsContinuation(c) then Glyph(g, t, Checked(Completed(t.u8, c), t.e8)).(state := Norm)
    else Reparse(g, t, c)
  }

  /** __cons_putch_utf8_mid: a continuation byte with more to come; the state steps down by one. */
  function Utf8Mid(g: Geom, t: Tty, c: byte): (r: Tty)
    requires HasCells(g) && 1 <= Ord(t.state)
  {
    if IsContinuation(c) then t.(u8 := Completed(t.u8, c), state := FromOrd(Ord(t.state) - 1))
    else Reparse(g, t, c)
  }

  /** __cons_putch_esc: back to normal, with a full reset for ESC c. */
  function PutchEsc(g: Geom, t: Tty, c: byte): (r: Tty)
  {
    if c == 'c' as int then FullReset(g, t.(state := Norm)) else t.(state := Norm)
  }

  /** One byte through __cons_write's dispatch; the CSI state is treated as normal. */
  function Putch(g: Geom, t: Tty, c: byte): (r: Tty)
    requires HasCells(g)
  {
    match t.state
    case Utf81 => Utf8One(g, t, c)
    case Utf82 => Utf8Mid(g, t, c)
    case Utf83 => Utf8Mid(g, t, c)
    case Esc => PutchEsc(g, t, c)
    case _ => PutchNorm(g, t, c)
  }

  /** __cons_write: the bytes in order. */
  function Write(g: Geom, t: Tty, data: seq<byte>): (r: Tty)
    requires HasCells(g)
    decreases |data|
  {
    if |data| == 0 then t else Write(g, Putch(g, t, data[0]), data[1..])
  }
}
