/**
 * The early console of stage 2 (stage2/cons.early.c): struct cons as a
 * class whose methods make the same field updates, in the same order, as
 * the C routines, each proved to agree with the teletype functions of
 * ConsText.  The drawing hooks are recorded as requests (field ops), not
 * carried out on pixels.
 */
module ConsEarly {
  import opened Common
  import opened ConsBits
  import opened ConsGeom
  import opened ConsText

  /** Which family of drawing routines __cons_set_type installed, if any. */
  datatype Hooks = NoHooks | Klog16 | Klog32

  /** __cons_set_type's choice: the 16-bit routines for exactly the two-byte pixel types. */
  function HooksFor(t: ConsType): (h: Hooks)
    ensures h != NoHooks
    ensures h == Klog16 <==> BytesPerPixel(t) == 2
  {
    match t
    case Bgr565 => Klog16
    case Bgr555 => Klog16
    case _ => Klog32
  }

  /** __early_map_memory: a constant offset into the upper half of the address space. */
  const BANE: int := 0xffff_8000_0000_0000

  function EarlyMap(where: int): (p: int)
    ensures 0 <= p < U64_MOD
  {
    (BANE + where) % U64_MOD
  }

  /** struct boot_reserve, with the graphics mode the "video" reserve's memory holds. */
  datatype Reserve = Reserve(name: string, video: VideoInfo)

  const VIDEO: string := "video"

  predicate HasVideoFrom(rs: seq<Reserve>, from: nat)
  {
    exists j :: from <= j < |rs| && rs[j].name == VIDEO
  }

  /** The index the reserve search stops at: the first "video" entry from the start. */
  function FindVideo(rs: seq<Reserve>, from: nat): (k: nat)
    requires HasVideoFrom(rs, from)
    ensures from <= k < |rs| && rs[k].name == VIDEO
    ensures forall j :: from <= j < k ==> rs[j].name != VIDEO
    decreases |rs| - from
  {
    if rs[from].name == VIDEO then from else FindVideo(rs, from + 1)
  }

  /** size_t is 32 bits wide in stage 2. */
  const SIZE_MOD: int := 0x1_0000_0000

  /** struct cons: the screen, the cursor, the decoder and the hooks. */
  class Cons {
    var y: int
    var x: int
    var yn: int
    var xn: int
    var yp: int
    var xp: int
    var xsfb: int
    var xs: int
    var typ: ConsType
    var state: TtyState
    var u8: int
    var e8: int
    var fg: bv32
    var bg: bv32
    var yc: int
    var xc: int
    var redZone: bool
    var fb: int
    var canvas: int
    var hooks: Hooks
    /** The requests made of the hooks so far, oldest first. */
    var ops: seq<Op>

    function Geometry(): Geom
      reads this`yn, this`xn, this`yp, this`xp, this`xs, this`typ
    {
      Geom(yn, xn, yp, xp, xs, typ)
    }

    function Output(): Out
      reads this`y, this`x, this`redZone, this`ops
    {
      Out(y, x, redZone, ops)
    }

    function Tty(): Tty
      reads this`y, this`x, this`redZone, this`ops, this`state, this`u8, this`e8, this`fg, this`bg
    {
      ConsText.Tty(Output(), state, u8, e8, fg, bg)
    }

    /** The fields the teletype never writes. */
    function Rest(): (int, int, int, int, int, Hooks)
      reads this`xsfb, this`yc, this`xc, this`fb, this`canvas, this`hooks
    {
      (xsfb, yc, xc, fb, canvas, hooks)
    }

    /** The decoder and the colours. */
    function Mode(): (TtyState, int, int, bv32, bv32)
      reads this`state, this`u8, this`e8, this`fg, this`bg
    {
      (state, u8, e8, fg, bg)
    }

    /** A console after memset (cons, 0, sizeof (*cons)); the request log is not part of the structure. */
    constructor ()
      ensures Geometry() == Geom(0, 0, 0, 0, 0, Bgr565) && Rest() == (0, 0, 0, 0, 0, NoHooks)
      ensures y == 0 && x == 0 && !redZone && ops == []
      ensures state == Norm && u8 == 0 && e8 == 0 && fg == 0 && bg == 0
    {
      y := 0;
      x := 0;
      yn := 0;
      xn := 0;
      yp := 0;
      xp := 0;
      xsfb := 0;
      xs := 0;
      typ := Bgr565;
      state := Norm;
      u8 := 0;
      e8 := 0;
      fg := 0;
      bg := 0;
      yc := 0;
      xc := 0;
      redZone := false;
      fb := 0;
      canvas := 0;
      hooks := NoHooks;
      ops := [];
    }

    /** __cons_erase_lines */
    method EraseLines(y0: int, n: nat)
      modifies this`ops
      ensures Output() == old(Output()).(ops := old(ops) + EraseLinesOps(y0, n, xn))
    {
      var line := y0;
      var left := n;
      while left != 0
        invariant 0 <= left <= n && line == y0 + (n - left)
        invariant ops == old(ops) + EraseLinesOps(y0, n - left, xn)
        invariant Output() == old(Output()).(ops := ops)
      {
        assert EraseLinesOps(y0, n - left + 1, xn) == EraseLinesOps(y0, n - left, xn) + [EraseCells(line, 0, xn)];
        ops := ops + [EraseCells(line, 0, xn)];
        line := line + 1;
        left := left - 1;
      }
    }

    /** __cons_move_lines */
    method MoveLines(dst: int, src: int, n: nat)
      modifies this`ops
      ensures Output() == old(Output()).(ops := old(ops) + MoveLinesOps(dst, src, n, xn))
    {
      if dst < src {
        var d, s, left := dst, src, n;
        while left != 0
          invariant 0 <= left <= n && d == dst + (n - left) && s == src + (n - left)
          invariant ops == old(ops) + MoveUpOps(dst, src, n - left, xn)
            invariant Output() == old(Output()).(ops := ops)
        {
          assert MoveUpOps(dst, src, n - left + 1, xn) == MoveUpOps(dst, src, n - left, xn) + [MoveCells(d, 0, s, 0, xn)];
          ops := ops + [MoveCells(d, 0, s, 0, xn)];
          d := d + 1;
          s := s + 1;
          left := left - 1;
        }
        assert MoveUpOps(dst, src, n, xn) == MoveLinesOps(dst, src, n, xn);
      } else if dst > src {
        var d, s, left := dst + n, src + n, n;
        while left != 0
          invariant 0 <= left <= n && d == dst + left && s == src + left
          invariant ops == old(ops) + MoveDownOps(dst, src, n, xn)[..n - left]
            invariant Output() == old(Output()).(ops := ops)
        {
          d := d - 1;
          s := s - 1;
          assert MoveDownOps(dst, src, n, xn)[..n - left + 1] ==
                 MoveDownOps(dst, src, n, xn)[..n - left] + [MoveCells(d, 0, s, 0, xn)];
          ops := ops + [MoveCells(d, 0, s, 0, xn)];
          left := left - 1;
        }
        assert MoveDownOps(dst, src, n, xn)[..n] == MoveLinesOps(dst, src, n, xn);
      }
    }

    /** __cons_scroll as written: lines 0 .. yn-n-1 are moved to line n on, then the last n lines are erased. */
    method Scroll(n: nat)
      requires n <= yn
      modifies this`ops
      ensures Output() == old(Output()).(ops := old(ops) + ScrollOpsAsWritten(old(Geometry()), n))
    {
      MoveLines(n, 0, yn - n);
      EraseLines(yn - n, n);
      assert ops == old(ops) + MoveLinesOps(n, 0, yn - n, xn) + EraseLinesOps(yn - n, n, xn);
    }

    /** __cons_index */
    method Index()
      requires HasCells(Geometry())
      modifies this`y, this`ops
      ensures Output() == ConsText.Index(old(Geometry()), old(Output()))
    {
      if y < yn - 1 {
        y := y + 1;
      } else {
        Scroll(1);
      }
    }

    /** __cons_advance and __cons_newline */
    method Advance()
      requires HasCells(Geometry())
      modifies this`y, this`x, this`redZone, this`ops
      ensures Output() == ConsText.Advance(old(Geometry()), old(Output()))
    {
      redZone := false;
      x := 0;
      Index();
    }

    /** __cons_write_glyph with width 1 */
    method WriteGlyph(wc: int)
      requires HasCells(Geometry())
      modifies this`y, this`x, this`redZone, this`ops
      ensures Output() == ConsText.WriteGlyph(old(Geometry()), old(Output()), wc)
    {
      if redZone || x + 1 > xn {
        Advance();
      }
      ops := ops + [DrawChar(y, x, wc)];
      x := x + 1;
      if x >= xn {
        x := xn - 1;
        redZone := true;
      }
    }

    /** __cons_reset_output_mode */
    method ResetOutputMode()
      modifies this`state, this`fg, this`bg
      ensures Tty() == ConsText.ResetOutputMode(old(Tty()))
    {
      state := Norm;
      fg := DEFAULT_FG;
      bg := DEFAULT_BG;
    }

    /** __cons_full_reset */
    method FullReset()
      modifies this`state, this`fg, this`bg, this`y, this`x, this`ops
      ensures Tty() == ConsText.FullReset(old(Geometry()), old(Tty()))
    {
      ResetOutputMode();
      y := 0;
      x := 0;
      ops := ops + [ZeroFb(yp * xs)];
    }

    /** __cons_cntrl */
    method Cntrl(c: byte)
      requires HasCells(Geometry())
      modifies this`y, this`x, this`redZone, this`ops, this`state, this`u8, this`e8, this`fg, this`bg
      ensures Tty() == ConsText.Cntrl(old(Geometry()), old(Tty()), c)
    {
      if c == LF {
        Advance();
      } else if c == ESC {
        state := Esc;
      }
    }

    /** __cons_putch_norm */
    method PutchNorm(c: byte)
      requires HasCells(Geometry())
      modifies this`y, this`x, this`redZone, this`ops, this`state, this`u8, this`e8, this`fg, this`bg
      ensures Tty() == ConsText.PutchNorm(old(Geometry()), old(Tty()), c)
    {
      if 0xc2 <= c <= 0xdf {
        state := Utf81;
        u8 := c % 0x20;
        e8 := 0x80;
      } else if 0xe0 <= c <= 0xef {
        state := Utf82;
        u8 := c % 0x10;
        e8 := 0x800;
      } else if 0xf0 <= c <= 0xf7 {
        state := Utf83;
        u8 := c % 0x08;
        e8 := 0x1_0000;
      } else if IsCntrl(c) {
        Cntrl(c);
      } else if IsAscii(c) {
        WriteGlyph(c);
      } else {
        WriteGlyph(UNICODE_BAD);
      }
    }

    /** __cons_putch_reparse */
    method Reparse(c: byte)
      requires HasCells(Geometry())
      modifies this`y, this`x, this`redZone, this`ops, this`state, this`u8, this`e8, this`fg, this`bg
      ensures Tty() == ConsText.Reparse(old(Geometry()), old(Tty()), c)
    {
      WriteGlyph(UNICODE_BAD);
      state := Norm;
      PutchNorm(c);
    }

    /** __cons_putch_utf8_1: the completed code is a local; the u8 field keeps its value. */
    method Utf8One(c: byte)
      requires HasCells(Geometry())
      modifies this`y, this`x, this`redZone, this`ops, this`state, this`u8, this`e8, this`fg, this`bg
      ensures Tty() == ConsText.Utf8One(old(Geometry()), old(Tty()), c)
    {
      if IsContinuation(c) {
        var code := Completed(u8, c);
        if code < e8 {
          code := UNICODE_BAD;
        } else if 0xd800 <= code <= 0xdfff {
          code := UNICODE_BAD;
        }
        WriteGlyph(code);
        state := Norm;
      } else {
        Reparse(c);
      }
    }

    /** __cons_putch_utf8_mid */
    method Utf8Mid(c: byte)
      requires HasCells(Geometry()) && 1 <= Ord(state)
      modifies this`y, this`x, this`redZone, this`ops, this`state, this`u8, this`e8, this`fg, this`bg
      ensures Tty() == ConsText.Utf8Mid(old(Geometry()), old(Tty()), c)
    {
      if IsContinuation(c) {
        u8 := Completed(u8, c);
        state := FromOrd(Ord(state) - 1);
      } else {
        Reparse(c);
      }
    }

    /** __cons_putch_esc */
    method PutchEsc(c: byte)
      modifies this`y, this`x, this`redZone, this`ops, this`state, this`u8, this`e8, this`fg, this`bg
      ensures Tty() == ConsText.PutchEsc(old(Geometry()), old(Tty()), c)
    {
      state := Norm;
      if c == 'c' as int {
        FullReset();
      }
    }

    /** __cons_write */
    method Write(data: seq<byte>)
      requires HasCells(Geometry())
      modifies this`y, this`x, this`redZone, this`ops, this`state, this`u8, this`e8, this`fg, this`bg
      ensures Tty() == ConsText.Write(old(Geometry()), old(Tty()), data)
    {
      var i := 0;
      while i < |data|
        invariant 0 <= i <= |data|
        invariant ConsText.Write(Geometry(), Tty(), data[i..]) == ConsText.Write(old(Geometry()), old(Tty()), data)
        decreases |data| - i
      {
        var c := data[i];
        assert data[i..][1..] == data[i + 1..];
        match state {
          case Utf81 => Utf8One(c);
          case Utf82 => Utf8Mid(c);
          case Utf83 => Utf8Mid(c);
          case Esc => PutchEsc(c);
          case _ => PutchNorm(c);
        }
        i := i + 1;
      }
    }

    /** __cons_set_type */
    method SetType(t: ConsType)
      modifies this`typ, this`hooks
      ensures typ == t && hooks == HooksFor(t)
    {
      typ := t;
      hooks := HooksFor(t);
    }

    /** __early_init_uefi_cons for the mode held by the video reserve. */
    method InitUefi(info: VideoInfo)
      modifies this`yn, this`xn, this`yp, this`xp, this`xs, this`xsfb, this`typ, this`hooks, this`fb, this`canvas
      ensures Geometry() == UefiGeometry(info) && xsfb == xs && hooks == HooksFor(typ)
      ensures fb == EarlyMap(info.fbBase) && canvas == fb
    {
      var g := UefiGeometry(info);
      yn := g.yn;
      xn := g.xn;
      yp := g.yp;
      xp := g.xp;
      xs := g.xs;
      xsfb := xs;
      SetType(g.typ);
      fb := EarlyMap(info.fbBase);
      canvas := fb;
    }

    /** The tail of __early_init_cons_1: a full reset, then the greeting. */
    method Greet()
      requires HasCells(Geometry())
      modifies this`y, this`x, this`redZone, this`ops, this`state, this`u8, this`e8, this`fg, this`bg
      ensures Tty() == ConsText.Write(old(Geometry()), ConsText.FullReset(old(Geometry()), old(Tty())), HELLO)
    {
      FullReset();
      Write(HELLO);
    }

    /** The middle of __early_init_cons_1: find the video reserve, set up the screen it names, set the glyph size. */
    method PickScreen(rs: seq<Reserve>, reserves: nat, dummyFb: int)
      requires HasVideoFrom(rs, 0) && reserves < SIZE_MOD && FindVideo(rs, 0) < SIZE_MOD
      modifies this`yn, this`xn, this`yp, this`xp, this`xs, this`xsfb, this`typ, this`hooks, this`fb, this`canvas, this`yc, this`xc
      ensures Geometry() == EarlyGeometry(rs, reserves)
      ensures yc == CHAR_HEIGHT_PX && xc == CHAR_WIDTH_PX && hooks == HooksFor(typ) && canvas == fb
      ensures fb == (if FindVideo(rs, 0) != reserves then EarlyMap(rs[FindVideo(rs, 0)].video.fbBase) else dummyFb)
    {
      var k, nr := SearchVideo(rs, reserves);
      NrZero(reserves, k);
      InitScreen(nr != 0, rs[k].video, dummyFb);
      SetGlyphSize();
    }

    /** The branch on the remaining count: the frame-buffer console when it is nonzero, else the dummy. */
    method InitScreen(useFb: bool, info: VideoInfo, dummyFb: int)
      modifies this`yn, this`xn, this`yp, this`xp, this`xs, this`xsfb, this`typ, this`hooks, this`fb, this`canvas
      ensures Geometry() == (if useFb then UefiGeometry(info) else DummyGeometry())
      ensures xsfb == xs && hooks == HooksFor(typ) && canvas == fb
      ensures fb == (if useFb then EarlyMap(info.fbBase) else dummyFb)
    {
      if useFb {
        InitUefi(info);
      } else {
        InitDummy(dummyFb);
      }
    }

    /** CONS_ASSUME_CHAR_HEIGHT_PX by CONS_ASSUME_CHAR_WIDTH_PX glyphs. */
    method SetGlyphSize()
      modifies this`yc, this`xc
      ensures yc == CHAR_HEIGHT_PX && xc == CHAR_WIDTH_PX
    {
      yc := CHAR_HEIGHT_PX;
      xc := CHAR_WIDTH_PX;
    }

    /** __early_init_dummy_cons: one cell, BGRX, and the stride set to the glyph width, 8. */
    method InitDummy(dummyFb: int)
      modifies this`yn, this`xn, this`yp, this`xp, this`xs, this`xsfb, this`typ, this`hooks, this`fb, this`canvas
      ensures Geometry() == DummyGeometry() && xsfb == xs && hooks == HooksFor(typ)
      ensures fb == dummyFb && canvas == fb
    {
      var g := DummyGeometry();
      yn := 1;
      xn := 1;
      yp := CHAR_HEIGHT_PX;
      xp := CHAR_WIDTH_PX;
      xs := g.xs;
      xsfb := xs;
      SetType(Bgrx8888);
      fb := dummyFb;
      canvas := fb;
    }
  }

  /** The reserve search: ++rs and --nr until the name is "video"; nr is a size_t. */
  method SearchVideo(rs: seq<Reserve>, reserves: nat) returns (k: nat, nr: int)
    requires HasVideoFrom(rs, 0) && reserves < SIZE_MOD
    ensures k == FindVideo(rs, 0) && nr == (reserves - k) % SIZE_MOD
  {
    k := 0;
    nr := reserves;
    while rs[k].name != VIDEO
      invariant k <= FindVideo(rs, 0)
      invariant 0 <= nr < SIZE_MOD && nr == (reserves - k) % SIZE_MOD
      decreases FindVideo(rs, 0) - k
    {
      k := k + 1;
      nr := if nr == 0 then SIZE_MOD - 1 else nr - 1;
    }
  }

  /** The wrapped count is zero exactly when the search stopped at index reserves, one past the table. */
  lemma NrZero(reserves: nat, k: nat)
    requires reserves < SIZE_MOD && k < SIZE_MOD
    ensures ((reserves - k) % SIZE_MOD == 0) <==> k == reserves
  {
  }

  /** "hello world\n" */
  const HELLO: seq<byte> := [0x68, 0x65, 0x6c, 0x6c, 0x6f, 0x20, 0x77, 0x6f, 0x72, 0x6c, 0x64, 0x0a]

  /** The geometry __early_init_cons_1 sets up for a reserve table. */
  function EarlyGeometry(rs: seq<Reserve>, reserves: nat): Geom
    requires HasVideoFrom(rs, 0)
  {
    if FindVideo(rs, 0) != reserves then UefiGeometry(rs[FindVideo(rs, 0)].video) else DummyGeometry()
  }

  /** The state of a console just cleared by memset. */
  function Cleared(): Tty
  {
    ConsText.Tty(Out(0, 0, false, []), Norm, 0, 0, 0, 0)
  }

  /**
   * __early_init_cons_1 on the console it clears: pick the screen, set the
   * glyph size, reset, and greet.
   */
  method EarlyInit(rs: seq<Reserve>, reserves: nat, dummyFb: int) returns (cons: Cons)
    requires HasVideoFrom(rs, 0) && reserves < SIZE_MOD && FindVideo(rs, 0) < SIZE_MOD
    requires HasCells(EarlyGeometry(rs, reserves))
    ensures cons.Geometry() == EarlyGeometry(rs, reserves)
    ensures cons.Tty() == Write(cons.Geometry(), FullReset(cons.Geometry(), Cleared()), HELLO)
  {
    cons := new Cons();
    cons.PickScreen(rs, reserves, dummyFb);
    assert cons.Tty() == Cleared();
    cons.Greet();
  }

  /** With the video reserve inside the table, the frame-buffer console is chosen. */
  lemma VideoInTableChosen(rs: seq<Reserve>, reserves: nat)
    requires reserves <= |rs| && exists j :: 0 <= j < reserves && rs[j].name == VIDEO
    ensures HasVideoFrom(rs, 0) && FindVideo(rs, 0) < reserves
    ensures EarlyGeometry(rs, reserves) == UefiGeometry(rs[FindVideo(rs, 0)].video)
  {
  }
}
