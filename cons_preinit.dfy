/**
 * The console set-up stage 2 runs before its early console exists
 * (stage2/cons.preinit.c): the same reserve search and screen choice as
 * the early console, made on the global console structure, with the type
 * recorded without installing drawing routines and the frame buffer
 * cleared at once.  The address the memory mapper returns for the frame
 * buffer is a parameter: that mapper is not part of this model.
 */
module ConsPreinit {
  import opened ConsBits
  import opened ConsGeom
  import opened ConsText
  import opened ConsEarly

  /** _preinit_uefi_cons: the geometry of the mode, the mapped frame buffer, and a clear of yp * xs bytes. */
  method PreinitUefi(cons: Cons, info: VideoInfo, mapped: int)
    modifies cons`yn, cons`xn, cons`yp, cons`xp, cons`xs, cons`xsfb, cons`typ, cons`fb, cons`canvas, cons`ops
    ensures cons.Geometry() == UefiGeometry(info) && cons.xsfb == cons.xs
    ensures cons.fb == mapped && cons.canvas == mapped
    ensures cons.ops == old(cons.ops) + [ZeroFb(UefiGeometry(info).yp * UefiGeometry(info).xs)]
  {
    var g := UefiGeometry(info);
    cons.yn := g.yn;
    cons.xn := g.xn;
    cons.yp := g.yp;
    cons.xp := g.xp;
    cons.xs := g.xs;
    cons.xsfb := g.xs;
    cons.typ := g.typ;
    cons.fb := mapped;
    cons.canvas := mapped;
    cons.ops := cons.ops + [ZeroFb(g.yp * g.xs)];
  }

  /** _preinit_dummy_cons: one cell, BGRX, the stride set to the glyph width, 8; nothing is cleared. */
  method PreinitDummy(cons: Cons, dummyFb: int)
    modifies cons`yn, cons`xn, cons`yp, cons`xp, cons`xs, cons`xsfb, cons`typ, cons`fb, cons`canvas
    ensures cons.Geometry() == DummyGeometry() && cons.xsfb == cons.xs
    ensures cons.fb == dummyFb && cons.canvas == dummyFb
  {
    var g := DummyGeometry();
    cons.yn := 1;
    cons.xn := 1;
    cons.yp := CHAR_HEIGHT_PX;
    cons.xp := CHAR_WIDTH_PX;
    cons.xs := g.xs;
    cons.xsfb := g.xs;
    cons.typ := Bgrx8888;
    cons.fb := dummyFb;
    cons.canvas := dummyFb;
  }

  /** What _preinit_cons clears: the whole mapped frame buffer, or nothing for the dummy screen. */
  function PreinitClears(rs: seq<Reserve>, reserves: nat): (ops: seq<Op>)
    requires HasVideoFrom(rs, 0)
  {
    if FindVideo(rs, 0) != reserves then [ZeroFb(EarlyGeometry(rs, reserves).yp * EarlyGeometry(rs, reserves).xs)] else []
  }

  /** The branch of _preinit_cons on the remaining count. */
  method PreinitScreen(cons: Cons, useFb: bool, info: VideoInfo, mapped: int, dummyFb: int)
    modifies cons`yn, cons`xn, cons`yp, cons`xp, cons`xs, cons`xsfb, cons`typ, cons`fb, cons`canvas, cons`ops
    ensures cons.Geometry() == (if useFb then UefiGeometry(info) else DummyGeometry())
    ensures cons.xsfb == cons.xs && cons.canvas == cons.fb && cons.fb == (if useFb then mapped else dummyFb)
    ensures cons.ops == old(cons.ops) + (if useFb then [ZeroFb(cons.yp * cons.xs)] else [])
  {
    if useFb {
      PreinitUefi(cons, info, mapped);
    } else {
      PreinitDummy(cons, dummyFb);
    }
  }

  /**
   * _preinit_cons: the first "video" reserve names the screen unless the
   * search ran one past the table; then the glyph size is set and the
   * cursor is homed.  The decoder, the colours and the drawing routines
   * are left as they were.
   */
  method Preinit(cons: Cons, rs: seq<Reserve>, reserves: nat, mapped: int, dummyFb: int)
    requires HasVideoFrom(rs, 0) && reserves < SIZE_MOD && FindVideo(rs, 0) < SIZE_MOD
    modifies cons`yn, cons`xn, cons`yp, cons`xp, cons`xs, cons`xsfb, cons`typ, cons`fb, cons`canvas, cons`ops
    modifies cons`yc, cons`xc, cons`y, cons`x
    ensures cons.Geometry() == EarlyGeometry(rs, reserves) && cons.xsfb == cons.xs
    ensures cons.fb == (if FindVideo(rs, 0) != reserves then mapped else dummyFb) && cons.canvas == cons.fb
    ensures cons.ops == old(cons.ops) + PreinitClears(rs, reserves)
    ensures cons.yc == CHAR_HEIGHT_PX && cons.xc == CHAR_WIDTH_PX && cons.y == 0 && cons.x == 0
  {
    var k, nr := SearchVideo(rs, reserves);
    NrZero(reserves, k);
    PreinitScreen(cons, nr != 0, rs[k].video, mapped, dummyFb);
    cons.SetGlyphSize();
    cons.y := 0;
    cons.x := 0;
  }

  /** With a video reserve inside the table the frame buffer is the screen, and all of its rows are cleared. */
  lemma PreinitVideoClears(rs: seq<Reserve>, reserves: nat)
    requires reserves <= |rs| && exists j :: 0 <= j < reserves && rs[j].name == VIDEO
    ensures HasVideoFrom(rs, 0)
    ensures PreinitClears(rs, reserves) == [ZeroFb(EarlyGeometry(rs, reserves).yp * EarlyGeometry(rs, reserves).xs)]
    ensures EarlyGeometry(rs, reserves) == UefiGeometry(rs[FindVideo(rs, 0)].video)
  {
    VideoInTableChosen(rs, reserves);
  }

  /**
   * Without one the dummy screen is used and the frame buffer is not
   * touched; its 8-byte stride does not hold a 32-byte row of pixels.
   */
  lemma PreinitNoVideo(rs: seq<Reserve>, reserves: nat)
    requires HasVideoFrom(rs, 0) && FindVideo(rs, 0) == reserves
    ensures PreinitClears(rs, reserves) == []
    ensures EarlyGeometry(rs, reserves) == DummyGeometry()
    ensures EarlyGeometry(rs, reserves).xs == CHAR_WIDTH_PX && !RowsFit(EarlyGeometry(rs, reserves), DUMMY_FB_SIZE)
  {
    DummyStrideTooShort();
  }
}
