/**
 * The console geometry both console set-up paths compute from the UEFI
 * graphics mode (stage2/cons.preinit.c and stage2/cons.early.c): the
 * colour layout, the row stride in bytes, and the number of character
 * cells.  The mode's fields are those of the Graphics Output Protocol
 * (section 12.9 of the UEFI 2.x specification).
 */
module ConsGeom {
  import opened ConsBits

  /** enum cons_typ. */
  datatype ConsType = Bgr565 | Bgr555 | Bgrx8888 | Rgbx8888

  /** The size of the colour union of each type. */
  function BytesPerPixel(t: ConsType): (n: nat)
  {
    match t
    case Bgr565 => 2
    case Bgr555 => 2
    case Bgrx8888 => 4
    case Rgbx8888 => 4
  }

  /** enum efi_graphics_pixel_format. */
  const PIXEL_RGBX_8BIT: int := 0
  const PIXEL_BGRX_8BIT: int := 1
  const PIXEL_BIT_MASK: int := 2
  const PIXEL_BLT_ONLY: int := 3

  /** The graphics mode as stage 1 hands it over. */
  datatype VideoInfo = VideoInfo(hres: int, vres: int, format: int, redMask: bv32, ppsl: int, fbBase: int)

  /** The colour layout and bytes per pixel for a mode; anything unrecognised is taken as BGRX. */
  function PixelLayout(info: VideoInfo): (r: (ConsType, nat))
    ensures r.1 == BytesPerPixel(r.0)
    ensures r.0 == Rgbx8888 <==> info.format == PIXEL_RGBX_8BIT || (info.format == PIXEL_BIT_MASK && info.redMask == 0xff)
    ensures r.1 == 2 <==> info.format == PIXEL_BIT_MASK && (info.redMask == 0xf800 || info.redMask == 0x7c00)
  {
    if info.format == PIXEL_RGBX_8BIT then (Rgbx8888, 4)
    else if info.format == PIXEL_BIT_MASK then
      if info.redMask == 0x0000_00ff then (Rgbx8888, 4)
      else if info.redMask == 0x0000_f800 then (Bgr565, 2)
      else if info.redMask == 0x0000_7c00 then (Bgr555, 2)
      else (Bgrx8888, 4)
    else (Bgrx8888, 4)
  }

  /** An unsigned short. */
  function Short(v: int): (s: int)
    ensures 0 <= s < 0x1_0000
  {
    v % 0x1_0000
  }

  /** The fields of struct cons that describe the screen. */
  datatype Geom = Geom(yn: int, xn: int, yp: int, xp: int, xs: int, typ: ConsType)

  /**
   * The geometry of a graphics mode: the resolution and the scan line are
   * kept in unsigned shorts, so each is taken modulo 2^16 (the stride
   * after scaling too), and the cells are the whole glyphs that fit.
   */
  function UefiGeometry(info: VideoInfo): (g: Geom)
  {
    var layout := PixelLayout(info);
    var yp := Short(info.vres);
    var xp := Short(info.hres);
    Geom(yp / CHAR_HEIGHT_PX, xp / CHAR_WIDTH_PX, yp, xp, Short(Short(info.ppsl) * layout.1), layout.0)
  }

  /**
   * The screen is the mode's lines and columns modulo 2^16, its cells the
   * whole glyphs that fit, and its stride the scan line in bytes, again
   * modulo 2^16.
   */
  lemma UefiGeometryCells(info: VideoInfo)
    ensures var g := UefiGeometry(info);
            g.yp == Short(info.vres) && g.xp == Short(info.hres) &&
            g.yn * CHAR_HEIGHT_PX <= g.yp < (g.yn + 1) * CHAR_HEIGHT_PX &&
            g.xn * CHAR_WIDTH_PX <= g.xp < (g.xn + 1) * CHAR_WIDTH_PX &&
            g.typ == PixelLayout(info).0 && g.xs == Short(Short(info.ppsl) * BytesPerPixel(g.typ))
  {
  }

  /** Without a video reserve: one cell the size of a glyph, BGRX, and a stride of one glyph width. */
  function DummyGeometry(): (g: Geom)
  {
    Geom(1, 1, CHAR_HEIGHT_PX, CHAR_WIDTH_PX, CHAR_WIDTH_PX, Bgrx8888)
  }

  /** The size of the static buffer behind the dummy console: one glyph of BGRX pixels. */
  const DUMMY_FB_SIZE: nat := CHAR_HEIGHT_PX * CHAR_WIDTH_PX * 4

  /** A stride that holds a whole row of pixels, and a buffer that holds yp such rows. */
  predicate RowsFit(g: Geom, fbSize: int)
  {
    g.xs >= g.xp * BytesPerPixel(g.typ) && g.yp * g.xs <= fbSize
  }

  /**
   * The dummy console's stride is 8 bytes, a quarter of its 32-byte row of
   * pixels, so successive pixel rows overlap and clearing yp * xs bytes
   * clears 104 of the buffer's 416.
   */
  lemma DummyStrideTooShort()
    ensures !RowsFit(DummyGeometry(), DUMMY_FB_SIZE)
    ensures DummyGeometry().xs * 4 == DummyGeometry().xp * BytesPerPixel(DummyGeometry().typ)
    ensures DummyGeometry().yp * DummyGeometry().xs == 104 && DUMMY_FB_SIZE == 416
  {
  }

  /** The dummy geometry with the stride in bytes, as the field is documented to hold. */
  function DummyGeometryFixed(): (g: Geom)
  {
    Geom(1, 1, CHAR_HEIGHT_PX, CHAR_WIDTH_PX, CHAR_WIDTH_PX * BytesPerPixel(Bgrx8888), Bgrx8888)
  }

  lemma DummyFixedFits()
    ensures RowsFit(DummyGeometryFixed(), DUMMY_FB_SIZE)
    ensures DummyGeometryFixed().yp * DummyGeometryFixed().xs == DUMMY_FB_SIZE
    ensures DummyGeometryFixed().yn * CHAR_HEIGHT_PX == DummyGeometryFixed().yp
  {
  }

  /** A mode whose scan line is a whole number of bytes below 2^16 gets a stride that holds its rows. */
  lemma UefiRowsFit(info: VideoInfo)
    requires 0 <= info.hres <= info.ppsl
    requires info.ppsl * BytesPerPixel(PixelLayout(info).0) < 0x1_0000
    ensures UefiGeometry(info).xs >= UefiGeometry(info).xp * BytesPerPixel(UefiGeometry(info).typ)
  {
    var cpp := BytesPerPixel(PixelLayout(info).0);
    assert info.ppsl < 0x1_0000;
    assert Short(info.ppsl) == info.ppsl;
    assert info.hres < 0x1_0000;
    assert Short(info.hres) == info.hres;
    assert Short(info.ppsl * cpp) == info.ppsl * cpp;
    assert info.hres * cpp <= info.ppsl * cpp;
  }
}
