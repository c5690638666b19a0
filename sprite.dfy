/**
 * `draw_texture`: copies a size.x by size.y block of a texture to the
 * screen at `pos`, one `draw_pixel` per texel. Every texture is stored
 * with four bytes per texel; the block starts `uv.y` rows and `uv.x`
 * bytes into the data. Each texel read takes the three bytes at the
 * cursor, so the alpha bytes of the image stay unread exactly when `uv.x`
 * is a multiple of four.
 */
module Sprite {
  import opened Tangram
  import opened Raster

  /** Bytes per texel: all textures are loaded as RGBA. */
  const Channels: int := 4

  /** Where the cursor stands when texel (tx, ty) of the block is read. */
  function TexelIndex(w: int, uv: IPoint, tx: int, ty: int): int
  {
    uv.y * w * Channels + uv.x + (ty * w + tx) * Channels
  }

  /** Every byte the copy reads (red, green and blue of each texel) lies inside the data. */
  predicate ReadsInside(t: Texture, uv: IPoint, size: IPoint)
  {
    forall tx, ty :: 0 <= tx < size.x && 0 <= ty < size.y ==>
      0 <= TexelIndex(t.w, uv, tx, ty) && TexelIndex(t.w, uv, tx, ty) + 2 < |t.data|
  }

  /** The colour `(r << 16) | (g << 8) | b` the loop builds from one texel. */
  function PackRgb(r: bv8, g: bv8, b: bv8): (c: Color)
    ensures Byte(c, 2) == r as Color
    ensures Byte(c, 1) == g as Color
    ensures Byte(c, 0) == b as Color
    ensures Byte(c, 3) == 0
  {
    ((r as Color) << 16) | ((g as Color) << 8) | (b as Color)
  }

  /** The loop's three `|=` steps starting from 0 build `PackRgb`. */
  lemma PackRgbSteps(r: bv8, g: bv8, b: bv8)
    ensures ((0 | ((r as Color) << 16)) | ((g as Color) << 8)) | (b as Color) == PackRgb(r, g, b)
  {
  }

  /** The colour of the texel whose red byte is at k. */
  function TexelColor(data: seq<bv8>, k: int): Color
    requires 0 <= k && k + 2 < |data|
  {
    PackRgb(data[k], data[k + 1], data[k + 2])
  }

  /**
   * What ends up in the screen buffer for the texel at k: the swap in
   * `draw_pixel` puts red, green and blue back in bytes 0, 1, 2, the
   * order of the texture data, and leaves byte 3 (alpha) zero.
   */
  lemma StoredTexel(data: seq<bv8>, k: int)
    requires 0 <= k && k + 2 < |data|
    ensures Byte(RgbToBgr(TexelColor(data, k)), 0) == data[k] as Color
    ensures Byte(RgbToBgr(TexelColor(data, k)), 1) == data[k + 1] as Color
    ensures Byte(RgbToBgr(TexelColor(data, k)), 2) == data[k + 2] as Color
    ensures Byte(RgbToBgr(TexelColor(data, k)), 3) == 0
  {
  }

  /** The byte after the three a texel read takes has no influence on its colour. */
  lemma AlphaIgnored(data: seq<bv8>, k: int, alpha: bv8)
    requires 0 <= k && k + 3 < |data|
    ensures TexelColor(data[k + 3 := alpha], k) == TexelColor(data, k)
  {
    var d := data[k + 3 := alpha];
    assert d[k] == data[k] && d[k + 1] == data[k + 1] && d[k + 2] == data[k + 2];
  }

  /** The width of the block as the inner loop runs it: none for a negative size. */
  function RowLength(size: IPoint): nat
  {
    if size.x < 0 then 0 else size.x
  }

  /** The height of the block as the outer loop runs it. */
  function RowCount(size: IPoint): nat
  {
    if size.y < 0 then 0 else size.y
  }

  /** The `draw_pixel` call for texel (tx, ty) of the block. */
  function TexelPlot(t: Texture, pos: IPoint, uv: IPoint, size: IPoint, tx: int, ty: int): Plot
    requires ReadsInside(t, uv, size) && 0 <= tx < size.x && 0 <= ty < size.y
  {
    Plot(pos.x + tx, pos.y + ty, TexelColor(t.data, TexelIndex(t.w, uv, tx, ty)))
  }

  /** Call j of the copy handles texel (j % L, j / L), L being the row length. */
  lemma DivModOfTexel(ty: int, tx: int, len: int)
    requires 0 <= ty && 0 <= tx < len
    ensures (ty * len + tx) / len == ty && (ty * len + tx) % len == tx
  {
    var j := ty * len + tx;
    var q := j / len - ty;
    assert len * q == tx - j % len;
    SmallMultiple(len, q);
  }

  /** A call number below L * R names a texel inside the block. */
  lemma TexelOfCall(j: int, len: int, rows: int)
    requires 0 <= j < len * rows && 0 < len
    ensures 0 <= j / len < rows && 0 <= j % len < len
    ensures j == (j / len) * len + j % len
  {
    if j / len >= rows {
      MulMono(rows, j / len, len);
    }
  }

  /** After tx texels of row ty the copy has made ty * L + tx of its L * R calls. */
  lemma CallsSoFar(len: nat, rows: nat, ty: int, tx: int)
    requires 0 <= ty < rows && 0 <= tx <= len
    ensures 0 <= ty * len + tx <= len * rows
    ensures (ty + 1) * len == ty * len + len
  {
    MulMono(ty + 1, rows, len);
  }

  /** When the outer loop ends after all rows, the calls made are all L * R of them. */
  lemma AllRowsDone(len: nat, rows: nat, ty: int, calls: int)
    requires ty == rows && calls == ty * len
    ensures 0 <= calls == len * rows
  {
  }

  /** The first n `draw_pixel` calls of the copy, rows first, as the nested loops make them. */
  function BlitPlots(t: Texture, pos: IPoint, uv: IPoint, size: IPoint, n: int): (ps: seq<Plot>)
    requires ReadsInside(t, uv, size) && 0 <= n <= RowLength(size) * RowCount(size)
    ensures |ps| == n
  {
    var len := RowLength(size);
    if len == 0 then []
    else
      seq(n, j requires 0 <= j < n =>
        TexelOfCall(j, len, RowCount(size));
        TexelPlot(t, pos, uv, size, j % len, j / len))
  }

  /** The `draw_pixel` calls of `draw_texture(t, pos, uv, size, scale, blend)`. */
  function TexturePlots(t: Texture, pos: IPoint, uv: IPoint, size: IPoint): seq<Plot>
    requires ReadsInside(t, uv, size)
  {
    BlitPlots(t, pos, uv, size, RowLength(size) * RowCount(size))
  }

  /** Call j = ty * L + tx is the one for texel (tx, ty): the next call after the first j. */
  lemma BlitPlotsNext(t: Texture, pos: IPoint, uv: IPoint, size: IPoint, tx: int, ty: int, j: int)
    requires ReadsInside(t, uv, size) && 0 <= tx < size.x && 0 <= ty < size.y
    requires j == ty * RowLength(size) + tx
    ensures 0 <= j < RowLength(size) * RowCount(size)
    ensures BlitPlots(t, pos, uv, size, j + 1) == BlitPlots(t, pos, uv, size, j) + [TexelPlot(t, pos, uv, size, tx, ty)]
  {
    var len := RowLength(size);
    DivModOfTexel(ty, tx, len);
    MulMono(ty + 1, RowCount(size), len);
    assert (ty + 1) * len == ty * len + len;
    assert len * RowCount(size) == RowCount(size) * len;
  }

  /** Drawing texel (tx, ty) over the first ty * L + tx calls gives the first ty * L + tx + 1. */
  lemma CopyStep(s: seq<Color>, t: Texture, pos: IPoint, uv: IPoint, size: IPoint, tx: int, ty: int, j: int)
    requires |s| == Cells && ReadsInside(t, uv, size) && 0 <= tx < size.x && 0 <= ty < size.y
    requires j == ty * RowLength(size) + tx
    ensures 0 <= j < RowLength(size) * RowCount(size)
    ensures Plotted(Paint(s, BlitPlots(t, pos, uv, size, j)), TexelPlot(t, pos, uv, size, tx, ty))
              == Paint(s, BlitPlots(t, pos, uv, size, j + 1))
  {
    BlitPlotsNext(t, pos, uv, size, tx, ty, j);
    PaintSnoc(s, BlitPlots(t, pos, uv, size, j), TexelPlot(t, pos, uv, size, tx, ty));
  }

  /** The cursor starts at the block's first texel. */
  lemma FirstTexel(w: int, uv: IPoint)
    ensures TexelIndex(w, uv, 0, 0) == uv.y * w * Channels + uv.x
  {
  }

  /** Skipping the rest of the data row after texel tx of row ty brings the cursor to the start of row ty + 1. */
  lemma NextRowCursor(w: int, uv: IPoint, tx: int, ty: int)
    ensures TexelIndex(w, uv, tx, ty) + (w - tx) * Channels == TexelIndex(w, uv, 0, ty + 1)
  {
    assert (ty + 1) * w == ty * w + w;
  }

  /**
   * After `draw_texture`, the screen cell (pos.x + tx, pos.y + ty) holds
   * texel (tx, ty) of the block and every other cell is unchanged; the
   * scale, blend and alpha play no part.
   */
  lemma TextureCell(s: seq<Color>, t: Texture, pos: IPoint, uv: IPoint, size: IPoint, x: int, y: int)
    requires |s| == Cells && InBounds(x, y) && ReadsInside(t, uv, size)
    ensures Paint(s, TexturePlots(t, pos, uv, size))[Index(x, y)] ==
              if pos.x <= x < pos.x + size.x && pos.y <= y < pos.y + size.y
              then RgbToBgr(TexelColor(t.data, TexelIndex(t.w, uv, x - pos.x, y - pos.y)))
              else s[Index(x, y)]
  {
    var ps := TexturePlots(t, pos, uv, size);
    var len, rows := RowLength(size), RowCount(size);
    if pos.x <= x < pos.x + size.x && pos.y <= y < pos.y + size.y {
      var tx, ty := x - pos.x, y - pos.y;
      var j := ty * len + tx;
      DivModOfTexel(ty, tx, len);
      MulMono(ty + 1, rows, len);
      assert (ty + 1) * len == ty * len + len;
      assert ps[j] == TexelPlot(t, pos, uv, size, tx, ty);
      forall i | j < i < |ps| ensures !(ps[i].x == x && ps[i].y == y) {
        TexelOfCall(i, len, rows);
      }
      PaintLastHit(s, ps, j, x, y);
    } else {
      assert !Hits(ps, x, y) by {
        forall i | 0 <= i < |ps| ensures !(ps[i].x == x && ps[i].y == y) {
          TexelOfCall(i, len, rows);
        }
      }
      PaintMiss(s, ps, x, y);
    }
  }

  /** Every texel read starts at the same offset modulo four as `uv.x`. */
  lemma TexelAlignment(w: int, uv: IPoint, tx: int, ty: int)
    ensures TexelIndex(w, uv, tx, ty) % Channels == uv.x % Channels
  {
    var n := uv.y * w + ty * w + tx;
    assert TexelIndex(w, uv, tx, ty) == Channels * n + uv.x;
    ModAdd(Channels * n, uv.x, Channels);
  }

  /**
   * With `uv.x` a multiple of four the copy never reads an alpha byte: two
   * textures that differ only in their alpha bytes (the bytes at 4i + 3)
   * give the same `draw_pixel` calls.
   */
  lemma AlphaUnread(t1: Texture, t2: Texture, pos: IPoint, uv: IPoint, size: IPoint)
    requires ReadsInside(t1, uv, size) && uv.x % Channels == 0
    requires t2.w == t1.w && |t2.data| == |t1.data|
    requires forall k :: 0 <= k < |t1.data| && k % Channels != 3 ==> t2.data[k] == t1.data[k]
    ensures ReadsInside(t2, uv, size)
    ensures TexturePlots(t1, pos, uv, size) == TexturePlots(t2, pos, uv, size)
  {
    var len, rows := RowLength(size), RowCount(size);
    var p1, p2 := TexturePlots(t1, pos, uv, size), TexturePlots(t2, pos, uv, size);
    forall j | 0 <= j < |p1| ensures p1[j] == p2[j] {
      TexelOfCall(j, len, rows);
      var k := TexelIndex(t1.w, uv, j % len, j / len);
      TexelAlignment(t1.w, uv, j % len, j / len);
      assert t2.data[k] == t1.data[k] && t2.data[k + 1] == t1.data[k + 1] && t2.data[k + 2] == t1.data[k + 2];
    }
  }

  /**
   * With `uv.x` = 1 the first texel read is bytes 1 to 3, so the alpha
   * byte of the first image pixel becomes the blue of the first call.
   */
  lemma AlphaReadWhenMisaligned(t1: Texture, t2: Texture, pos: IPoint)
    requires t1 == Texture([0, 0, 0, 0], 1, 1, 4) && t2 == Texture([0, 0, 0, 0xFF], 1, 1, 4)
    ensures ReadsInside(t1, IPoint(1, 0), IPoint(1, 1)) && ReadsInside(t2, IPoint(1, 0), IPoint(1, 1))
    ensures TexturePlots(t1, pos, IPoint(1, 0), IPoint(1, 1))[0].color == PackRgb(0, 0, 0)
    ensures TexturePlots(t2, pos, IPoint(1, 0), IPoint(1, 1))[0].color == PackRgb(0, 0, 0xFF)
    ensures TexturePlots(t1, pos, IPoint(1, 0), IPoint(1, 1)) != TexturePlots(t2, pos, IPoint(1, 0), IPoint(1, 1))
  {
    var uv, size := IPoint(1, 0), IPoint(1, 1);
    assert TexelIndex(1, uv, 0, 0) == 1;
    TexelOfCall(0, 1, 1);
    assert TexturePlots(t2, pos, uv, size)[0].color == PackRgb(0, 0, 0xFF);
    assert Byte(PackRgb(0, 0, 0xFF), 0) != Byte(PackRgb(0, 0, 0), 0);
  }

  /**
   * The texels of one block row are consecutive in the data, and each row
   * starts w texels after the previous one; `uv.x` shifts the block by
   * bytes, not by texels.
   */
  lemma TexelLayout(w: int, uv: IPoint, tx: int, ty: int)
    ensures TexelIndex(w, uv, tx + 1, ty) == TexelIndex(w, uv, tx, ty) + Channels
    ensures TexelIndex(w, uv, tx, ty + 1) == TexelIndex(w, uv, tx, ty) + w * Channels
    ensures TexelIndex(w, IPoint(uv.x + 1, uv.y), tx, ty) == TexelIndex(w, uv, tx, ty) + 1
  {
    assert (ty + 1) * w == ty * w + w;
  }
}
