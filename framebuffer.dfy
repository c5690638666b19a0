/**
 * The screen buffer of the engine and its drawing operations. Each
 * drawing method changes the buffer exactly as the sequence of
 * `draw_pixel` calls described in the Raster, Line, Rectangle and
 * Sprite modules would.
 */
module Screen {
  import opened Tangram
  import opened Raster
  import opened Line
  import opened Rectangle
  import opened Sprite

  class Framebuffer {
    /** `tangram.screen`: width * height packed colours, top row first. */
    const pixels: array<Color>

    ghost predicate Valid()
      reads this
    {
      pixels.Length == Cells
    }

    /** `init_screen`: a new buffer with every cell zero. */
    constructor ()
      ensures Valid() && fresh(pixels)
      ensures forall k :: 0 <= k < Cells ==> pixels[k] == 0
    {
      pixels := new Color[Cells](_ => 0);
    }

    /** `draw_clear`: every cell gets the swapped colour. */
    method Clear(color: Color)
      requires Valid()
      modifies pixels
      ensures forall k :: 0 <= k < Cells ==> pixels[k] == RgbToBgr(color)
    {
      var c := RgbToBgr(color);
      var p := 0;
      while p < pixels.Length
        invariant 0 <= p <= pixels.Length
        invariant forall k :: 0 <= k < p ==> pixels[k] == c
      {
        pixels[p] := c;
        p := p + 1;
      }
    }

    /**
     * `draw_pixel`: an in-bounds cell gets the swapped colour (the write is
     * skipped when the cell already holds it); out of bounds nothing happens.
     */
    method DrawPixel(x: int, y: int, color: Color)
      requires Valid()
      modifies pixels
      ensures pixels[..] == Plotted(old(pixels[..]), Plot(x, y, color))
    {
      if x >= 0 && x < Width && y >= 0 && y < Height {
        var k := (Height - 1 - y) * Width + x;
        var rgb := RgbToBgr(color);
        if pixels[k] != rgb {
          pixels[k] := rgb;
        }
      }
    }

    /**
     * `draw_line`: after the set-up, each iteration plots the rounded
     * point, stops at `to`, and otherwise advances as `Advance` says.
     */
    method DrawLine(from: Point, to: Point, color: Color)
      requires Valid()
      modifies pixels
      ensures pixels[..] == Paint(old(pixels[..]), LinePlots(from, to, color))
    {
      var g := Setup(from, to);
      var err := g.dx - g.dy;
      var p := from;
      var i := 0;
      ghost var done: seq<Point> := [];
      while i <= g.m
        invariant 0 <= i
        invariant Trace(from, to) == done + Walk(g, p, err, i)
        invariant pixels[..] == Paint(old(pixels[..]), PlotsOf(done, color))
        decreases g.m + 1 - i
      {
        DrawPixel(Round(p.x), Round(p.y), color);
        PaintPointsSnoc(old(pixels[..]), done, p, color);
        if p == to {
          WalkStop(done, g, err, i);
          done := done + [p];
          break;
        }
        WalkStep(done, g, p, err, i);
        done := done + [p];
        var next := Advance(g, p, err);
        p, err := next.0, next.1;
        i := i + 1;
      }
      if i > g.m {
        WalkExhausted(done, g, p, err, i);
      }
    }

    /**
     * `draw_rectangle`: the outline as four lines A-B, B-C, C-D, D-A, or
     * the fill as columns rx from from.x and rows ry from from.y, both up
     * to but not including `to`.
     */
    method DrawRectangle(from: Point, to: Point, color: Color, outline: bool)
      requires Valid()
      modifies pixels
      ensures pixels[..] == Paint(old(pixels[..]), RectanglePlots(from, to, color, outline))
    {
      var a, b := Point(from.x, from.y), Point(to.x, from.y);
      var c, d := Point(to.x, to.y), Point(from.x, to.y);
      if outline {
        DrawLine(a, b, color);
        DrawLine(b, c, color);
        DrawLine(c, d, color);
        DrawLine(d, a, color);
        PaintFour(old(pixels[..]), LinePlots(a, b, color), LinePlots(b, c, color),
                  LinePlots(c, d, color), LinePlots(d, a, color));
      } else {
        var rx := from.x;
        while rx < to.x
          invariant from.x <= rx && (rx <= to.x || rx == from.x)
          invariant pixels[..] == Paint(old(pixels[..]), FillPlots(from.x, rx, from.y, to.y, color))
        {
          FillColumn(rx, from.y, to.y, color, old(pixels[..]), FillPlots(from.x, rx, from.y, to.y, color));
          rx := rx + 1;
        }
      }
    }

    /** The inner loop of the fill: column x from row y0 up to, not including, y1. */
    method FillColumn(x: int, y0: int, y1: int, color: Color, ghost s: seq<Color>, ghost done: seq<Plot>)
      requires Valid() && |s| == Cells
      requires pixels[..] == Paint(s, done)
      modifies pixels
      ensures pixels[..] == Paint(s, done + ColumnPlots(x, y0, y1, color))
    {
      var ry := y0;
      assert done + ColumnPlots(x, y0, ry, color) == done;
      while ry < y1
        invariant y0 <= ry && (ry <= y1 || ry == y0)
        invariant pixels[..] == Paint(s, done + ColumnPlots(x, y0, ry, color))
      {
        DrawPixel(x, ry, color);
        PaintSnoc(s, done + ColumnPlots(x, y0, ry, color), Plot(x, ry, color));
        assert done + ColumnPlots(x, y0, ry + 1, color) == (done + ColumnPlots(x, y0, ry, color)) + [Plot(x, ry, color)];
        ry := ry + 1;
      }
      assert ColumnPlots(x, y0, ry, color) == ColumnPlots(x, y0, y1, color);
    }

    /**
     * `draw_texture`: copies the size.x by size.y block of `t` that starts
     * `uv.y` rows and `uv.x` bytes into its data to the screen at `pos`,
     * moving a cursor four bytes per texel and to the next data row after
     * each block row. `scale` and `blend` are accepted and not used.
     */
    method DrawTexture(t: Texture, pos: IPoint, uv: IPoint, size: IPoint, scale: real, blend: Color)
      requires Valid() && ReadsInside(t, uv, size)
      modifies pixels
      ensures pixels[..] == Paint(old(pixels[..]), TexturePlots(t, pos, uv, size))
    {
      var channels := Channels;
      var offset := uv.y * t.w * channels + uv.x;
      var cursor := offset;
      FirstTexel(t.w, uv);
      ghost var len, rows := RowLength(size), RowCount(size);
      ghost var calls := 0;
      AllRowsDone(len, rows, rows, rows * len);
      var ty := 0;
      while ty < size.y
        invariant 0 <= ty <= rows
        invariant calls == ty * len && 0 <= calls <= len * rows
        invariant size.x >= 0 ==> cursor == TexelIndex(t.w, uv, 0, ty)
        invariant pixels[..] == Paint(old(pixels[..]), BlitPlots(t, pos, uv, size, calls))
      {
        cursor := CopyRow(t, pos, uv, size, ty, cursor, old(pixels[..]), calls);
        calls := calls + len;
        ty := ty + 1;
      }
      assert ty == rows;
      AllRowsDone(len, rows, ty, calls);
    }

    /**
     * The inner loop of `draw_texture` for block row ty, after `base`
     * earlier calls: copies the row and moves the cursor on to the start
     * of the next data row.
     */
    method CopyRow(t: Texture, pos: IPoint, uv: IPoint, size: IPoint, ty: int, start: int,
                   ghost s: seq<Color>, ghost base: int)
      returns (cursor: int)
      requires Valid() && |s| == Cells && ReadsInside(t, uv, size) && 0 <= ty < size.y
      requires base == ty * RowLength(size)
      requires size.x >= 0 ==> start == TexelIndex(t.w, uv, 0, ty)
      requires pixels[..] == Paint(s, BlitPlots(t, pos, uv, size, base))
      modifies pixels
      ensures base + RowLength(size) == (ty + 1) * RowLength(size) <= RowLength(size) * RowCount(size)
      ensures size.x >= 0 ==> cursor == TexelIndex(t.w, uv, 0, ty + 1)
      ensures pixels[..] == Paint(s, BlitPlots(t, pos, uv, size, base + RowLength(size)))
    {
      var channels := Channels;
      CallsSoFar(RowLength(size), RowCount(size), ty, RowLength(size));
      cursor := start;
      var tx := 0;
      while tx < size.x
        invariant 0 <= tx <= RowLength(size)
        invariant size.x >= 0 ==> cursor == TexelIndex(t.w, uv, tx, ty)
        invariant pixels[..] == Paint(s, BlitPlots(t, pos, uv, size, base + tx))
      {
        CopyTexel(t, pos, uv, size, tx, ty, cursor);
        CopyStep(s, t, pos, uv, size, tx, ty, base + tx);
        TexelLayout(t.w, uv, tx, ty);
        cursor := cursor + channels;
        tx := tx + 1;
      }
      NextRowCursor(t.w, uv, tx, ty);
      cursor := cursor + (t.w - size.x) * channels;
    }

    /** The body of the inner loop: reads the texel's red, green and blue at `cursor` and draws it. */
    method CopyTexel(t: Texture, pos: IPoint, uv: IPoint, size: IPoint, tx: int, ty: int, cursor: int)
      requires Valid() && ReadsInside(t, uv, size) && 0 <= tx < size.x && 0 <= ty < size.y
      requires cursor == TexelIndex(t.w, uv, tx, ty)
      modifies pixels
      ensures pixels[..] == Plotted(old(pixels[..]), TexelPlot(t, pos, uv, size, tx, ty))
    {
      var r := t.data[cursor];
      var g := t.data[cursor + 1];
      var b := t.data[cursor + 2];
      var color: Color := 0;
      color := color | ((r as Color) << 16);
      color := color | ((g as Color) << 8);
      color := color | (b as Color);
      PackRgbSteps(r, g, b);
      DrawPixel(pos.x + tx, pos.y + ty, color);
    }
  }
}
