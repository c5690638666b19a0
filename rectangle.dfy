/**
 * `draw_rectangle`: the filled box as the `draw_pixel` calls of its two
 * nested loops, and the outline as the four `draw_line` calls.
 */
module Rectangle {
  import opened Tangram
  import opened Raster
  import opened Line

  /** The inner loop of the fill: `draw_pixel(x, ry, color)` for ry from y0 up to, not including, y1. */
  function ColumnPlots(x: int, y0: int, y1: int, color: Color): (ps: seq<Plot>)
    ensures |ps| == Max(0, y1 - y0)
    decreases y1 - y0
  {
    if y1 <= y0 then [] else ColumnPlots(x, y0, y1 - 1, color) + [Plot(x, y1 - 1, color)]
  }

  /** The fill: one column for each rx from x0 up to, not including, x1. */
  function FillPlots(x0: int, x1: int, y0: int, y1: int, color: Color): seq<Plot>
    decreases x1 - x0
  {
    if x1 <= x0 then [] else FillPlots(x0, x1 - 1, y0, y1, color) + ColumnPlots(x1 - 1, y0, y1, color)
  }

  /** The four corners A, B, C, D and the lines A-B, B-C, C-D, D-A. */
  function OutlinePlots(from: Point, to: Point, color: Color): seq<Plot>
  {
    var a, b := Point(from.x, from.y), Point(to.x, from.y);
    var c, d := Point(to.x, to.y), Point(from.x, to.y);
    LinePlots(a, b, color) + LinePlots(b, c, color) + LinePlots(c, d, color) + LinePlots(d, a, color)
  }

  /** The `draw_pixel` calls of `draw_rectangle(from, to, color, outline)`. */
  function RectanglePlots(from: Point, to: Point, color: Color, outline: bool): seq<Plot>
  {
    if outline then OutlinePlots(from, to, color) else FillPlots(from.x, to.x, from.y, to.y, color)
  }

  lemma {:induction false} ColumnHits(x: int, y0: int, y1: int, color: Color, px: int, py: int)
    ensures Hits(ColumnPlots(x, y0, y1, color), px, py) <==> px == x && y0 <= py < y1
    ensures AllColored(ColumnPlots(x, y0, y1, color), color)
    decreases y1 - y0
  {
    if y0 < y1 {
      var init := ColumnPlots(x, y0, y1 - 1, color);
      ColumnHits(x, y0, y1 - 1, color, px, py);
      HitsAppend(init, [Plot(x, y1 - 1, color)], px, py);
      assert Hits([Plot(x, y1 - 1, color)], px, py) <==> px == x && py == y1 - 1 by {
        assert [Plot(x, y1 - 1, color)][0] == Plot(x, y1 - 1, color);
      }
    }
  }

  /** The fill targets exactly the cells of the half-open box [x0, x1) x [y0, y1), all in one colour. */
  lemma {:induction false} FillHits(x0: int, x1: int, y0: int, y1: int, color: Color, px: int, py: int)
    ensures Hits(FillPlots(x0, x1, y0, y1, color), px, py) <==> x0 <= px < x1 && y0 <= py < y1
    ensures AllColored(FillPlots(x0, x1, y0, y1, color), color)
    decreases x1 - x0
  {
    if x0 < x1 {
      var init := FillPlots(x0, x1 - 1, y0, y1, color);
      var col := ColumnPlots(x1 - 1, y0, y1, color);
      FillHits(x0, x1 - 1, y0, y1, color, px, py);
      ColumnHits(x1 - 1, y0, y1, color, px, py);
      HitsAppend(init, col, px, py);
      forall j | 0 <= j < |init + col| ensures (init + col)[j].color == color {
        if j >= |init| {
          assert (init + col)[j] == col[j - |init|];
        }
      }
    }
  }

  /** Each cell of the box is drawn once: the fill makes (x1-x0) * (y1-y0) calls. */
  lemma {:induction false} FillSize(x0: int, x1: int, y0: int, y1: int, color: Color)
    ensures |FillPlots(x0, x1, y0, y1, color)| == Max(0, x1 - x0) * Max(0, y1 - y0)
    decreases x1 - x0
  {
    if x0 < x1 {
      FillSize(x0, x1 - 1, y0, y1, color);
      assert Max(0, x1 - x0) * Max(0, y1 - y0) == Max(0, x1 - 1 - x0) * Max(0, y1 - y0) + Max(0, y1 - y0);
    }
  }

  /** After a fill, a cell holds the swapped colour inside the box and its old value outside. */
  lemma FillCell(s: seq<Color>, from: Point, to: Point, color: Color, x: int, y: int)
    requires |s| == Cells && InBounds(x, y)
    ensures Paint(s, RectanglePlots(from, to, color, false))[Index(x, y)] ==
              if from.x <= x < to.x && from.y <= y < to.y then RgbToBgr(color) else s[Index(x, y)]
  {
    FillHits(from.x, to.x, from.y, to.y, color, x, y);
    PaintUniform(s, FillPlots(from.x, to.x, from.y, to.y, color), color, x, y);
  }

  /** Rounding `(int)(v + 0.5f)` never reverses the order of two coordinates. */
  lemma RoundMonotone(u: int, v: int)
    requires u <= v
    ensures Round(u) <= Round(v)
  {
    RoundCoordinate(u);
    RoundCoordinate(v);
  }

  /** The cell (x, y) lies on the rounded border of the box with corners `from` and `to`. */
  predicate OnBorder(from: Point, to: Point, x: int, y: int)
  {
    var loX, hiX := Round(Min(from.x, to.x)), Round(Max(from.x, to.x));
    var loY, hiY := Round(Min(from.y, to.y)), Round(Max(from.y, to.y));
    ((y == Round(from.y) || y == Round(to.y)) && loX <= x <= hiX) ||
    ((x == Round(from.x) || x == Round(to.x)) && loY <= y <= hiY)
  }

  /** A side of the box: two corners at the same height or in the same column. */
  predicate Side(a: Point, b: Point, from: Point, to: Point)
  {
    (a.y == b.y && (a.y == from.y || a.y == to.y) &&
     ((a.x == from.x && b.x == to.x) || (a.x == to.x && b.x == from.x))) ||
    (a.x == b.x && (a.x == from.x || a.x == to.x) &&
     ((a.y == from.y && b.y == to.y) || (a.y == to.y && b.y == from.y)))
  }

  /** A point between the two ends of a side rounds to a border cell. */
  lemma SidePoint(a: Point, b: Point, from: Point, to: Point, p: Point)
    requires Side(a, b, from, to)
    requires Min(a.x, b.x) <= p.x <= Max(a.x, b.x) && Min(a.y, b.y) <= p.y <= Max(a.y, b.y)
    ensures OnBorder(from, to, Round(p.x), Round(p.y))
  {
    RoundMonotone(Min(from.x, to.x), p.x);
    RoundMonotone(p.x, Max(from.x, to.x));
    RoundMonotone(Min(from.y, to.y), p.y);
    RoundMonotone(p.y, Max(from.y, to.y));
  }

  /** Every plot of a side runs along the side. */
  lemma SidePlots(a: Point, b: Point, from: Point, to: Point, color: Color)
    requires Side(a, b, from, to)
    ensures forall j :: 0 <= j < |LinePlots(a, b, color)| ==>
              OnBorder(from, to, LinePlots(a, b, color)[j].x, LinePlots(a, b, color)[j].y)
  {
    TraceShape(a, b);
    var t := Trace(a, b);
    var g := Setup(a, b);
    forall j | 0 <= j < |t| ensures OnBorder(from, to, Round(t[j].x), Round(t[j].y)) {
      assert InBox(g, t[j]);
      SidePoint(a, b, from, to, t[j]);
    }
  }

  lemma BorderAppend(from: Point, to: Point, a: seq<Plot>, b: seq<Plot>)
    requires forall j :: 0 <= j < |a| ==> OnBorder(from, to, a[j].x, a[j].y)
    requires forall j :: 0 <= j < |b| ==> OnBorder(from, to, b[j].x, b[j].y)
    ensures forall j :: 0 <= j < |a + b| ==> OnBorder(from, to, (a + b)[j].x, (a + b)[j].y)
  {
    forall j | 0 <= j < |a + b| ensures OnBorder(from, to, (a + b)[j].x, (a + b)[j].y) {
      if j >= |a| {
        assert (a + b)[j] == b[j - |a|];
      } else {
        assert (a + b)[j] == a[j];
      }
    }
  }

  /** The outline draws only border cells of the (rounded) box, never its interior. */
  lemma OutlineOnBorder(from: Point, to: Point, color: Color)
    ensures var ps := RectanglePlots(from, to, color, true);
      forall j :: 0 <= j < |ps| ==> OnBorder(from, to, ps[j].x, ps[j].y)
  {
    var a, b := Point(from.x, from.y), Point(to.x, from.y);
    var c, d := Point(to.x, to.y), Point(from.x, to.y);
    SidePlots(a, b, from, to, color);
    SidePlots(b, c, from, to, color);
    SidePlots(c, d, from, to, color);
    SidePlots(d, a, from, to, color);
    BorderAppend(from, to, LinePlots(a, b, color), LinePlots(b, c, color));
    BorderAppend(from, to, LinePlots(a, b, color) + LinePlots(b, c, color), LinePlots(c, d, color));
    BorderAppend(from, to, LinePlots(a, b, color) + LinePlots(b, c, color) + LinePlots(c, d, color), LinePlots(d, a, color));
  }

  /** A line targets the rounded cell of its start point. */
  lemma LineHitsStart(a: Point, b: Point, color: Color)
    ensures Hits(LinePlots(a, b, color), Round(a.x), Round(a.y))
  {
    TraceShape(a, b);
    assert LinePlots(a, b, color)[0] == Plot(Round(a.x), Round(a.y), color);
  }

  /** The outline draws all four corners. */
  lemma OutlineCorners(from: Point, to: Point, color: Color)
    ensures var ps := RectanglePlots(from, to, color, true);
      Hits(ps, Round(from.x), Round(from.y)) && Hits(ps, Round(to.x), Round(from.y)) &&
      Hits(ps, Round(to.x), Round(to.y)) && Hits(ps, Round(from.x), Round(to.y))
  {
    var a, b := Point(from.x, from.y), Point(to.x, from.y);
    var c, d := Point(to.x, to.y), Point(from.x, to.y);
    var l1, l2, l3, l4 := LinePlots(a, b, color), LinePlots(b, c, color), LinePlots(c, d, color), LinePlots(d, a, color);
    LineHitsStart(a, b, color);
    LineHitsStart(b, c, color);
    LineHitsStart(c, d, color);
    LineHitsStart(d, a, color);
    HitsAppend(l1, l2, Round(a.x), Round(a.y));
    HitsAppend(l1 + l2, l3, Round(a.x), Round(a.y));
    HitsAppend(l1 + l2 + l3, l4, Round(a.x), Round(a.y));
    HitsAppend(l1, l2, Round(b.x), Round(b.y));
    HitsAppend(l1 + l2, l3, Round(b.x), Round(b.y));
    HitsAppend(l1 + l2 + l3, l4, Round(b.x), Round(b.y));
    HitsAppend(l1, l2, Round(c.x), Round(c.y));
    HitsAppend(l1 + l2, l3, Round(c.x), Round(c.y));
    HitsAppend(l1 + l2 + l3, l4, Round(c.x), Round(c.y));
    HitsAppend(l1, l2, Round(d.x), Round(d.y));
    HitsAppend(l1 + l2, l3, Round(d.x), Round(d.y));
    HitsAppend(l1 + l2 + l3, l4, Round(d.x), Round(d.y));
  }

  /** After an outline, a cell holds the swapped colour exactly when one of the four sides targets it. */
  lemma OutlineCell(s: seq<Color>, from: Point, to: Point, color: Color, x: int, y: int)
    requires |s| == Cells && InBounds(x, y)
    ensures var a, b := Point(from.x, from.y), Point(to.x, from.y);
      var c, d := Point(to.x, to.y), Point(from.x, to.y);
      Paint(s, RectanglePlots(from, to, color, true))[Index(x, y)] ==
        if Hits(LinePlots(a, b, color), x, y) || Hits(LinePlots(b, c, color), x, y) ||
           Hits(LinePlots(c, d, color), x, y) || Hits(LinePlots(d, a, color), x, y)
        then RgbToBgr(color) else s[Index(x, y)]
  {
    var a, b := Point(from.x, from.y), Point(to.x, from.y);
    var c, d := Point(to.x, to.y), Point(from.x, to.y);
    var l1, l2, l3, l4 := LinePlots(a, b, color), LinePlots(b, c, color), LinePlots(c, d, color), LinePlots(d, a, color);
    HitsAppend(l1, l2, x, y);
    HitsAppend(l1 + l2, l3, x, y);
    HitsAppend(l1 + l2 + l3, l4, x, y);
    assert AllColored(l1 + l2 + l3 + l4, color);
    PaintUniform(s, l1 + l2 + l3 + l4, color, x, y);
  }
}
