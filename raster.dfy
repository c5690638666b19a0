/**
 * The screen buffer as a value: a sequence of `Cells` packed colours, the
 * mapping from logical (x, y) to a buffer index, and the effect of a
 * sequence of `draw_pixel` calls on it.
 */
module Raster {
  import opened Tangram

  /** One `draw_pixel(x, y, color)` call. */
  datatype Plot = Plot(x: int, y: int, color: Color)

  /** The clip test of `draw_pixel`. */
  predicate InBounds(x: int, y: int)
  {
    0 <= x < Width && 0 <= y < Height
  }

  /**
   * Buffer index of logical cell (x, y). The drawing origin is the
   * bottom-left corner while the buffer is stored top row first, so the
   * logical row y lives in buffer row Height-1-y.
   */
  function Index(x: int, y: int): (k: nat)
    requires InBounds(x, y)
    ensures k < Cells
    ensures k / Width == Height - 1 - y
    ensures k % Width == x
  {
    (Height - 1 - y) * Width + x
  }

  /** The logical column of buffer cell k. */
  function ColumnOf(k: nat): int
    requires k < Cells
  {
    k % Width
  }

  /** The logical row of buffer cell k. */
  function RowOf(k: nat): int
    requires k < Cells
  {
    Height - 1 - k / Width
  }

  /** Every buffer cell is the image of exactly one in-bounds logical cell. */
  lemma IndexOnto(k: nat)
    requires k < Cells
    ensures InBounds(ColumnOf(k), RowOf(k))
    ensures Index(ColumnOf(k), RowOf(k)) == k
  {
  }

  lemma IndexInjective(x1: int, y1: int, x2: int, y2: int)
    requires InBounds(x1, y1) && InBounds(x2, y2)
    requires Index(x1, y1) == Index(x2, y2)
    ensures x1 == x2 && y1 == y2
  {
  }

  /** The buffer after one `draw_pixel` call: in bounds, the cell gets the swapped colour. */
  function Plotted(s: seq<Color>, p: Plot): (r: seq<Color>)
    requires |s| == Cells
    ensures |r| == Cells
  {
    if InBounds(p.x, p.y) then s[Index(p.x, p.y) := RgbToBgr(p.color)] else s
  }

  /** Read back through logical coordinates, a plot changes its own cell and no other. */
  lemma PlottedAt(s: seq<Color>, p: Plot, x: int, y: int)
    requires |s| == Cells && InBounds(x, y)
    ensures Plotted(s, p)[Index(x, y)] ==
              if p.x == x && p.y == y then RgbToBgr(p.color) else s[Index(x, y)]
  {
    if InBounds(p.x, p.y) && Index(p.x, p.y) == Index(x, y) {
      IndexInjective(p.x, p.y, x, y);
    }
  }

  /** A clipped plot leaves the whole buffer as it was. */
  lemma PlottedClipped(s: seq<Color>, p: Plot)
    requires |s| == Cells && !InBounds(p.x, p.y)
    ensures Plotted(s, p) == s
  {
  }

  /** The buffer after the calls `ps`, in order. */
  function Paint(s: seq<Color>, ps: seq<Plot>): (r: seq<Color>)
    requires |s| == Cells
    ensures |r| == Cells
    decreases |ps|
  {
    if ps == [] then s else Plotted(Paint(s, ps[..|ps| - 1]), ps[|ps| - 1])
  }

  /** One more call changes the buffer by one more `Plotted`. */
  lemma PaintSnoc(s: seq<Color>, ps: seq<Plot>, q: Plot)
    requires |s| == Cells
    ensures Paint(s, ps + [q]) == Plotted(Paint(s, ps), q)
  {
    assert (ps + [q])[..|ps|] == ps;
  }

  /** Drawing `a` and then `b` is drawing `a + b`. */
  lemma {:induction false} PaintAppend(s: seq<Color>, a: seq<Plot>, b: seq<Plot>)
    requires |s| == Cells
    ensures Paint(s, a + b) == Paint(Paint(s, a), b)
    decreases |b|
  {
    if b == [] {
      assert a + b == a;
    } else {
      var b' := b[..|b| - 1];
      assert (a + b)[..|a + b| - 1] == a + b';
      PaintAppend(s, a, b');
    }
  }

  /** Four drawings in a row are the drawing of the four call sequences joined. */
  lemma PaintFour(s: seq<Color>, a: seq<Plot>, b: seq<Plot>, c: seq<Plot>, d: seq<Plot>)
    requires |s| == Cells
    ensures Paint(Paint(Paint(Paint(s, a), b), c), d) == Paint(s, a + b + c + d)
  {
    PaintAppend(s, a, b);
    PaintAppend(s, a + b, c);
    PaintAppend(s, a + b + c, d);
  }

  /** Some plot of `ps` targets logical cell (x, y). */
  predicate Hits(ps: seq<Plot>, x: int, y: int)
  {
    exists j :: 0 <= j < |ps| && ps[j].x == x && ps[j].y == y
  }

  /** A cell no plot targets keeps its colour. */
  lemma {:induction false} PaintMiss(s: seq<Color>, ps: seq<Plot>, x: int, y: int)
    requires |s| == Cells && InBounds(x, y) && !Hits(ps, x, y)
    ensures Paint(s, ps)[Index(x, y)] == s[Index(x, y)]
    decreases |ps|
  {
    if ps != [] {
      var init := ps[..|ps| - 1];
      assert !Hits(init, x, y) by {
        forall j | 0 <= j < |init| ensures !(init[j].x == x && init[j].y == y) {
          assert init[j] == ps[j];
        }
      }
      PaintMiss(s, init, x, y);
      PlottedAt(Paint(s, init), ps[|ps| - 1], x, y);
    }
  }

  /** A cell holds the swapped colour of the last plot that targets it. */
  lemma {:induction false} PaintLastHit(s: seq<Color>, ps: seq<Plot>, j: int, x: int, y: int)
    requires |s| == Cells && InBounds(x, y)
    requires 0 <= j < |ps| && ps[j].x == x && ps[j].y == y
    requires forall i :: j < i < |ps| ==> !(ps[i].x == x && ps[i].y == y)
    ensures Paint(s, ps)[Index(x, y)] == RgbToBgr(ps[j].color)
    decreases |ps|
  {
    var init := ps[..|ps| - 1];
    PlottedAt(Paint(s, init), ps[|ps| - 1], x, y);
    if j < |ps| - 1 {
      forall i | j < i < |init| ensures !(init[i].x == x && init[i].y == y) {
        assert init[i] == ps[i];
      }
      PaintLastHit(s, init, j, x, y);
    }
  }

  /** A cell is targeted by `a + b` exactly when `a` or `b` targets it. */
  lemma HitsAppend(a: seq<Plot>, b: seq<Plot>, x: int, y: int)
    ensures Hits(a + b, x, y) <==> Hits(a, x, y) || Hits(b, x, y)
  {
    if Hits(a + b, x, y) {
      var j :| 0 <= j < |a + b| && (a + b)[j].x == x && (a + b)[j].y == y;
      if j >= |a| {
        assert b[j - |a|] == (a + b)[j];
      }
    }
    if Hits(b, x, y) {
      var j :| 0 <= j < |b| && b[j].x == x && b[j].y == y;
      assert (a + b)[|a| + j] == b[j];
    }
    if Hits(a, x, y) {
      var j :| 0 <= j < |a| && a[j].x == x && a[j].y == y;
      assert (a + b)[j] == a[j];
    }
  }

  /** All plots of `ps` carry the colour `c`. */
  predicate AllColored(ps: seq<Plot>, c: Color)
  {
    forall j :: 0 <= j < |ps| ==> ps[j].color == c
  }

  /** For one-colour plots, a cell gets the colour exactly when some plot targets it. */
  lemma PaintUniform(s: seq<Color>, ps: seq<Plot>, c: Color, x: int, y: int)
    requires |s| == Cells && InBounds(x, y) && AllColored(ps, c)
    ensures Paint(s, ps)[Index(x, y)] == if Hits(ps, x, y) then RgbToBgr(c) else s[Index(x, y)]
  {
    if Hits(ps, x, y) {
      var j :| 0 <= j < |ps| && ps[j].x == x && ps[j].y == y;
      while j + 1 < |ps| && Hits(ps[j + 1..], x, y)
        invariant 0 <= j < |ps| && ps[j].x == x && ps[j].y == y
        decreases |ps| - j
      {
        var i :| 0 <= i < |ps[j + 1..]| && ps[j + 1..][i].x == x && ps[j + 1..][i].y == y;
        j := j + 1 + i;
      }
      forall i | j < i < |ps| ensures !(ps[i].x == x && ps[i].y == y) {
        assert ps[j + 1..][i - j - 1] == ps[i];
      }
      PaintLastHit(s, ps, j, x, y);
    } else {
      PaintMiss(s, ps, x, y);
    }
  }
}
