/**
 * `draw_line`: Bresenham's algorithm over integer-valued endpoints. The
 * sequence of points the loop plots is `Trace(from, to)`; the lemmas
 * below say where it starts and ends, how long it is and how it moves.
 */
module Line {
  import opened Tangram
  import opened Raster

  /** `fabs` on an integer-valued float. */
  function Abs(v: int): (r: nat)
    ensures r == v || r == -v
  {
    if v < 0 then -v else v
  }

  /** C's conversion to `int` of a / 2: truncation toward zero. */
  function TruncHalf(a: int): (q: int)
    ensures 0 <= a ==> 0 <= 2 * q <= a < 2 * q + 2
    ensures a < 0 ==> 2 * q - 2 < a <= 2 * q <= 0
  {
    if a >= 0 then a / 2 else -((-a) / 2)
  }

  /** `(int)(v + 0.5f)` for an integer-valued `v`, that is (2v + 1) / 2 truncated. */
  function Round(v: int): int
  {
    TruncHalf(2 * v + 1)
  }

  /** Non-negative coordinates are kept; a negative one moves up by one, so -1 lands on 0. */
  lemma RoundCoordinate(v: int)
    ensures Round(v) == if v >= 0 then v else v + 1
  {
  }

  /** A move of n units in direction s, which is 1 or -1. */
  function Offset(s: int, n: int): int
  {
    if s == 1 then n else -n
  }

  /** The quantities `draw_line` computes before its loop, with `m = fmaxf(dx, dy)`. */
  datatype Bresenham = Bresenham(from: Point, to: Point, dx: int, dy: int, sx: int, sy: int, m: int)

  /** What the set-up guarantees about its quantities. */
  predicate Consistent(g: Bresenham)
  {
    0 <= g.dx && 0 <= g.dy && g.m == Max(g.dx, g.dy) &&
    (g.sx == 1 || g.sx == -1) && (g.sy == 1 || g.sy == -1) &&
    g.to.x == g.from.x + Offset(g.sx, g.dx) && g.to.y == g.from.y + Offset(g.sy, g.dy)
  }

  function Setup(from: Point, to: Point): (g: Bresenham)
    ensures g.from == from && g.to == to
  {
    var dx := Abs(to.x - from.x);
    var dy := Abs(to.y - from.y);
    Bresenham(from, to, dx, dy,
              if from.x < to.x then 1 else -1,
              if from.y < to.y then 1 else -1,
              Max(dx, dy))
  }

  lemma SetupConsistent(from: Point, to: Point)
    ensures Consistent(Setup(from, to))
  {
  }

  /** The loop body after the plot: `e2 = 2 * err` decides which axes advance. */
  function Advance(g: Bresenham, p: Point, err: int): (Point, int)
  {
    var e2 := 2 * err;
    var xStep := e2 > -g.dy;
    var yStep := e2 < g.dx;
    (Point(if xStep then p.x + g.sx else p.x, if yStep then p.y + g.sy else p.y),
     err - (if xStep then g.dy else 0) + (if yStep then g.dx else 0))
  }

  /** The points plotted from loop state (p, err) at iteration i on. */
  function Walk(g: Bresenham, p: Point, err: int, i: nat): seq<Point>
    decreases g.m + 1 - i
  {
    if i > g.m then []
    else if p == g.to then [p]
    else
      var next := Advance(g, p, err);
      [p] + Walk(g, next.0, next.1, i + 1)
  }

  /** An iteration that does not stop plots p and hands the advanced state to the next one. */
  lemma WalkStep(done: seq<Point>, g: Bresenham, p: Point, err: int, i: nat)
    requires i <= g.m && p != g.to
    ensures done + Walk(g, p, err, i) == (done + [p]) + Walk(g, Advance(g, p, err).0, Advance(g, p, err).1, i + 1)
  {
  }

  /** The iteration that reaches `to` plots it and is the last. */
  lemma WalkStop(done: seq<Point>, g: Bresenham, err: int, i: nat)
    requires i <= g.m
    ensures done + Walk(g, g.to, err, i) == done + [g.to]
  {
  }

  /** Once the counter passes m nothing more is plotted. */
  lemma WalkExhausted(done: seq<Point>, g: Bresenham, p: Point, err: int, i: nat)
    requires i > g.m
    ensures done + Walk(g, p, err, i) == done
  {
  }

  /** The points `draw_line(from, to, _)` plots, in order, before rounding. */
  function Trace(from: Point, to: Point): seq<Point>
  {
    var g := Setup(from, to);
    Walk(g, from, g.dx - g.dy, 0)
  }

  /** The `draw_pixel` calls for points `t`: each coordinate rounded as `(int)(v + 0.5f)`. */
  function PlotsOf(t: seq<Point>, c: Color): (ps: seq<Plot>)
    ensures |ps| == |t|
  {
    seq(|t|, k requires 0 <= k < |t| => Plot(Round(t[k].x), Round(t[k].y), c))
  }

  lemma PlotsOfSnoc(t: seq<Point>, p: Point, c: Color)
    ensures PlotsOf(t + [p], c) == PlotsOf(t, c) + [Plot(Round(p.x), Round(p.y), c)]
  {
  }

  /** Plotting one more point of a line is one more `Plotted` on the buffer. */
  lemma PaintPointsSnoc(s: seq<Color>, t: seq<Point>, p: Point, c: Color)
    requires |s| == Cells
    ensures Paint(s, PlotsOf(t + [p], c)) == Plotted(Paint(s, PlotsOf(t, c)), Plot(Round(p.x), Round(p.y), c))
  {
    PlotsOfSnoc(t, p, c);
    PaintSnoc(s, PlotsOf(t, c), Plot(Round(p.x), Round(p.y), c));
  }

  /** The `draw_pixel` calls of `draw_line(from, to, c)`. */
  function LinePlots(from: Point, to: Point, c: Color): seq<Plot>
  {
    PlotsOf(Trace(from, to), c)
  }

  /** One step of an 8-connected path: each axis stays or moves one unit toward `to`. */
  predicate Adjacent(g: Bresenham, p: Point, q: Point)
  {
    (q.x == p.x || q.x == p.x + g.sx) &&
    (q.y == p.y || q.y == p.y + g.sy) &&
    p != q
  }

  /** The point lies in the bounding box of the segment. */
  predicate InBox(g: Bresenham, p: Point)
  {
    Min(g.from.x, g.to.x) <= p.x <= Max(g.from.x, g.to.x) &&
    Min(g.from.y, g.to.y) <= p.y <= Max(g.from.y, g.to.y)
  }

  // The proof tracks X and Y, the steps taken along each axis. The loop
  // keeps err == (Y+1)*dx - (X+1)*dy, so D = Y*dx - X*dy is twice the
  // distance of the point from the ideal line, scaled by the length.

  function At(g: Bresenham, X: int, Y: int): Point
  {
    Point(g.from.x + Offset(g.sx, X), g.from.y + Offset(g.sy, Y))
  }

  function ErrAt(g: Bresenham, X: int, Y: int): int
  {
    (Y + 1) * g.dx - (X + 1) * g.dy
  }

  ghost predicate OnTrack(g: Bresenham, X: nat, Y: nat, i: nat)
  {
    Consistent(g) &&
    X <= g.dx && Y <= g.dy && i <= g.m &&
    (if g.dy <= g.dx then X == i else Y == i) &&
    -g.m <= 2 * (Y * g.dx - X * g.dy) <= g.m &&
    (g.dx == g.dy ==> X == Y)
  }

  function NextX(g: Bresenham, X: nat, Y: nat): nat
  {
    if 2 * ErrAt(g, X, Y) > -g.dy then X + 1 else X
  }

  function NextY(g: Bresenham, X: nat, Y: nat): nat
  {
    if 2 * ErrAt(g, X, Y) < g.dx then Y + 1 else Y
  }

  /** Behind on the major axis, being level on the minor one puts the point above the ideal line. */
  lemma AheadOfLine(major: int, minor: int, A: int)
    requires 0 <= A < major && 0 <= minor
    ensures minor * major - A * minor >= minor
  {
    MulMono(A, major - 1, minor);
    assert (major - 1) * minor == major * minor - minor;
  }

  lemma AdvanceAt(g: Bresenham, X: nat, Y: nat)
    requires Consistent(g)
    ensures Advance(g, At(g, X, Y), ErrAt(g, X, Y)) ==
              (At(g, NextX(g, X, Y), NextY(g, X, Y)), ErrAt(g, NextX(g, X, Y), NextY(g, X, Y)))
  {
    assert (X + 2) * g.dy == (X + 1) * g.dy + g.dy;
    assert (Y + 2) * g.dx == (Y + 1) * g.dx + g.dx;
  }

  lemma InBoxAt(g: Bresenham, X: nat, Y: nat)
    requires Consistent(g) && X <= g.dx && Y <= g.dy
    ensures InBox(g, At(g, X, Y))
  {
  }

  /**
   * One loop step on the deviation d = Y*dx - X*dy, in linear terms only:
   * `xStep` and `yStep` are the two tests of the loop body.
   */
  lemma StepArith(dx: int, dy: int, m: int, X: int, Y: int, i: int, d: int)
    requires 0 <= dx && 0 <= dy && m == Max(dx, dy)
    requires 0 <= X <= dx && 0 <= Y <= dy && 0 <= i < m
    requires if dy <= dx then X == i else Y == i
    requires -m <= 2 * d <= m && (dx == dy ==> X == Y && d == 0)
    requires dy < dx && Y == dy ==> d >= dy
    requires dx < dy && X == dx ==> d <= -dx
    ensures var e2 := 2 * (d + dx - dy);
      var xStep, yStep := e2 > -dy, e2 < dx;
      var X', Y' := if xStep then X + 1 else X, if yStep then Y + 1 else Y;
      var d' := d - (if xStep then dy else 0) + (if yStep then dx else 0);
      X' <= dx && Y' <= dy &&
      (if dy <= dx then X' == i + 1 else Y' == i + 1) &&
      -m <= 2 * d' <= m && (dx == dy ==> X' == Y' && d' == 0)
  {
  }

  /** The deviation after a step of a along x and b along y. */
  lemma DeviationStep(dx: int, dy: int, X: int, Y: int, a: int, b: int)
    ensures (Y + b) * dx - (X + a) * dy == (Y * dx - X * dy) - a * dy + b * dx
  {
  }

  lemma StepOnTrack(g: Bresenham, X: nat, Y: nat, i: nat)
    requires OnTrack(g, X, Y, i) && i < g.m
    ensures OnTrack(g, NextX(g, X, Y), NextY(g, X, Y), i + 1)
    ensures NextX(g, X, Y) == X + 1 || NextY(g, X, Y) == Y + 1
  {
    var dx, dy := g.dx, g.dy;
    var d := Y * dx - X * dy;
    DeviationStep(dx, dy, X, Y, 1, 1);
    assert ErrAt(g, X, Y) == d + dx - dy;
    if dy < dx && Y == dy {
      AheadOfLine(dx, dy, X);
    }
    if dx < dy && X == dx {
      AheadOfLine(dy, dx, Y);
    }
    StepArith(dx, dy, g.m, X, Y, i, d);
    var X', Y' := NextX(g, X, Y), NextY(g, X, Y);
    DeviationStep(dx, dy, X, Y, X' - X, Y' - Y);
  }

  /** Before the last iteration the loop has not reached `to`. */
  lemma NotAtEnd(g: Bresenham, X: nat, Y: nat, i: nat)
    requires OnTrack(g, X, Y, i) && i < g.m
    ensures At(g, X, Y) != g.to
  {
    if g.dy <= g.dx {
      assert X < g.dx;
      if g.sx == 1 {
        assert At(g, X, Y).x < g.to.x;
      } else {
        assert At(g, X, Y).x > g.to.x;
      }
    } else {
      assert Y < g.dy;
      if g.sy == 1 {
        assert At(g, X, Y).y < g.to.y;
      } else {
        assert At(g, X, Y).y > g.to.y;
      }
    }
  }

  /** A step that moves some axis by one unit is a step of an 8-connected path. */
  lemma AdjacentAt(g: Bresenham, X: nat, Y: nat, X': nat, Y': nat)
    requires Consistent(g)
    requires (X' == X || X' == X + 1) && (Y' == Y || Y' == Y + 1) && (X' == X + 1 || Y' == Y + 1)
    ensures Adjacent(g, At(g, X, Y), At(g, X', Y'))
  {
  }

  lemma EndOnTrack(g: Bresenham, X: nat, Y: nat)
    requires 0 <= g.m && OnTrack(g, X, Y, g.m)
    ensures At(g, X, Y) == g.to
  {
    var dx, dy := g.dx, g.dy;
    if dy <= dx {
      if Y < dy {
        AheadOfLine(dy, dx, Y);
      }
    } else {
      if X < dx {
        AheadOfLine(dx, dy, X);
      }
    }
  }

  /** A path that moves one 8-connected step at a time, stays in the box and reaches `to` only at its end. */
  ghost predicate PathTo(g: Bresenham, t: seq<Point>)
  {
    |t| > 0 && t[|t| - 1] == g.to &&
    (forall k :: 0 <= k < |t| - 1 ==> t[k] != g.to && Adjacent(g, t[k], t[k + 1])) &&
    (forall k :: 0 <= k < |t| ==> InBox(g, t[k]))
  }

  /** Putting one more adjacent, in-box point that is not `to` in front of a path keeps it a path. */
  lemma PathCons(g: Bresenham, p: Point, rest: seq<Point>)
    requires PathTo(g, rest) && p != g.to && Adjacent(g, p, rest[0]) && InBox(g, p)
    ensures PathTo(g, [p] + rest)
  {
    var t := [p] + rest;
    forall k | 0 <= k < |t| - 1 ensures t[k] != g.to && Adjacent(g, t[k], t[k + 1]) {
      if k > 0 {
        assert t[k] == rest[k - 1] && t[k + 1] == rest[k];
      }
    }
    forall k | 0 <= k < |t| ensures InBox(g, t[k]) {
      if k > 0 {
        assert t[k] == rest[k - 1];
      }
    }
  }

  lemma {:induction false} WalkOnTrack(g: Bresenham, X: nat, Y: nat, i: nat)
    requires OnTrack(g, X, Y, i)
    ensures var t := Walk(g, At(g, X, Y), ErrAt(g, X, Y), i);
      |t| == g.m - i + 1 && t[0] == At(g, X, Y) && PathTo(g, t)
    decreases g.m - i
  {
    InBoxAt(g, X, Y);
    if i == g.m {
      EndOnTrack(g, X, Y);
    } else {
      StepOnTrack(g, X, Y, i);
      NotAtEnd(g, X, Y, i);
      AdvanceAt(g, X, Y);
      var X', Y' := NextX(g, X, Y), NextY(g, X, Y);
      AdjacentAt(g, X, Y, X', Y');
      WalkOnTrack(g, X', Y', i + 1);
      var rest := Walk(g, At(g, X', Y'), ErrAt(g, X', Y'), i + 1);
      assert Walk(g, At(g, X, Y), ErrAt(g, X, Y), i) == [At(g, X, Y)] + rest;
      PathCons(g, At(g, X, Y), rest);
    }
  }

  /**
   * `draw_line` plots `from` first and `to` last, never reaches `to` before
   * its last plot, plots exactly max(dx, dy) + 1 points, and each plot
   * after the first moves each axis by at most one unit toward `to`,
   * staying inside the segment's bounding box: an 8-connected path.
   */
  lemma TraceShape(from: Point, to: Point)
    ensures var t := Trace(from, to);
      var g := Setup(from, to);
      |t| == Max(Abs(to.x - from.x), Abs(to.y - from.y)) + 1 &&
      t[0] == from && t[|t| - 1] == to &&
      (forall k :: 0 <= k < |t| - 1 ==> t[k] != to && Adjacent(g, t[k], t[k + 1])) &&
      (forall k :: 0 <= k < |t| ==> InBox(g, t[k]))
  {
    var g := Setup(from, to);
    SetupConsistent(from, to);
    assert At(g, 0, 0) == from;
    assert ErrAt(g, 0, 0) == g.dx - g.dy;
    WalkOnTrack(g, 0, 0, 0);
  }

  /** A degenerate line plots its one point once. */
  lemma TraceSinglePoint(p: Point)
    ensures Trace(p, p) == [p]
  {
  }

  /** The horizontal line from (0,0) to (4,0) plots the five points between them. */
  lemma TraceHorizontal(from: Point, to: Point)
    requires from == Point(0, 0) && to == Point(4, 0)
    ensures Trace(from, to) == [Point(0, 0), Point(1, 0), Point(2, 0), Point(3, 0), Point(4, 0)]
  {
    var g := Setup(from, to);
    assert g == Bresenham(Point(0, 0), Point(4, 0), 4, 0, 1, -1, 4);
    assert Walk(g, Point(4, 0), 4, 4) == [Point(4, 0)];
    assert Walk(g, Point(3, 0), 4, 3) == [Point(3, 0)] + Walk(g, Point(4, 0), 4, 4);
    assert Walk(g, Point(2, 0), 4, 2) == [Point(2, 0)] + Walk(g, Point(3, 0), 4, 3);
    assert Walk(g, Point(1, 0), 4, 1) == [Point(1, 0)] + Walk(g, Point(2, 0), 4, 2);
    assert Walk(g, Point(0, 0), 4, 0) == [Point(0, 0)] + Walk(g, Point(1, 0), 4, 1);
  }

  /** The diagonal from (0,0) to (3,3) plots its four points. */
  lemma TraceDiagonal(from: Point, to: Point)
    requires from == Point(0, 0) && to == Point(3, 3)
    ensures Trace(from, to) == [Point(0, 0), Point(1, 1), Point(2, 2), Point(3, 3)]
  {
    var g := Setup(from, to);
    assert g == Bresenham(Point(0, 0), Point(3, 3), 3, 3, 1, 1, 3);
    assert Walk(g, Point(3, 3), 0, 3) == [Point(3, 3)];
    assert Walk(g, Point(2, 2), 0, 2) == [Point(2, 2)] + Walk(g, Point(3, 3), 0, 3);
    assert Walk(g, Point(1, 1), 0, 1) == [Point(1, 1)] + Walk(g, Point(2, 2), 0, 2);
    assert Walk(g, Point(0, 0), 0, 0) == [Point(0, 0)] + Walk(g, Point(1, 1), 0, 1);
  }

  /**
   * Drawing a line in the other direction can plot other pixels: from
   * (0,0) to (2,1) passes (1,0), from (2,1) to (0,0) passes (1,1).
   */
  lemma LineNotSymmetric(a: Point, b: Point)
    requires a == Point(0, 0) && b == Point(2, 1)
    ensures Trace(a, b) == [Point(0, 0), Point(1, 0), Point(2, 1)]
    ensures Trace(b, a) == [Point(2, 1), Point(1, 1), Point(0, 0)]
  {
    var g := Setup(a, b);
    assert g == Bresenham(Point(0, 0), Point(2, 1), 2, 1, 1, 1, 2);
    assert Walk(g, Point(2, 1), 1, 2) == [Point(2, 1)];
    assert Walk(g, Point(1, 0), 0, 1) == [Point(1, 0)] + Walk(g, Point(2, 1), 1, 2);
    assert Walk(g, Point(0, 0), 1, 0) == [Point(0, 0)] + Walk(g, Point(1, 0), 0, 1);
    var h := Setup(b, a);
    assert h == Bresenham(Point(2, 1), Point(0, 0), 2, 1, -1, -1, 2);
    assert Walk(h, Point(0, 0), 1, 2) == [Point(0, 0)];
    assert Walk(h, Point(1, 1), 0, 1) == [Point(1, 1)] + Walk(h, Point(0, 0), 1, 2);
    assert Walk(h, Point(2, 1), 1, 0) == [Point(2, 1)] + Walk(h, Point(1, 1), 0, 1);
  }

  /** A line drawn wholly at x = -1, left of the screen, still paints column 0. */
  lemma OffscreenLinePaints(c: Color)
    ensures Hits(LinePlots(Point(-1, 5), Point(-1, 10), c), 0, 5)
  {
    TraceShape(Point(-1, 5), Point(-1, 10));
    var t := Trace(Point(-1, 5), Point(-1, 10));
    RoundCoordinate(-1);
    assert LinePlots(Point(-1, 5), Point(-1, 10), c)[0] == Plot(0, 5, c);
  }

  /** A cell gets the line colour exactly when some rounded point of the trace lands on it. */
  lemma LineCell(s: seq<Color>, from: Point, to: Point, c: Color, x: int, y: int)
    requires |s| == Cells && InBounds(x, y)
    ensures var t := Trace(from, to);
      Paint(s, LinePlots(from, to, c))[Index(x, y)] ==
        if exists k :: 0 <= k < |t| && Round(t[k].x) == x && Round(t[k].y) == y
        then RgbToBgr(c) else s[Index(x, y)]
  {
    var t := Trace(from, to);
    var ps := LinePlots(from, to, c);
    PaintUniform(s, ps, c, x, y);
    if exists k :: 0 <= k < |t| && Round(t[k].x) == x && Round(t[k].y) == y {
      var k :| 0 <= k < |t| && Round(t[k].x) == x && Round(t[k].y) == y;
      assert ps[k].x == x && ps[k].y == y;
    }
    if Hits(ps, x, y) {
      var j :| 0 <= j < |ps| && ps[j].x == x && ps[j].y == y;
      assert Round(t[j].x) == x && Round(t[j].y) == y;
    }
  }
}
