# Tangram: the software rasteriser and the frame clock

Tangram is a small C game engine. It draws every frame on the CPU, into a
960 by 720 buffer of packed colours (`tangram.screen`), and then uploads that
buffer to the GPU as one texture. This project models that rasteriser and
the frame clock that paces the main loop. It proves what each operation does
to the buffer and to the clock.

The modules follow the source:

- `Tangram` (tangram.dfy) holds the header's macros `RGB_TO_BGR`, `max`,
  `min` and `sign`. It also holds the constants `width`, `height` and `fps`,
  and the records `Point`, `IPoint` and `TangramTexture`.
- `Raster` (raster.dfy) sees the screen buffer as a value: a sequence of
  `Cells` colours. It gives the logical-to-buffer index, which flips the y
  axis. `Plotted` is the effect of one `draw_pixel` call, and `Paint` is the
  effect of a sequence of them.
- `Line` (line.dfy) is the Bresenham loop of `draw_line`. `Trace` is the
  sequence of points the loop plots, with its shape proved: it starts at
  `from` and ends at `to`, has max(dx, dy) + 1 points and is 8-connected.
- `Rectangle` (rectangle.dfy) gives the `draw_pixel` calls of
  `draw_rectangle`. The fill covers the half-open box. The outline is the
  four lines, which run along the border and reach all four corners.
- `Sprite` (sprite.dfy) gives the `draw_pixel` calls of `draw_texture` and
  proves which texel ends up in which screen cell.
- `Screen` (framebuffer.dfy) is the screen buffer as a class over an
  `array`. Its methods carry the loops of the source. `init_screen` and
  `draw_clear` are stated cell by cell. Each drawing method (pixel, line,
  rectangle, texture) is proved to leave the array as `Paint` of the old
  contents and that operation's sequence of `draw_pixel` calls.
- `Clock` (clock.dfy) is `TangramClock` as a class with its five unsigned
  64-bit fields. It includes `every_n_frames` and the pacing delay of the
  main loop.

The millisecond time source (`SDL_GetTicks64`) is a parameter of every
operation that reads it.

## Model

| member | source | states |
|---|---|---|
| Tangram.RgbToBgr | src/tangram.h:26 | bytes 0 and 2 of the colour trade places, byte 1 stays and byte 3 becomes zero |
| Tangram.RgbToBgrIs24Bit | src/tangram.h:26 | the swapped colour always fits in 24 bits, whatever the top byte held |
| Tangram.RgbToBgrInvolution | src/tangram.h:26 | applied twice to a 24-bit colour the swap gives back the colour |
| Tangram.Max | src/tangram.h:27 | the result is one of the two arguments and no smaller than either |
| Tangram.Min | src/tangram.h:28 | the result is one of the two arguments and no larger than either |
| Tangram.Sign | src/tangram.h:29 | the result is 1 or -1 and is negative exactly when x is, zero counting as positive |
| Tangram.ScreenConstants | src/tangram.h:33-34 | the buffer has 960 * 720 = 691200 cells |
| Raster.Index | src/main.c:136-138 | an in-bounds (x, y) maps to a buffer cell whose row is height-1-y and whose column is x |
| Raster.IndexOnto | src/main.c:136-138 | every buffer cell is the image of an in-bounds logical cell |
| Raster.IndexInjective | src/main.c:136-138 | two in-bounds logical cells never share a buffer cell |
| Raster.Plotted | src/main.c:134-161 | the buffer after one draw_pixel call: in bounds, the cell at the flipped index gets the swapped colour; the buffer keeps its size |
| Raster.Paint | src/main.c:134-161 | the buffer after a sequence of draw_pixel calls, applied in order; the buffer keeps its size |
| Raster.PlottedAt | src/main.c:134-161 | one draw_pixel sets its own cell to the swapped colour and leaves every other cell |
| Raster.PlottedClipped | src/main.c:134-161 | a draw_pixel outside the screen leaves the whole buffer unchanged |
| Raster.PaintAppend | src/main.c:134-161 | drawing one call sequence and then another is drawing the two joined |
| Raster.PaintMiss | src/main.c:134-161 | a cell that no call targets keeps its colour |
| Raster.PaintLastHit | src/main.c:134-161 | a cell holds the swapped colour of the last call that targets it |
| Raster.PaintUniform | src/main.c:134-161 | for calls of one colour, a cell gets that colour exactly when some call targets it |
| Raster.HitsAppend | src/main.c:134-161 | a cell is targeted by a joined sequence exactly when one of the parts targets it |
| Line.Abs | src/main.c:166-167 | the distance is non-negative and is the difference or its negation |
| Line.TruncHalf | src/main.c:174 | the conversion to int truncates toward zero, from below for positive and from above for negative values |
| Line.Round | src/main.c:174 | `(int)(v + 0.5f)` for an integer-valued v, as C truncation of (2v + 1) / 2 |
| Line.RoundCoordinate | src/main.c:174 | `(int)(v + 0.5f)` keeps a non-negative integer and moves a negative one up by one |
| Line.Setup | src/main.c:166-172 | the set-up values dx, dy, sx, sy and the loop bound m = fmaxf(dx, dy), for the given endpoints |
| Line.Advance | src/main.c:177-187 | the loop body after the plot: with e2 = 2 * err, x steps when e2 > -dy and y steps when e2 < dx, and err changes to match |
| Line.Walk | src/main.c:172-188 | the points the loop plots from state (p, err) at iteration i: none past m, p alone when p is `to`, otherwise p and then the advanced state |
| Line.Trace | src/main.c:163-189 | the points `draw_line` plots: the walk from `from` with err = dx - dy and i = 0 |
| Line.PlotsOf | src/main.c:174 | one draw_pixel call per point, each coordinate rounded, as many calls as points |
| Line.LinePlots | src/main.c:163-189 | the draw_pixel calls of `draw_line(from, to, color)` |
| Line.PaintPointsSnoc | src/main.c:174 | plotting one more point of the line is one more draw_pixel on the buffer |
| Line.SetupConsistent | src/main.c:166-170 | the set-up gives non-negative dx and dy, unit steps sx and sy, and `to` = `from` moved dx and dy along them |
| Line.WalkStep | src/main.c:172-188 | an iteration that has not reached `to` plots its point and hands the advanced state to the next iteration |
| Line.WalkStop | src/main.c:175-176 | the iteration that reaches `to` plots it and ends the loop |
| Line.WalkExhausted | src/main.c:172 | once the counter passes max(dx, dy) nothing more is plotted |
| Line.StepOnTrack | src/main.c:177-187 | each step keeps the point within half a unit of the ideal line, moves the major axis, and moves at least one axis |
| Line.EndOnTrack | src/main.c:172-176 | after max(dx, dy) steps the loop stands at `to` |
| Line.WalkOnTrack | src/main.c:172-188 | from any state on the track the remaining plots number m - i + 1 and form a path that ends at `to` |
| Line.TraceShape | src/main.c:163-189 | the line plots `from` first and `to` last, never reaches `to` earlier, makes max(dx, dy) + 1 plots, moves each axis by at most one unit toward `to` at each step and stays in the bounding box |
| Line.TraceSinglePoint | src/main.c:172-176 | a line from a point to itself plots that point once |
| Line.TraceHorizontal | src/main.c:163-189 | the line (0,0)-(4,0) plots the five points between its ends |
| Line.TraceDiagonal | src/main.c:163-189 | the line (0,0)-(3,3) plots the four diagonal points |
| Line.LineNotSymmetric | src/main.c:163-189 | (0,0)-(2,1) passes (1,0) while (2,1)-(0,0) passes (1,1): the direction matters |
| Line.OffscreenLinePaints | src/main.c:174 | the rounding makes a line at x = -1 paint column 0 |
| Line.LineCell | src/main.c:163-189 | a cell gets the line colour exactly when some rounded point of the trace lands on it |
| Line.PlotsOfSnoc | src/main.c:174 | plotting one more point adds one rounded draw_pixel call at the end |
| Rectangle.ColumnPlots | src/main.c:207-208 | the inner loop for one column makes max(0, y1 - y0) calls |
| Rectangle.FillPlots | src/main.c:206-208 | the fill's calls: one column for each rx from from.x up to, not including, to.x |
| Rectangle.OutlinePlots | src/main.c:193-202 | the outline's calls: the lines A-B, B-C, C-D, D-A in that order |
| Rectangle.RectanglePlots | src/main.c:191-210 | the draw_pixel calls of `draw_rectangle`: the outline or the fill |
| Rectangle.ColumnHits | src/main.c:207-208 | the inner loop targets exactly the cells of column x from y0 up to, not including, y1, all in one colour |
| Rectangle.FillHits | src/main.c:206-208 | the fill targets exactly the half-open box [from.x, to.x) x [from.y, to.y), all in one colour |
| Rectangle.FillSize | src/main.c:206-208 | the fill makes max(0, to.x - from.x) * max(0, to.y - from.y) calls, one per cell of the box |
| Rectangle.FillCell | src/main.c:204-209 | after a fill a cell holds the swapped colour inside the box and its old colour outside |
| Rectangle.RoundMonotone | src/main.c:174 | rounding keeps the order of two coordinates |
| Rectangle.SidePoint | src/main.c:193-202 | a point between the ends of a side rounds to a border cell |
| Rectangle.SidePlots | src/main.c:193-202 | every call of a side lies on the border of the box |
| Rectangle.BorderAppend | src/main.c:199-202 | joining calls that stay on the border stays on the border |
| Rectangle.OutlineOnBorder | src/main.c:197-203 | the outline draws only border cells, never the interior |
| Rectangle.LineHitsStart | src/main.c:174 | a line targets the rounded cell of its start point |
| Rectangle.OutlineCorners | src/main.c:193-203 | the outline draws all four corners |
| Rectangle.OutlineCell | src/main.c:197-203 | after an outline a cell holds the swapped colour exactly when one of the four lines targets it |
| Sprite.TexelIndex | src/main.c:218-238 | where the cursor stands for texel (tx, ty): the offset uv.y * w * 4 + uv.x plus four bytes per texel before it in the data |
| Sprite.ReadsInside | src/main.c:221-227 | every byte the copy reads (red, green and blue of each texel of the block) lies inside the data |
| Sprite.TexelColor | src/main.c:225-233 | the colour built from the three bytes at the cursor |
| Sprite.TexelPlot | src/main.c:225-235 | the draw_pixel call for texel (tx, ty): at (pos.x + tx, pos.y + ty) with that texel's colour |
| Sprite.TexturePlots | src/main.c:212-240 | the draw_pixel calls of `draw_texture`, row by row, L * R of them |
| Sprite.PackRgb | src/main.c:225-233 | the built colour holds red in byte 2, green in byte 1, blue in byte 0 and zero in byte 3 |
| Sprite.PackRgbSteps | src/main.c:230-233 | the three `\|=` steps from 0 build that colour |
| Sprite.StoredTexel | src/main.c:225-235 | after the swap in draw_pixel the screen cell holds the texel's red, green and blue in bytes 0, 1, 2, as in the texture data, and zero alpha |
| Sprite.AlphaIgnored | src/main.c:225-228 | the byte after the three that a texel read takes has no influence on its colour |
| Sprite.TexelAlignment | src/main.c:218-236 | every texel read starts at the same offset modulo four as uv.x |
| Sprite.AlphaUnread | src/main.c:218-236 | with uv.x a multiple of four, textures that differ only in their alpha bytes give the same draw_pixel calls |
| Sprite.AlphaReadWhenMisaligned | src/main.c:218-236 | with uv.x = 1 the alpha byte of the first image pixel becomes the blue of the first call |
| Sprite.DivModOfTexel | src/main.c:221-224 | call ty * L + tx of the nested loops is the one for texel (tx, ty) |
| Sprite.TexelOfCall | src/main.c:221-224 | every call number below L * R names a texel inside the block |
| Sprite.CallsSoFar | src/main.c:221-224 | after tx texels of row ty, ty * L + tx of the L * R calls are made |
| Sprite.BlitPlots | src/main.c:221-238 | the first n calls of the copy number n |
| Sprite.BlitPlotsNext | src/main.c:221-238 | the call after the first ty * L + tx is the draw_pixel of texel (tx, ty) |
| Sprite.CopyStep | src/main.c:235 | drawing texel (tx, ty) over the first ty * L + tx calls gives the first ty * L + tx + 1 |
| Sprite.FirstTexel | src/main.c:218-219 | the cursor starts at the block's first texel |
| Sprite.NextRowCursor | src/main.c:238 | skipping the rest of the data row moves the cursor to the start of the next block row |
| Sprite.TexelLayout | src/main.c:218-238 | texels of a block row are four bytes apart, rows are w * 4 bytes apart, and uv.x shifts the block by bytes |
| Sprite.TextureCell | src/main.c:212-240 | after draw_texture a cell in the block holds its texel's colour as stored in the data, and every other cell is unchanged |
| Clock.Wrap64 | src/tangram.h:53-60 | the unsigned 64-bit result agrees with the exact value modulo 2^64, and equals it when in range |
| Clock.FrameBudget | src/main.c:70 | the budget is the largest whole number of ms that fits fps times in a second |
| Clock.FrameBudgetAtFps | src/main.c:70 | at 60 fps the budget is 16 ms |
| Clock.EveryNFrames | src/main.c:272-275 | the result is true exactly when the frame counter is a multiple of n |
| Clock.EveryNFramesPeriod | src/main.c:272-275 | after a firing frame, frame tick + k fires exactly when k is a multiple of n |
| Clock.PacingDelay | src/main.c:517-518 | a frame shorter than the budget sleeps the rest, a longer one does not sleep, and frame plus sleep lasts max(dt, budget) |
| Clock.TangramClock.Init | src/main.c:64-72 | `now` is the current time, `last`, `dt` and `tick` are zero and the budget is 1000 / fps |
| Clock.TangramClock.TickStart | src/main.c:74-77 | `last` becomes the current time and nothing else changes |
| Clock.TangramClock.TickEnd | src/main.c:79-86 | `now` and `last` become the current time, `dt` the time since the old `last` and `tick` one more, both modulo 2^64, and the budget is kept |
| Clock.TangramClock.Frame | src/main.c:510-519 | one main-loop iteration: `dt` is the update's duration, the counter advances and the delay is the pacing delay, so update plus sleep lasts max(dt, 16 ms) |
| Screen.Framebuffer.constructor | src/main.c:14-19 | a new buffer of width * height cells, all zero |
| Screen.Framebuffer.Clear | src/main.c:125-132 | every cell holds the swapped colour |
| Screen.Framebuffer.DrawPixel | src/main.c:134-161 | the buffer becomes `Plotted` of the old buffer: only the cell at (height-1-y) * width + x changes, and only in bounds |
| Screen.Framebuffer.DrawLine | src/main.c:163-189 | the buffer becomes the old buffer painted with the rounded points of `Trace(from, to)` |
| Screen.Framebuffer.DrawRectangle | src/main.c:191-210 | the buffer becomes the old buffer painted with the four lines or with the column-by-column fill |
| Screen.Framebuffer.FillColumn | src/main.c:207-208 | the inner loop adds the calls of one column to those already made |
| Screen.Framebuffer.DrawTexture | src/main.c:212-240 | the buffer becomes the old buffer painted with the block's texels, row by row |
| Screen.Framebuffer.CopyRow | src/main.c:221-238 | the inner loop draws one block row and leaves the cursor at the start of the next |
| Screen.Framebuffer.CopyTexel | src/main.c:225-236 | one texel is read at the cursor and drawn at (pos.x + tx, pos.y + ty) |

## Left out

- Floating point: `Point` holds floats in the source. The model uses integer-valued coordinates, so `fabs`, `fmaxf`, the `+= sx` steps and the conversion of `2.0f * err` to `int` are exact. Fractional endpoints, and float rounding of large coordinates, are not modelled.
- `(int)(v + 0.5f)` is modelled for integer-valued v as C truncation of (2v + 1) / 2. A negative coordinate therefore lands one cell to the right, as the source does.
- The `free(pixel)` call in `draw_pixel` (src/main.c:143) frees a pointer into the middle of the screen buffer. That is undefined behaviour in C and has no counterpart in the model. The write it follows is modelled, including the check that skips equal colours.
- C `int` overflow in the index, loop and cursor arithmetic is not modelled. Integers are unbounded, and the screen and texture sizes keep these values far below 2^31.
- Screen.Framebuffer.DrawTexture: requires that every byte the copy reads lies inside the texture data. The source reads past the buffer otherwise, which is undefined behaviour in C.
- `uv.x` is added to the byte offset as it is (src/main.c:218), so it shifts the block by bytes, not by texels. The model keeps this, and `Sprite.TexelLayout` states it. The engine only calls `draw_texture` with uv = (0, 0).
- The `scale` and `blend` parameters of `draw_texture` and the texture's `h` and `channels` fields are accepted and never read. The image's alpha bytes are never read when `uv.x` is a multiple of four (`Sprite.AlphaUnread`). Any other `uv.x` makes the copy read them as colour (`Sprite.AlphaReadWhenMisaligned`).
- Clock.EveryNFrames: takes the frame counter as a parameter instead of reading the global clock, and requires n > 0 because `tick % 0` is a division by zero.
- `tangram_event_setup` sets `dt` to 1 after `init_clock` (src/main.c:417). That assignment sits in the set-up, which is not modelled.
- Clock.TangramClock.Frame: `dt` covers only the update event between `tick_start` and `tick_end`. Render time is not part of it, and the model keeps that. The sleep itself (`SDL_Delay`) is the returned delay.
- The debug fps copy (src/main.c:512), `tangram_test_pointer`, `new_texture`, `free_textures`, and everything that talks to SDL, OpenGL, BASS audio, the keyboard or the random number generator are outside the model.
