# Labyrinth drawer and directions, in Dafny

A model of the tile renderer of the Labyrinth board game (`Drawer`) and of
its direction bit flags (`Direction`, `reverse`), with proofs about them.

- **Tile registry.** The `Drawer` keeps a registry of tiles. Each tile is an
  atlas image and a row in the atlas, with a range of animation frames.
- **One frame.** For each frame the drawer works out four things:
  - an integer pixel scale, which may be zero (then nothing is drawn);
  - how many cells are visible on each axis;
  - which board cell the camera starts at;
  - when a scroll transition towards the actor starts.
- **Draw calls.** The drawer then draws the board rows at or above the
  actor, then the actor, then the rows below. The draw order alone gives the
  illusion of depth.
- **Directions.** A `Direction` is a 4-bit mask of up, down, left and right.
  `reverse` swaps up with down and left with right.

The model has seven modules:

- **`CppArith`** (`cpp_arith.dfy`): C++ integer remainder, which truncates
  toward zero, and the ceiling of a real taken as an int.
- **`Geometry`** (`geometry.dfy`): integer vectors, rectangles and the
  Chebyshev distance.
- **`Directions`** (`directions.dfy`): the `Direction` constants and
  `reverse`. A mask is a `bv32`, and it has a second, set-of-directions view
  (`Flags`, `Mask`).
- **`Atlas`** (`atlas.dfy`): the tile descriptor `setTile` stores, and the
  atlas lookup `pickTileIndex`.
- **`Viewport`** (`viewport.dfy`): the integer scale, the view size, the
  scroll offset (as written, and corrected) and the scroll-start rule.
- **`Compositor`** (`compositor.dfy`): the draw calls of one frame, as a
  sequence of `DrawEvent`s defined by functions. It also holds the
  ordering and "drawn exactly once" lemmas.
- **`Drawing`** (`drawer.dfy`): the class `Drawer`.
  - Its fields are the tile map, the window size, the two sizes fixed at
    construction and the scroll state.
  - `SetTile` and `Draw` are methods that change those fields.
  - The drawing loops are methods that return the draw calls they issue.
    Each is proved equal to the specification functions in `Compositor`.

Time is an explicit parameter `now`. A scroll transition is recorded by its
two end points, its start time and its duration. Each `ci::gl::draw` call
appears as a `DrawEvent` holding the tile id, the place it is drawn at and
the atlas source rectangle.

## Model

| member | source | states |
|---|---|---|
| CppArith.CppRem | src/Drawer.cpp:37 | C++ `%`: the remainder is smaller than the divisor in magnitude, is zero or has the dividend's sign, and leaves a multiple of the divisor; on non-negative dividends it is the Euclidean remainder |
| CppArith.Ceil | src/Drawer.cpp:100 | `std::ceil` taken as an int: the least integer at or above the value |
| Atlas.NewTile | src/Drawer.cpp:22-29 | the stored descriptor keeps image, height, line and frame range; its current frame is `begin`; it loops, from `now` over `duration`, exactly when `end > begin + 1` |
| Atlas.PickTileIndex | src/Drawer.cpp:36-39 | the rectangle is one tile wide and `tileHeight` tall; its bottom is `(tileLine + 1) * tileWidth`; its left edge is a multiple of the tile width; for a non-negative frame it lies within the image width |
| Atlas.PickTileColumn | src/Drawer.cpp:36-38 | for a non-negative frame the column is the frame modulo the number of tiles across the atlas |
| Atlas.PickTileWraps | src/Drawer.cpp:36-39 | for non-negative frames, frames that differ by the number of tiles across the atlas give the same rectangle |
| Atlas.ColumnFits | src/Drawer.cpp:36-39 | a non-negative column below the tile count puts the rectangle inside the image |
| Atlas.SourceRect | src/Drawer.cpp:140-142 | the rectangle of a tile's current frame is one tile wide and as tall as the tile |
| Viewport.Scale | src/Drawer.cpp:64-68 | the largest `s >= 0` with `s * tileSize * viewSize` at most the window on both axes; a positive scale needs a non-empty window |
| Viewport.FloorOfFloor | src/Drawer.cpp:64 | dividing by the tile size and then by the view size floors the division by their product |
| Viewport.ViewSize | src/Drawer.cpp:72-81 | never more than the board; the short axis (y when square) is `min(viewSize, board)`; the long axis is the largest count up to the board that keeps the window's aspect ratio, and is at least `min(viewSize, board)` |
| Viewport.StretchedAxis | src/Drawer.cpp:73-81 | the stretched axis, clamped, is the largest extent up to the bound that stays within the aspect ratio |
| Viewport.AxisOffset | src/Drawer.cpp:52-58 | one axis of the offset as written; it is at most `board - view` |
| Viewport.PositionToScrollOffset | src/Drawer.cpp:48-59 | both axes of the offset are at most `board - view` |
| Viewport.PageStart | src/Drawer.cpp:57-58 | the largest multiple of k not above n |
| Viewport.AxisOffsetPaged | src/Drawer.cpp:53-58 | past the first cell, the offset is the page start of the previous cell, in pages of `view - 2`, clamped to `board - view` |
| Viewport.AxisOffsetLowerBound | src/Drawer.cpp:53-58 | for views of more than two cells that fit the board, the offset is non-negative, except at the first cell with a view of three; at the first cell with a larger view it is 0 |
| Viewport.AxisOffsetKeepsActorVisible | src/Drawer.cpp:42-59 | for views of more than two cells that fit the board, the actor's own cell lies inside the view |
| Viewport.AxisOffsetLeavesBoard | src/Drawer.cpp:53-58 | at the first cell with a view of three, the offset is -1 |
| Viewport.AxisOffsetOneCellView | src/Drawer.cpp:53-58 | with a one-cell view the offset is the cell before the actor, so the actor is never in view, and at the first cell the view starts at -1 |
| Viewport.TwoCellBoardTwoCellView | src/Drawer.cpp:72-81 | on a board two cells wide, a desired view of at least two cells gives a view two cells wide, for which `positionToScrollOffset` divides by zero |
| Viewport.SafeAxisOffset | src/Drawer.cpp:42-59 | the corrected offset is never negative and never past `board - view` |
| Viewport.SafeScrollOffset | src/Drawer.cpp:42-59 | both axes of the corrected offset lie in `[0, board - view]` |
| Viewport.SafeAxisOffsetAgrees | src/Drawer.cpp:53-58 | for views of more than two cells, the corrected offset equals the one as written except at the first cell with a view of three; a view of one or two cells starts at the actor, pushed back onto the board, so a one-cell view starts exactly at the actor; for every view that fits the board the actor is visible |
| Viewport.SafeScrollOffsetKeepsActorVisible | src/Drawer.cpp:42-59 | on both axes, `0 <= offset <= position < offset + view <= board` |
| Viewport.NextScroll | src/Drawer.cpp:84-94 | a transition starts exactly when the previous one is complete and the target differs; it runs from the last position's offset to the current one, starts now and lasts the Chebyshev distance times 0.1 s; otherwise the state is unchanged |
| Viewport.NextScrollStable | src/Drawer.cpp:86-87 | once complete, drawing again towards the same target never restarts the transition |
| Viewport.NextScrollDuration | src/Drawer.cpp:93 | the duration is non-negative, and zero exactly when the two end points are equal |
| Viewport.NextScrollStaysOnBoard | src/Drawer.cpp:84-94 | with the corrected offset, every transition runs between offsets on the board |
| Geometry.MinVec | src/Drawer.cpp:81 | `min` on vectors, per component: each component is at most both arguments' and equal to one of them |
| Geometry.Chebyshev | src/Drawer.cpp:93 | `reduce_max(abs(a - b))`: at least each axis's distance, equal to one of them, and zero exactly when a = b |
| Compositor.TileDraw | src/Drawer.cpp:133-146 | one draw call for a registered id, none for an unknown id |
| Compositor.CellDraws | src/Drawer.cpp:106-110 | the ground tile's draw, then the overlay's when its id is non-zero: at most two draw calls (their places and order are in CellDrawsAtCell) |
| Compositor.CellDrawsAtCell | src/Drawer.cpp:106-110 | a cell's draw calls are all at that cell; the ground tile comes first and the overlay last; the overlay is drawn only when its id is non-zero; unknown ids are skipped |
| Compositor.RowDraws | src/Drawer.cpp:104-111 | the cells' draw calls, left to right; an empty row draws nothing (places and order are in RowDrawsInOrder and AtRow) |
| Compositor.RowsDraws | src/Drawer.cpp:101-112 | the rows' draw calls, top to bottom; an empty range draws nothing (its growth is in RowsDrawsPush) |
| Compositor.RowsDrawsPush | src/Drawer.cpp:101-112 | drawing one more row appends that row's draw calls |
| Compositor.RowDrawsInOrder | src/Drawer.cpp:104-111 | a row's draw calls are all at cells of that row, left to right |
| Compositor.RowsDrawsInOrder | src/Drawer.cpp:101-112 | the draw calls of a range of rows are all in those rows, in row-major order |
| Compositor.AtRow | src/Drawer.cpp:104-111 | within a row, each cell's draw calls are exactly its own, and there are none for any other place |
| Compositor.AtRows | src/Drawer.cpp:101-112 | within a range of rows, each cell's draw calls are exactly its own, and there are none outside the range |
| Compositor.ActorRow | src/Drawer.cpp:100 | `ceil` of the actor's animated row: the least integer at or above it |
| Compositor.SplitRow | src/Drawer.cpp:101-116 | the first row of the second loop: at most the height; every row before it starts less than one row below the actor, and the row at it, if any, does not start above the actor |
| Compositor.FrameDraws | src/Drawer.cpp:100-127 | the first row loop, the actor, then the second row loop; on an empty board only the actor is drawn (the per-cell, actor and order facts are in the FrameDraws lemmas below) |
| Compositor.FrameDrawsEachCellOnce | src/Drawer.cpp:100-127 | every board cell is drawn exactly once per frame, ground tile then overlay; nothing is drawn at cells off the board |
| Compositor.FrameDrawsActorOnce | src/Drawer.cpp:114 | the actor is drawn once at its animated position if its tile is registered, and not at all otherwise |
| Compositor.FrameDrawsInRowOrder | src/Drawer.cpp:100-127 | board cells are drawn in row-major order, and every other draw call is the actor's |
| Compositor.FrameDrawsActorBetweenRows | src/Drawer.cpp:100-127 | a cell is drawn before the actor exactly when its row is at or above `ceil(actor y)` |
| Compositor.UnknownCellDrawsNothing | src/Drawer.cpp:133-137 | a cell whose tile ids are not registered produces no draw call |
| Drawing.Drawer.constructor | src/Drawer.cpp:64-98 | the fields `draw` reads; tile size and view size are fixed; there are no tiles, the window is empty and the scroll rests at (0, 0), an initial state assumed because the constructor is not in the modelled sources |
| Drawing.Drawer.SetWindowSize | src/LabyrinthApp.cpp:161 | records the window size; tiles and scroll are unchanged |
| Drawing.Drawer.SetTile | src/Drawer.cpp:18-30 | the tile is stored under its id, replacing any earlier one; every other id keeps its tile; window and scroll are unchanged |
| Drawing.Drawer.DrawTile | src/Drawer.cpp:130-146 | nothing for an unknown id; otherwise one draw call carrying the id and the place, whose source is one tile wide and as tall as the tile |
| Drawing.Drawer.DrawCell | src/Drawer.cpp:106-110 | the draw calls of one cell, as `CellDraws` specifies |
| Drawing.Drawer.DrawRow | src/Drawer.cpp:103-111 | the loop over a row's cells issues exactly `RowDraws` |
| Drawing.Drawer.DrawRowsThrough | src/Drawer.cpp:101-112 | the first row loop issues rows 0 to `min(actorY + 1, height) - 1` |
| Drawing.Drawer.DrawRowsFrom | src/Drawer.cpp:116-127 | the second row loop issues rows `min(actorY + 1, height)` to the last |
| Drawing.Drawer.Render | src/Drawer.cpp:100-127 | the frame's draw calls are exactly `FrameDraws` |
| Drawing.Drawer.Draw | src/Drawer.cpp:61-127 | at scale 0, nothing is drawn and the scroll is unchanged; otherwise the scroll follows `NextScroll` towards the actor's corrected offset and the draw calls are `FrameDraws`; tiles and window are unchanged |
| Directions.Reverse | include/Constants.h:23-27 | the result is a mask; it has up exactly when the argument has down, and the same for the other three directions |
| Directions.ReverseSingles | include/Constants.h:23-26 | reverse maps none to none, up to down, down to up, left to right and right to left |
| Directions.ReverseInvolution | include/Constants.h:25 | reverse is an involution on masks |
| Directions.ReverseDistributesOverOr | include/Constants.h:25 | reverse distributes over bitwise or |
| Directions.ReverseDiscardsHighBits | include/Constants.h:25 | bits above right play no part |
| Directions.ReverseSingleBit | include/Constants.h:25 | a single direction maps to a single direction, and the number of flags set is preserved |
| Directions.DirectionsDistinct | include/Constants.h:14-18 | none is zero, the four directions pairwise share no bit, and each has exactly one bit among the four flags set |
| Directions.Flags | include/Constants.h:12-20 | a direction is in the set exactly when its bit is set |
| Directions.Mask | include/Constants.h:12-20 | the encoding of a set of directions is a mask |
| Directions.MaskFlagsRoundTrip | include/Constants.h:12-20 | every mask is the encoding of its set of directions |
| Directions.FlagsMaskRoundTrip | include/Constants.h:12-20 | every set of directions is the set view of its encoding, so with MaskFlagsRoundTrip masks and sets correspond one to one |
| Directions.ReverseIsOpposite | include/Constants.h:22-27 | on the set view, reverse has a direction exactly when the argument has its opposite |

## Left out

- The tweening in cinder's `Timeline` is a library that is not part of this model. Two things follow:
  - A tile's frame stays at `begin`, because the frame loop (src/Drawer.cpp:28) is not modelled.
  - A scroll transition is recorded without its interpolated values (src/Drawer.cpp:91-93).
- The pixel arithmetic in floating point is not modelled: the screen offset at src/Drawer.cpp:97-98 and the destination rectangle at src/Drawer.cpp:143-145. As a result, a `DrawEvent` records a board cell or the actor's position, and not screen pixels.
- `ci::gl::draw`, `Texture::getBounds`, `Board` and `Actor` are not part of this model. The image width, the rows of cells and the actor's positions and tile are plain inputs.
- `Drawer.h` is not part of this model. Two things follow:
  - The constructor's initial state is an assumption: no tiles, an empty window, the scroll at rest at (0, 0).
  - `scrolling()` (src/LabyrinthApp.cpp:190) is not modelled; on this model it would be `!scroll.IsComplete(now)`.
- Drawing.Drawer.Draw: compares the new offset with the end point of the finished transition, which is where a finished transition rests, using `!=`. The source compares the squared length of the difference with `ci::EPSILON`. On integer offsets the two agree.
- Drawing.Drawer.Draw: requires the actor's row to be at least -1, so that the first row after the actor is a natural number.
- Drawing.Drawer.Draw: requires every registered image to be at least one tile wide, as a restriction of the model. The source divides by zero in `pickTileIndex` only when a narrower tile is actually drawn, so a frame that never draws such a tile is well defined there but outside this model.
- Drawing.Drawer.Draw: uses the corrected offset `SafeScrollOffset` instead of the as-written one (see Findings). It therefore also draws a frame with a two-cell view, where the source divides by zero.
- Viewport.AxisOffsetKeepsActorVisible: is stated for views of more than two cells that fit on the board on that axis. A two-cell view divides by zero (Viewport.TwoCellBoardTwoCellView, see Findings). A one-cell view divides by -1 and does not keep the actor in view (Viewport.AxisOffsetOneCellView, see Findings).
- `Helpers.h` is not part of this model. The vector helpers it provides for `Vec2i`, `min`, `reduce_min`, `reduce_max` and `abs`, are assumed to work per component (`min`, `abs`), or to take the smaller or larger of the two components (`reduce_min`, `reduce_max`). Viewport.Scale, Viewport.ViewSize, Viewport.AxisOffset and Geometry.Chebyshev rest on that reading.
- C++ `int` overflow is not modelled: integers are unbounded. The products that could overflow on extreme inputs are `viewSize.x * mWindowSize.x` and its y counterpart (src/Drawer.cpp:75, 79) and `(tileLine + 1) * tileWidth` (src/Drawer.cpp:38).
- Directions.Reverse: works on the 32-bit pattern of the enum. The conversion back to `Direction` is a plain reinterpretation.
- src/LabyrinthApp.cpp is application glue and is not modelled: the window and GL setup, input, file watching, sound, widgets, and the move filter at line 195.
- include/Labyrinth_Prefix.h holds only includes.
- `DIR_MAX` (include/Constants.h:19), the enumerator after `DIR_RIGHT`, is not used by the modelled code and has no counterpart.
- `MOVE_DURATION` (include/Constants.h:31) belongs to the actor, which is not part of this model.

## Findings

| source | as written | input that shows it | evidently intended | confidence | as-written member | corrected member |
|---|---|---|---|---|---|---|
| src/Drawer.cpp:53-58 | the offset is `min(board - view, (p - 1) - (p - 1) % (view - 2))` with C++ `%` | position 0 with a view of 3 cells on a board of 3 or more: `-1 % 1` is 0, so the offset is -1 and the view starts one cell before the board, against the function's own "not step out of it" | the offset is also clamped below at 0 | not executed | Viewport.AxisOffsetLeavesBoard | Viewport.SafeScrollOffset (with Viewport.SafeScrollOffsetKeepsActorVisible) |
| src/Drawer.cpp:53-58 | with a one-cell view the divisor `view - 2` is -1 and every C++ remainder by -1 is 0, so the offset is `min(board - 1, p - 1)` | any position p on a board of at least p + 1 cells: the offset is p - 1, the one visible cell is the one before the actor, and at position 0 it is -1, outside the board | the one visible cell is the actor's | not executed | Viewport.AxisOffsetOneCellView | Viewport.SafeAxisOffset (with Viewport.SafeAxisOffsetAgrees) |
| src/Drawer.cpp:54-58 | the divisor `view - 2` is 0 when the view is two cells on an axis, and `%` by zero is undefined | a board two cells wide or tall with a desired view of at least two cells: the view on that axis is 2 | a two-cell view starts at the actor, pushed back onto the board | not executed | Viewport.TwoCellBoardTwoCellView | Viewport.SafeAxisOffset (with Viewport.SafeAxisOffsetAgrees) |

For every other view of more than two cells, position 0 does give offset 0, because `-1 % k` is -1 for k > 1 (Viewport.AxisOffsetLowerBound).
