/** `Drawer` (src/Drawer.cpp): the tile registry, the window and view
    settings, the animated scroll offset, and the frame it draws. A frame is
    returned as the sequence of draw calls it issues, in order. */
module Drawing {
  import opened CppArith
  import opened Geometry
  import opened Atlas
  import opened Viewport
  import opened Compositor

  class Drawer {
    /** `mIdToTile`: the registered tiles by id. */
    var tiles: map<int, Tile>
    /** `mWindowSize`, in pixels. */
    var windowSize: Vec2
    /** `mTileSize`: the side of a tile in atlas pixels. */
    const tileSize: int
    /** `mViewSize`: the number of cells wanted across the window's short axis. */
    const viewSize: int
    /** `mScrollOffset`: the camera offset, in cells, and its transition. */
    var scroll: ScrollAnim

    /** The divisions `draw` performs are defined. */
    ghost predicate Valid()
      reads this
    {
      tileSize > 0 && viewSize > 0 && windowSize.x >= 0 && windowSize.y >= 0
    }

    constructor(tileSize: int, viewSize: int)
      requires tileSize > 0 && viewSize > 0
      ensures Valid()
      ensures this.tileSize == tileSize && this.viewSize == viewSize
      ensures tiles == map[] && windowSize == Vec2(0, 0) && scroll == Settled(Vec2(0, 0))
    {
      this.tileSize := tileSize;
      this.viewSize := viewSize;
      tiles := map[];
      windowSize := Vec2(0, 0);
      scroll := Settled(Vec2(0, 0));
    }

    /** `setWindowSize`: records the new window size and nothing else. */
    method SetWindowSize(size: Vec2)
      requires Valid() && size.x >= 0 && size.y >= 0
      modifies this
      ensures Valid()
      ensures windowSize == size
      ensures tiles == old(tiles) && scroll == old(scroll)
    {
      windowSize := size;
    }

    /** `setTile`: registers, or replaces, the tile under `tileId`; every
        other id keeps its tile. */
    method SetTile(tileId: int, image: Image, height: int, line: int, begin: int, end: int,
                   duration: real, now: real)
      requires Valid()
      modifies this
      ensures Valid()
      ensures tiles == old(tiles)[tileId := NewTile(image, height, line, begin, end, duration, now)]
      ensures forall id :: id in old(tiles) && id != tileId ==> id in tiles && tiles[id] == old(tiles)[id]
      ensures windowSize == old(windowSize) && scroll == old(scroll)
    {
      tiles := tiles[tileId := NewTile(image, height, line, begin, end, duration, now)];
    }

    /** `drawTile`: nothing for an unknown id, otherwise one draw call of the
        tile's current frame. */
    method DrawTile(id: int, place: Place) returns (e: seq<DrawEvent>)
      requires Drawable(tiles, tileSize)
      ensures e == [] <==> id !in tiles
      ensures id in tiles ==> |e| == 1 && e[0].tileId == id && e[0].place == place
                              && e[0].src.Width() == tileSize && e[0].src.Height() == tiles[id].height
      ensures e == TileDraw(tiles, tileSize, id, place)
    {
      if id !in tiles {
        return [];
      }
      var tile := tiles[id];
      var src := PickTileIndex(tile.image.width, tileSize, tile.height, tile.line, tile.current);
      e := [DrawEvent(id, place, src)];
    }

    /** The body of both row loops of `draw`: the cell's ground tile, then its
        overlay tile when it has one. */
    method DrawCell(c: Cell, x: int, y: int) returns (e: seq<DrawEvent>)
      requires Drawable(tiles, tileSize)
      ensures e == CellDraws(tiles, tileSize, c, x, y)
    {
      e := DrawTile(c.ground, CellAt(x, y));
      assert tiles == old(tiles);  // hint: the call leaves the tile map as it was
      if c.layer != 0 {
        var layer := DrawTile(c.layer, CellAt(x, y));
        assert tiles == old(tiles);  // hint: the call leaves the tile map as it was
        e := e + layer;
      }
    }

    /** One row of either row loop of `draw`: its cells from the left. */
    method DrawRow(row: seq<Cell>, y: int) returns (e: seq<DrawEvent>)
      requires Drawable(tiles, tileSize)
      ensures e == RowDraws(tiles, tileSize, row, y)
    {
      ghost var cells := CellsOfRow(tiles, tileSize, row, y);
      e := [];
      var x := 0;
      while x < |row|
        invariant 0 <= x <= |row|
        invariant e == Flatten(cells[..x])
      {
        var c := DrawCell(row[x], x, y);
        assert tiles == old(tiles);  // hint: the call leaves the tile map as it was
        FlattenPrefix(cells, x);
        e := e + c;
        x := x + 1;
      }
      assert cells[..|row|] == cells;  // hint: the whole row is its longest prefix
    }

    /** The first row loop of `draw`: the rows down to the actor's row. */
    method DrawRowsThrough(board: Board, actorY: int) returns (e: seq<DrawEvent>)
      requires Drawable(tiles, tileSize) && actorY >= -1
      ensures e == RowsDraws(tiles, tileSize, board.rows, 0, Min(actorY + 1, board.Height()))
    {
      e := [];
      var y := 0;
      while y <= actorY && y < board.Height()
        invariant 0 <= y <= board.Height() && y <= actorY + 1
        invariant e == RowsDraws(tiles, tileSize, board.rows, 0, y)
      {
        var r := DrawRow(board.rows[y], y);
        assert tiles == old(tiles);  // hint: the call leaves the tile map as it was
        RowsDrawsPush(tiles, tileSize, board.rows, 0, y);
        e := e + r;
        y := y + 1;
      }
    }

    /** The second row loop of `draw`: the rows from `start` to the bottom. */
    method DrawRowsFrom(board: Board, start: nat) returns (e: seq<DrawEvent>)
      requires Drawable(tiles, tileSize)
      ensures e == RowsDraws(tiles, tileSize, board.rows, Min(start, board.Height()), board.Height())
    {
      var first := Min(start, board.Height());
      e := [];
      var y := first;
      while y < board.Height()
        invariant first <= y <= board.Height()
        invariant e == RowsDraws(tiles, tileSize, board.rows, first, y)
      {
        var r := DrawRow(board.rows[y], y);
        assert tiles == old(tiles);  // hint: the call leaves the tile map as it was
        RowsDrawsPush(tiles, tileSize, board.rows, first, y);
        e := e + r;
        y := y + 1;
      }
    }

    /** The rows at or above the actor, the actor, then the rows below. */
    method Render(board: Board, actor: Actor) returns (events: seq<DrawEvent>)
      requires Drawable(tiles, tileSize) && ActorRow(actor) >= -1
      ensures events == FrameDraws(tiles, tileSize, board, actor)
    {
      var actorY := Ceil(actor.animatedY);
      var above := DrawRowsThrough(board, actorY);
      assert tiles == old(tiles);  // hint: the call leaves the tile map as it was
      var t := DrawTile(actor.tileId, ActorAt(actor.animatedX, actor.animatedY));
      assert tiles == old(tiles);  // hint: the call leaves the tile map as it was
      var below := DrawRowsFrom(board, actorY + 1);
      assert tiles == old(tiles);  // hint: the call leaves the tile map as it was
      events := above + t + below;
    }

    /** What `draw` needs of its inputs: every tile can be cut from its
        atlas and, when a frame is drawn at all, the actor's row is not
        above row -1. */
    predicate CanDraw(board: Board, actor: Actor)
      reads this
      requires Valid()
    {
      && Drawable(tiles, tileSize)
      && (Scale(windowSize, tileSize, viewSize) != 0 ==> ActorRow(actor) >= -1)
    }

    /** `draw`: nothing at a zero scale; otherwise the scroll-start rule
        towards the actor's offset, then the frame. */
    method Draw(board: Board, actor: Actor, now: real) returns (events: seq<DrawEvent>)
      requires Valid() && CanDraw(board, actor)
      modifies this
      ensures Valid()
      ensures tiles == old(tiles) && windowSize == old(windowSize)
      ensures Scale(windowSize, tileSize, viewSize) == 0 ==> events == [] && scroll == old(scroll)
      ensures Scale(windowSize, tileSize, viewSize) != 0 ==>
                var vs := ViewSize(windowSize, viewSize, board.Size());
                && scroll == NextScroll(old(scroll), now,
                                        SafeScrollOffset(actor.last, vs, board.Size()),
                                        SafeScrollOffset(actor.logical, vs, board.Size()))
                && events == FrameDraws(tiles, tileSize, board, actor)
    {
      var scale := Scale(windowSize, tileSize, viewSize);
      if scale == 0 {
        return [];
      }
      var vs := ViewSize(windowSize, viewSize, board.Size());
      var target := SafeScrollOffset(actor.logical, vs, board.Size());
      if scroll.IsComplete(now) && target != scroll.Target() {
        var last := SafeScrollOffset(actor.last, vs, board.Size());
        scroll := Moving(last, target, now, Chebyshev(target, last) as real * ScrollDuration);
      }
      events := Render(board, actor);
    }
  }
}
